/**
 * The onboarding wizard: six steps advanced by the Next button, the field
 * each of the first four steps requires, the progress dots and the button
 * label, the avatar picker, and the finish that submits the profile and
 * keeps going when the avatar upload fails.
 */
module Onboarding {
  import opened Common

  const DefaultAvatar: string := "https://api.dicebear.com/7.x/avataaars/svg?seed=Felix"

  /** The three preset avatars the last step offers. */
  const PresetAvatars: seq<string> := [
    DefaultAvatar,
    "https://api.dicebear.com/7.x/avataaars/svg?seed=Aneka",
    "https://api.dicebear.com/7.x/avataaars/svg?seed=Bob"]

  /** How `finishOnboarding` ends. */
  datatype FinishOutcome =
    | Completed(avatar: string)       // profile submitted with this avatar; the wizard closes
    | NoUser                          // nobody is signed in
    | BackendFailed(avatar: string)   // the profile call failed; the wizard stays open

  /**
   * The avatar submitted: the uploaded file's URL when a file was chosen and
   * its upload succeeded, the current avatar otherwise (a failed upload is
   * only logged).
   */
  function FinalAvatar(current: string, file: Option<string>, upload: Result<string, string>): (r: string)
    ensures file.None? || upload.Err? ==> r == current
    ensures file.Some? && upload.Ok? ==> r == upload.value
  {
    if file.Some? && upload.Ok? then upload.value else current
  }

  /** The outcome of `finishOnboarding` given the session, the upload result and whether the profile call succeeds. */
  function FinishResult(user: Option<string>, current: string, file: Option<string>,
                        upload: Result<string, string>, backendOk: bool): (r: FinishOutcome)
    ensures r == NoUser <==> user.None?
    ensures r.Completed? <==> user.Some? && backendOk
  {
    if user.None? then NoUser
    else if backendOk then Completed(FinalAvatar(current, file, upload))
    else BackendFailed(FinalAvatar(current, file, upload))
  }

  /** A failed avatar upload does not stop onboarding: it completes with the previous avatar. */
  lemma UploadFailureKeepsAvatar(user: string, current: string, file: Option<string>, reason: string)
    ensures FinishResult(Some(user), current, file, Err(reason), true) == Completed(current)
  {
  }

  class Wizard {
    var step: int
    var nickname: string
    var weight: string
    var height: string
    var goal: string
    var avatarUrl: string
    var file: Option<string>
    var loading: bool
    var finished: bool

    /** The step is always one of the six. */
    ghost predicate Valid()
      reads this
    {
      1 <= step <= 6
    }

    constructor ()
      ensures Valid() && step == 1
      ensures nickname == "" && weight == "" && height == "" && goal == ""
      ensures avatarUrl == DefaultAvatar && file.None? && !loading && !finished
    {
      step := 1;
      nickname := "";
      weight := "";
      height := "";
      goal := "";
      avatarUrl := DefaultAvatar;
      file := None;
      loading := false;
      finished := false;
    }

    /** The Next button is disabled while loading, or while the current step's field is empty. */
    predicate NextDisabled()
      reads this
    {
      || loading
      || (step == 1 && nickname == "")
      || (step == 2 && weight == "")
      || (step == 3 && height == "")
      || (step == 4 && goal == "")
    }

    /** Steps 5 and 6 have no required field: only loading disables Next there. */
    lemma LastStepsNeverFieldBlocked()
      requires step >= 5
      ensures NextDisabled() <==> loading
    {
    }

    /** The six progress dots; dot `s` (counting from 1) is lit when `s <= step`. */
    function Dots(): (r: seq<bool>)
      reads this
      ensures |r| == 6
      ensures forall i :: 0 <= i < 6 ==> (r[i] <==> i + 1 <= step)
    {
      seq(6, i requires 0 <= i < 6 reads this => i + 1 <= step)
    }

    /** The Next button's label. */
    function ButtonLabel(): (r: string)
      reads this
      ensures r == "Iniciar Jornada" <==> step == 6 && !loading
    {
      if loading then "Processando..." else if step == 6 then "Iniciar Jornada" else "Próximo Passo"
    }

    /** A click on one of the preset avatars replaces the picture and drops any chosen file. */
    method ChoosePreset(url: string)
      requires url in PresetAvatars
      modifies this`file, this`avatarUrl
      ensures file.None? && avatarUrl == url && avatarUrl in PresetAvatars
    {
      file := None;
      avatarUrl := url;
    }

    /** A file choice keeps the first file and previews it; an empty choice changes nothing. */
    method SelectFiles(files: seq<string>, previewUrl: string)
      modifies this`file, this`avatarUrl
      ensures files == [] ==> file == old(file) && avatarUrl == old(avatarUrl)
      ensures files != [] ==> file == Some(files[0]) && avatarUrl == previewUrl
    {
      if files != [] {
        file := Some(files[0]);
        avatarUrl := previewUrl;
      }
    }

    /** `finishOnboarding`: submits the profile; the wizard closes only when that succeeds. */
    method FinishOnboarding(user: Option<string>, upload: Result<string, string>, backendOk: bool) returns (outcome: FinishOutcome)
      modifies this`loading, this`finished
      ensures outcome == FinishResult(user, avatarUrl, file, upload, backendOk)
      ensures finished == (old(finished) || outcome.Completed?)
      ensures !loading
    {
      loading := true;
      outcome := FinishResult(user, avatarUrl, file, upload, backendOk);
      if outcome.Completed? {
        finished := true;
      }
      loading := false;
    }

    /** `handleNext`: advances below step 6; at step 6 it finishes and the step stays. */
    method HandleNext(user: Option<string>, upload: Result<string, string>, backendOk: bool) returns (outcome: Option<FinishOutcome>)
      requires Valid()
      modifies this`step, this`loading, this`finished
      ensures Valid()
      ensures old(step) < 6 ==> step == old(step) + 1 && outcome.None?
                                && loading == old(loading) && finished == old(finished)
      ensures old(step) == 6 ==> step == 6 && !loading
                                 && outcome == Some(FinishResult(user, avatarUrl, file, upload, backendOk))
                                 && finished == (old(finished) || outcome.value.Completed?)
    {
      if step < 6 {
        step := step + 1;
        outcome := None;
      } else {
        var o := FinishOnboarding(user, upload, backendOk);
        outcome := Some(o);
      }
    }

    /** "Pular" closes the wizard at any step without submitting anything. */
    method Skip()
      modifies this`finished
      ensures finished
    {
      finished := true;
    }

    /** A click on Next: nothing while the button is disabled, `handleNext` otherwise. */
    method ClickNext(user: Option<string>, upload: Result<string, string>, backendOk: bool) returns (outcome: Option<FinishOutcome>)
      requires Valid()
      modifies this`step, this`loading, this`finished
      ensures Valid()
      ensures old(NextDisabled()) ==> outcome.None? && step == old(step) && loading == old(loading) && finished == old(finished)
      ensures !old(NextDisabled()) && old(step) < 6 ==>
                step == old(step) + 1 && outcome.None? && loading == old(loading) && finished == old(finished)
      ensures !old(NextDisabled()) && old(step) == 6 ==>
                && step == 6 && !loading
                && outcome == Some(FinishResult(user, avatarUrl, file, upload, backendOk))
                && finished == (old(finished) || outcome.value.Completed?)
    {
      if NextDisabled() {
        return None;
      }
      outcome := HandleNext(user, upload, backendOk);
    }
  }
}
