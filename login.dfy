/**
 * The sign-in screen: its three modes (sign in, create account, reset
 * password), the backend call each submission makes, the resolution of a
 * nickname to an e-mail address, and the rewriting of backend error
 * messages into the texts shown to the user.
 */
module Login {
  import opened Common
  import opened Text

  /** What the form is for; reset mode takes precedence over sign-up. */
  datatype Mode = SignIn | SignUp | Reset

  function ModeOf(isSignUp: bool, isResetMode: bool): (m: Mode)
    ensures m == Reset <==> isResetMode
    ensures m == SignUp <==> isSignUp && !isResetMode
  {
    if isResetMode then Reset else if isSignUp then SignUp else SignIn
  }

  /** The heading of the card. */
  function Title(m: Mode): (r: string)
    ensures r == "Recuperar Acesso" <==> m == Reset
    ensures r == "Nova Conta" <==> m == SignUp
    ensures r == "Acessar" <==> m == SignIn
  {
    match m
    case Reset => "Recuperar Acesso"
    case SignUp => "Nova Conta"
    case SignIn => "Acessar"
  }

  function SubmitLabel(m: Mode, loading: bool): (r: string)
    ensures loading <==> r == "Processando..."
    ensures !loading ==> (r == "Enviar Link" <==> m == Reset) && (r == "Criar Conta" <==> m == SignUp)
                         && (r == "Entrar" <==> m == SignIn)
  {
    if loading then "Processando..."
    else match m
      case Reset => "Enviar Link"
      case SignUp => "Criar Conta"
      case SignIn => "Entrar"
  }

  /** The heading, and the button when idle, tell the three modes apart. */
  lemma ScreenShowsMode(m1: Mode, m2: Mode)
    ensures Title(m1) == Title(m2) <==> m1 == m2
    ensures SubmitLabel(m1, false) == SubmitLabel(m2, false) <==> m1 == m2
  {
  }

  const InvalidLoginText: string := "Credenciais inválidas."
  const SignupsDisabledText: string :=
    "O cadastro por email " + "está desativado " + "no Supabase. " + "Habilite em Auth " + "-> Providers."
  const RateLimitText: string := "Muitas tentativas. Aguarde um pouco."
  const NotFoundText: string := "Usuário não " + "encontrado. " + "Tente usar " + "seu email."

  /**
   * The error text shown: three successive rewrites, each testing the text
   * the previous one left.
   */
  function MapError(msg: string): (r: string)
    ensures r == msg || r == InvalidLoginText || r == SignupsDisabledText || r == RateLimitText
  {
    var m1 := if Contains(msg, "Invalid login") then InvalidLoginText else msg;
    var m2 := if Contains(m1, "Email signups are disabled") then SignupsDisabledText else m1;
    if Contains(m2, "security purposes") then RateLimitText else m2
  }

  /**
   * Reference reading of the rewrites: the first rule whose phrase occurs
   * decides, in the order invalid login, disabled sign-ups, rate limit.
   */
  function FirstMatchError(msg: string): (r: string)
    ensures (!Contains(msg, "Invalid login") && !Contains(msg, "Email signups are disabled")
             && !Contains(msg, "security purposes")) ==> r == msg
    ensures Contains(msg, "Invalid login") ==> r == InvalidLoginText
  {
    if Contains(msg, "Invalid login") then InvalidLoginText
    else if Contains(msg, "Email signups are disabled") then SignupsDisabledText
    else if Contains(msg, "security purposes") then RateLimitText
    else msg
  }

  lemma InvalidLoginLacksSignupsDisabled()
    ensures !Contains(InvalidLoginText, "Email signups are disabled")
  {
    assert "Email signups are disabled"[0] == 'E';
    assert 'E' !in InvalidLoginText;
    NotContainedByMissingChar(InvalidLoginText, "Email signups are disabled", 'E');
  }

  lemma InvalidLoginLacksSecurity()
    ensures !Contains(InvalidLoginText, "security purposes")
  {
    assert "security purposes"[7] == 'y';
    assert 'y' !in InvalidLoginText;
    NotContainedByMissingChar(InvalidLoginText, "security purposes", 'y');
  }

  lemma SignupsDisabledLacksSecurity()
    ensures !Contains(SignupsDisabledText, "security purposes")
  {
    assert "security purposes"[7] == 'y';
    assert 'y' !in "O cadastro por email " && 'y' !in "está desativado " && 'y' !in "no Supabase. "
           && 'y' !in "Habilite em Auth " && 'y' !in "-> Providers.";
    NotContainedByMissingChar(SignupsDisabledText, "security purposes", 'y');
  }

  /**
   * A replacement text contains no phrase a later rule looks for, so the successive
   * rewrites equal the first-match reading: a message holding several phrases
   * gets the text of the earliest rule, not the last.
   */
  lemma MapErrorIsFirstMatch(msg: string)
    ensures MapError(msg) == FirstMatchError(msg)
  {
    InvalidLoginLacksSignupsDisabled();
    InvalidLoginLacksSecurity();
    SignupsDisabledLacksSecurity();
  }

  /**
   * The unknown-nickname message holds no 'I', 'E' or 'y', so it contains no
   * phrase that has one of them at some position `j`.
   */
  lemma NotFoundLacks(part: string, j: nat)
    requires j < |part| && part[j] in {'I', 'E', 'y'}
    ensures !Contains(NotFoundText, part)
  {
    var c := part[j];
    if c == 'I' {
      assert 'I' !in "Usuário não " && 'I' !in "encontrado. " && 'I' !in "Tente usar " && 'I' !in "seu email.";
    } else if c == 'E' {
      assert 'E' !in "Usuário não " && 'E' !in "encontrado. " && 'E' !in "Tente usar " && 'E' !in "seu email.";
    } else {
      assert 'y' !in "Usuário não " && 'y' !in "encontrado. " && 'y' !in "Tente usar " && 'y' !in "seu email.";
    }
    NotContainedByMissingChar(NotFoundText, part, c);
  }

  /** The unknown-nickname message contains none of the rules' phrases, so it is shown as it is. */
  lemma NotFoundShownVerbatim()
    ensures MapError(NotFoundText) == NotFoundText
  {
    NotFoundLacks("Invalid login", 0);
    NotFoundLacks("Email signups are disabled", 0);
    NotFoundLacks("security purposes", 7);
  }

  /**
   * The address to sign in with: the trimmed identifier when it holds '@',
   * otherwise the address the nickname lookup returned (an empty answer counts
   * as none); `None` when the lookup found nothing.
   */
  function RouteIdentifier(identifier: string, resolvedEmail: Option<string>): (r: Option<string>)
    ensures Contains(Trim(identifier), "@") ==> r == Some(Trim(identifier))
    ensures !Contains(Trim(identifier), "@") ==>
              (r.Some? <==> resolvedEmail.Some? && resolvedEmail.value != "")
              && (r.Some? ==> r == resolvedEmail)
  {
    var email := Trim(identifier);
    if Contains(email, "@") then Some(email)
    else if resolvedEmail.Some? && resolvedEmail.value != "" then resolvedEmail
    else None
  }

  /** The backend call a submission makes. */
  datatype AuthCall =
    | ResetCall(email: string)
    | SignUpCall(email: string, password: string)
    | SignInCall(email: string, password: string)
    | LookupFailed(nickname: string)   // the nickname resolved to nothing: no sign-in is attempted

  /** What a submission leaves behind: the call made, the error shown, whether the app is entered, and the next mode. */
  datatype AuthResult = AuthResult(call: AuthCall, error: Option<string>, loggedIn: bool, next: Mode)

  /**
   * `handleAuth`, given the backend's answers: `backendError` is the error of
   * the reset, sign-up or sign-in call; `signUpUser` and `signUpSession` say
   * what the sign-up returned; `resolvedEmail` is the nickname lookup's answer.
   */
  function Attempt(mode: Mode, identifier: string, signupEmail: string, signupPassword: string, loginPassword: string,
                   backendError: Option<string>, signUpUser: bool, signUpSession: bool,
                   resolvedEmail: Option<string>): (r: AuthResult)
    ensures r.loggedIn ==> r.error.None?
    ensures r.call.ResetCall? <==> mode == Reset
    ensures mode == Reset ==> r.call.email == identifier
    ensures mode == SignIn && RouteIdentifier(identifier, resolvedEmail).None? ==>
              r.call == LookupFailed(Trim(identifier)) && r.error == Some(NotFoundText) && !r.loggedIn
    ensures r.call.SignInCall? ==> Some(r.call.email) == RouteIdentifier(identifier, resolvedEmail)
    ensures r.loggedIn <==> && backendError.None?
                            && ((mode == SignUp && !(signUpUser && !signUpSession))
                                || (mode == SignIn && RouteIdentifier(identifier, resolvedEmail).Some?))
    ensures r.next == Reset <==> mode == Reset && backendError.Some?
  {
    match mode
    case Reset =>
      if backendError.Some? then AuthResult(ResetCall(identifier), Some(MapError(backendError.value)), false, Reset)
      else AuthResult(ResetCall(identifier), None, false, SignIn)
    case SignUp =>
      var call := SignUpCall(signupEmail, signupPassword);
      if backendError.Some? then AuthResult(call, Some(MapError(backendError.value)), false, SignUp)
      else if signUpUser && !signUpSession then AuthResult(call, None, false, SignIn)
      else AuthResult(call, None, true, SignUp)
    case SignIn =>
      var route := RouteIdentifier(identifier, resolvedEmail);
      if route.None? then
        NotFoundShownVerbatim();
        AuthResult(LookupFailed(Trim(identifier)), Some(MapError(NotFoundText)), false, SignIn)
      else
        var call := SignInCall(route.value, loginPassword);
        if backendError.Some? then AuthResult(call, Some(MapError(backendError.value)), false, SignIn)
        else AuthResult(call, None, true, SignIn)
  }

  /**
   * The mode after a submission: a sign-up answered with a user but no
   * session goes back to sign-in, a failed reset stays in reset mode, a
   * successful one returns to sign-in, and the sign-in form stays as it is.
   */
  lemma AttemptNextMode(mode: Mode, identifier: string, signupEmail: string, signupPassword: string, loginPassword: string,
                        backendError: Option<string>, signUpUser: bool, signUpSession: bool, resolvedEmail: Option<string>)
    ensures var r := Attempt(mode, identifier, signupEmail, signupPassword, loginPassword,
                             backendError, signUpUser, signUpSession, resolvedEmail);
            && (mode == Reset ==> (r.next == SignIn <==> backendError.None?))
            && (mode == SignUp ==> (r.next == SignIn <==> backendError.None? && signUpUser && !signUpSession))
            && (mode == SignIn ==> r.next == SignIn)
            && (mode != SignUp ==> r.next != SignUp)
  {
  }

  /**
   * The error shown: a backend error passes through the rewrites, the failed
   * nickname lookup shows its own message, and nothing is shown otherwise.
   */
  lemma AttemptShowsMappedError(mode: Mode, identifier: string, signupEmail: string, signupPassword: string, loginPassword: string,
                                backendError: Option<string>, signUpUser: bool, signUpSession: bool, resolvedEmail: Option<string>)
    ensures var r := Attempt(mode, identifier, signupEmail, signupPassword, loginPassword,
                             backendError, signUpUser, signUpSession, resolvedEmail);
            && (backendError.Some? && !r.call.LookupFailed? ==> r.error == Some(MapError(backendError.value)))
            && (r.error.None? <==> backendError.None? && !r.call.LookupFailed?)
            && (r.error.Some? ==> r.error.value == NotFoundText || r.error.value == MapError(backendError.value))
  {
    NotFoundShownVerbatim();
  }

  /** A nickname is looked up only when the trimmed identifier has no '@'; an address is used as typed, trimmed. */
  lemma AddressSkipsLookup(identifier: string, password: string, resolvedEmail: Option<string>)
    requires Contains(Trim(identifier), "@")
    ensures Attempt(SignIn, identifier, "", "", password, None, false, false, resolvedEmail).call
            == SignInCall(Trim(identifier), password)
  {
  }

  class AuthScreen {
    var isSignUp: bool
    var isResetMode: bool
    var identifier: string
    var signupEmail: string
    var signupPassword: string
    var loginPassword: string
    var loading: bool
    var error: Option<string>
    var loggedIn: bool

    /** Reset mode is entered only from the sign-in form, so sign-up is off there. */
    ghost predicate Valid()
      reads this
    {
      isResetMode ==> !isSignUp
    }

    constructor ()
      ensures Valid() && Mode() == SignIn && !loading && error.None? && !loggedIn
      ensures identifier == "" && signupEmail == "" && signupPassword == "" && loginPassword == ""
    {
      isSignUp := false;
      isResetMode := false;
      identifier := "";
      signupEmail := "";
      signupPassword := "";
      loginPassword := "";
      loading := false;
      error := None;
      loggedIn := false;
    }

    function Mode(): Mode
      reads this
    {
      ModeOf(isSignUp, isResetMode)
    }

    /** "Esqueci", shown only on the sign-in form, opens reset mode. */
    method ClickForgot()
      requires Valid()
      modifies this`isResetMode
      ensures Valid()
      ensures old(Mode()) == SignIn ==> Mode() == Reset
      ensures old(Mode()) != SignIn ==> isResetMode == old(isResetMode)
    {
      if Mode() == SignIn {
        isResetMode := true;
      }
    }

    /** "Voltar", shown only in reset mode, returns to the sign-in form. */
    method ClickBack()
      requires Valid()
      modifies this`isResetMode
      ensures Valid()
      ensures old(Mode()) == Reset ==> Mode() == SignIn
      ensures old(Mode()) != Reset ==> isResetMode == old(isResetMode)
    {
      if isResetMode {
        isResetMode := false;
      }
    }

    /** The switch between signing in and creating an account, hidden in reset mode. */
    method ClickSwitch()
      requires Valid()
      modifies this`isSignUp
      ensures Valid()
      ensures old(Mode()) == SignIn ==> Mode() == SignUp
      ensures old(Mode()) == SignUp ==> Mode() == SignIn
      ensures old(Mode()) == Reset ==> isSignUp == old(isSignUp)
    {
      if !isResetMode {
        isSignUp := !isSignUp;
      }
    }

    /** `handleAuth`: makes the call `Attempt` names and takes on the state it describes. */
    method HandleAuth(backendError: Option<string>, signUpUser: bool, signUpSession: bool, resolvedEmail: Option<string>)
      returns (call: AuthCall)
      requires Valid()
      modifies this`isSignUp, this`isResetMode, this`loading, this`error, this`loggedIn
      ensures Valid()
      ensures var r := Attempt(old(Mode()), identifier, signupEmail, signupPassword, loginPassword,
                               backendError, signUpUser, signUpSession, resolvedEmail);
              && call == r.call && error == r.error && Mode() == r.next
              && loggedIn == (old(loggedIn) || r.loggedIn)
      ensures !loading
    {
      var m := Mode();
      var r := Attempt(m, identifier, signupEmail, signupPassword, loginPassword,
                       backendError, signUpUser, signUpSession, resolvedEmail);
      loading := true;
      error := None;
      call := r.call;
      error := r.error;
      if r.loggedIn {
        loggedIn := true;
      }
      isResetMode := r.next == Reset;
      isSignUp := r.next == SignUp;
      loading := false;
    }
  }
}
