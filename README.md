# Estrada Leve — a Dafny model of the gamification core

Estrada Leve is a weight-loss companion app for truck drivers: a React client
over a Supabase backend. This project models, in Dafny, the rules that decide
what a user earns and sees:

- the scoring rules of the client API (`src/lib/api.ts`): points per action,
  the daily-goal progress and completion bonus, medal selection and the
  earned-medal merge, like counters, the feed mapping and the upload guards;
- the level tiers and progress bar of `LevelProgress`;
- the rules the views compute themselves: the Ranking leaderboard, podium and
  optimistic like updates; the Dashboard goal increments and bar clamp; the
  Onboarding wizard; the Profile password checks, medal counter and form
  defaults; the Login mode precedence, identifier routing and error mapping;
  the Schedule time label, toggle and timeline defaults; the Diet tab filter,
  consumed toggle, meal-logging payload and shopping-list guard.

The backend is modelled as one object, `Backend.Store`. Each table is a field.
Each API operation is a method on it, and its `ensures` give the whole new
state. A missing row is a key absent from its map. The signed-in user is an
`Option<UserId>` parameter (`None` means signed out). Ids the backend would
assign are parameters that no table holds yet. The views are modelled two ways:
- pure functions of their inputs where they only compute;
- small classes (`Onboarding.Wizard`, `Profile.PasswordForm`,
  `Login.AuthScreen`, `Ranking.RankingView`) where they update component state.

JavaScript semantics the code relies on are written out:
- `x || 0` and `x || 'text'` treat null, 0 and `""` as missing (`Common.OrZero`,
  `Backend.DisplayName`, `Schedule.TextOr`);
- `trim()` and `\s` use the ECMAScript white-space set (`Text.IsWhitespace`);
- `Array.prototype.sort` is stable (`Ranking.SortIsStable`);
- number division by zero gives an infinity or NaN, and `Math.min`/`Math.max`
  pass NaN through (`Dashboard.Num`);
- `string.length` counts UTF-16 code units (`Text.Utf16Length`).

Behaviour of the code worth knowing, which the model keeps as written:
- The goal-completion bonus is +30 (`src/lib/api.ts:505`).
- `updateWeight` does not clamp the weight loss at zero. It appends the history
  row even when the user has no stats row, and pays its +20 only when the row
  exists.
- `addSocialPost` and `updateDailyGoal` run no medal check.
- `logMeal` awards no points, although the Diet screen's toast says
  "+20 pontos" (`src/views/Diet.tsx:84`). `Backend.Store.LogMeal` states that
  the stats are unchanged.
- The 200 points of a workout video are stored on the recording row only.
  They never reach the user's total.
- The Profile screen reads `data.age` and `data.gender`
  (`src/views/Profile.tsx:48-49`), but `getUserStats` maps neither
  (`src/lib/api.ts:22-37`). So a loaded form always shows age "40" and gender
  "male" (`Profile.LoadProfile`).
- The resource-file name filter has no `u` flag (`src/lib/api.ts:541`). It
  replaces each UTF-16 code unit, so a character beyond U+FFFF becomes two
  underscores (`Uploads.WideCharBecomesTwoUnderscores`).

## Model

| member | source | states |
|---|---|---|
| Gamification.ActivityDeltaSymmetric | src/lib/api.ts:142-145 | completing earns (+50), un-completing takes back the same amount (-50), and the two net zero |
| Gamification.Advance | src/lib/api.ts:485-486 | new progress is `min(target, current + (inc \|\| 0))`: never above the target, and `completed` holds exactly when the target is reached; every other goal field is kept |
| Gamification.CompletedGoalIsStable | src/lib/api.ts:485-506 | with a non-negative increment a completed goal stays exactly as it is and earns no bonus |
| Gamification.BonusAtMostOnce | src/lib/api.ts:499-506 | over any series of non-negative increments the +30 bonus is paid at most once, never for a goal that started completed (which stays as it is), and paid exactly when the series completes a goal that was not completed |
| Gamification.DefaultGoals | src/lib/api.ts:460-464 | three goals (hydration 3 L, movement 15 min, sleep 8 h) start at 0, not completed, with a positive target |
| Gamification.DailyGoals | src/lib/api.ts:443-476 | no goals when signed out; today's stored goals when there are any; otherwise the three defaults, or none when their insert fails |
| Gamification.DailyGoalsConsistent | src/lib/api.ts:455-475 | every goal served satisfies `completed <==> current >= target`, given the stored ones do |
| Gamification.EligibleMedals | src/lib/api.ts:748-758 | a medal is chosen iff it is in the catalog, not yet earned, and meets `>=` its threshold on points, weight lost, day or workout count (null read as 0); unknown requirement types are never chosen |
| Gamification.SelectionIdempotent | src/lib/api.ts:748-762 | once the chosen ids are added to the earned set, the same stats choose nothing |
| Gamification.SelectionMonotone | src/lib/api.ts:750-758 | higher points, weight loss, day or workout count never choose fewer medals |
| Gamification.LikedCount | src/lib/api.ts:351 | the count after a like is one more than `count \|\| 0`, so at least 1 for a non-negative count |
| Gamification.UnlikedCount | src/lib/api.ts:340 | the count after an unlike is `max(0, (count \|\| 0) - 1)`: one less, never negative (see also `src/lib/api.ts:702`) |
| Gamification.UnlikeUndoesLike | src/lib/api.ts:340 | an unlike right after a like restores any non-negative count (see also `src/lib/api.ts:351`) |
| Gamification.EarnedAt | src/lib/api.ts:725 | a medal has a date iff it has an earned row, and the date is one of its rows' dates |
| Gamification.EarnedAtLastWins | src/lib/api.ts:725 | a later row for the same medal overrides an earlier one, as `Object.fromEntries` does |
| Gamification.MergeMedals | src/lib/api.ts:724-731 | every catalog medal appears once, in catalog order, flagged earned iff an earned row has its id, and dated with the date the last such row gives |
| Gamification.MergeDatedIffEarned | src/lib/api.ts:724-731 | in the merged list a medal carries a date exactly when it is flagged earned |
| Gamification.MergeShowsNewestDate | src/lib/api.ts:725-730 | a medal earned again shows, in the merged list, the date of its newest row |
| Gamification.UserMedals | src/lib/api.ts:712-731 | nothing is returned without a signed-in user; otherwise one entry per catalog medal |
| Gamification.SocialPosts | src/lib/api.ts:296-315 | one view per row in order, liked iff the signed-in user is among the post's likers, with null counts read as 0 |
| Gamification.SignedOutLikesNothing | src/lib/api.ts:311 | signed out, no post shows as liked |
| Backend.WithPoints | src/lib/api.ts:143-145 | a point update rewrites only the user's row, to `(points \|\| 0) + delta`, and does nothing when that row is missing |
| Backend.WithPointsMovesOneTotal | src/lib/api.ts:143-145 | the user's total moves by exactly `delta` when the row exists, and no other user's total moves |
| Backend.WithPointsAdds | src/lib/api.ts:143-145 | two point updates add up, in either order |
| Backend.DisplayName | src/lib/api.ts:424 | a post's name is the nickname when it is non-empty, "Parceiro" otherwise |
| Backend.RecordWeight | src/lib/api.ts:262-269 | the row gets the new weight and the loss `start_weight - weight` (null start read as 0); the waist is replaced only when given; points, start weight, day and nickname are kept |
| Backend.WeightGainIsNegativeLoss | src/lib/api.ts:263 | a weigh-in above the start weight records a negative loss: nothing clamps it |
| Backend.ToggledCount | src/lib/api.ts:340 | a like raises the count by one and an unlike lowers it with a floor at 0; a non-negative count stays non-negative (see also `src/lib/api.ts:351`, `src/lib/api.ts:702`, `src/lib/api.ts:707`) |
| Backend.Store.AwardLeavesNothingDue | src/lib/api.ts:748-762 | after a medal check, a second check on the same stats awards nothing |
| Backend.Store.AwardNeverRevokes | src/lib/api.ts:760-762 | a medal check only adds earned rows; no user loses a medal |
| Backend.Store.CheckAndAwardMedals | src/lib/api.ts:734-769 | without a user or a stats row nothing changes; otherwise exactly the eligible medals are recorded. The source returns nothing and shows one toast per award; the returned list stands for those toasts (that none is due afterwards is `Backend.Store.AwardLeavesNothingDue`) |
| Backend.Store.ToggleActivity | src/lib/api.ts:135-149 | the activity's flag is set; the signed-in user's total moves by +50 or -50 when their row exists (no floor at 0); then a medal check runs |
| Backend.Store.ToggleMealConsumed | src/lib/api.ts:208-221 | the meal's flag is set; only consuming adds 20 points; un-consuming leaves the points; then a medal check runs |
| Backend.Store.UpdateWeight | src/lib/api.ts:257-294 | signed out is an error and changes nothing; otherwise the row records weight and loss, the history gains one entry, +20 is added only when the row exists, and a medal check runs |
| Backend.Store.AddSocialPost | src/lib/api.ts:416-441 | signed out is an error; otherwise the post is stored under the display name with the weight tag when the current weight is set and non-zero, +10 is added when the row exists, and like counts stay consistent |
| Backend.Store.UpdateDailyGoal | src/lib/api.ts:478-514 | a missing goal changes nothing; otherwise the goal advances and +30 is paid to the signed-in user only on the step that completes it |
| Backend.Store.ToggleLike | src/lib/api.ts:317-354 | signed out is an error; otherwise it returns true iff the user had not liked the post, flips the like, and moves the stored count to match (+1, or -1 with a floor at 0), so every count equals its number of likes |
| Backend.Store.ToggleWorkoutLike | src/lib/api.ts:688-710 | the same toggle and count rule on a workout recording |
| Backend.Store.LogMeal | src/lib/api.ts:178-206 | signed out is an error; otherwise the meal is stored as the user's own non-suggestion and echoed in the feed under the display name; points never change |
| Backend.Store.UploadWorkoutVideo | src/lib/api.ts:562-621 | a signed-out caller, then a video over 50 MiB, is rejected before anything is stored; otherwise the recording (200 points on the row) and its feed post are stored, a medal check runs, and the user's total is untouched |
| Uploads.UnitReplacement | src/lib/api.ts:541 | a safe character is kept; any other becomes one `_` per UTF-16 code unit, so two for a character beyond U+FFFF |
| Uploads.ReplaceUnsafe | src/lib/api.ts:541 | the filtered name has one character per UTF-16 code unit of the input, all of them in `[A-Za-z0-9._-]` |
| Uploads.ReplaceUnsafeAppend | src/lib/api.ts:541 | the filter distributes over concatenation, so it works character by character |
| Uploads.ReplaceUnsafeKeepsIffSafe | src/lib/api.ts:541 | the filter leaves a name unchanged iff every character is safe |
| Uploads.WideCharBecomesTwoUnderscores | src/lib/api.ts:541 | "😀.pdf" becomes "__.pdf": the pattern has no `u` flag, so the emoji's two code units are replaced one by one |
| Uploads.CollapseWhitespace | src/lib/api.ts:542 | the result is no longer than the input and holds no white space |
| Uploads.CollapseRun | src/lib/api.ts:542 | a white-space run before a visible character becomes a single `_` |
| Uploads.CollapseAppend | src/lib/api.ts:542 | collapsing splits after any prefix that does not end in white space |
| Uploads.CollapseSplitsAtRun | src/lib/api.ts:542 | each maximal white-space run between two parts becomes exactly one `_`, the parts being collapsed on their own |
| Uploads.CollapseKeepsPlainNames | src/lib/api.ts:542 | a name without white space passes unchanged |
| Uploads.CollapseIdempotent | src/lib/api.ts:542 | collapsing twice equals collapsing once |
| Uploads.SafeResourceName | src/lib/api.ts:538-542 | the sanitised name has the input's UTF-16 length and only `[A-Za-z0-9._-]` characters, and a name of safe characters is kept as it is |
| Uploads.WhitespacePassIsRedundant | src/lib/api.ts:541-542 | the white-space pass never changes what the character filter produced |
| Uploads.ResourceFileName | src/lib/api.ts:544 | the stored name is the timestamp's digits, `_`, then the sanitised name, so its length is theirs plus one |
| Uploads.ResourceFileNameSplits | src/lib/api.ts:544 | the stored name splits at its first `_` into the timestamp's digits and the sanitised name |
| Uploads.UploadResourceFile | src/lib/api.ts:532-560 | signed out is an error; otherwise the result is the stored name `${timestamp}_${safeName}`, with only safe characters after the timestamp |
| Uploads.CheckVideo | src/lib/api.ts:567-571 | accepted iff a user is signed in and the size is at most 50·1024·1024 bytes; authentication is checked first |
| Uploads.VideoPath | src/lib/api.ts:571 | the path starts with the user's id and a `/` |
| Uploads.VideoPathShape | src/lib/api.ts:571 | the path is `userId/` followed by a file part that splits at its first `_` into the timestamp's digits and the name with each white-space run collapsed, and that holds no white space |
| LevelProgress.GetLevel | src/components/LevelProgress.tsx:4-11 | the tier is one of the six; for levels above 1 its minimum is reached; below level 6 the points are under its maximum |
| LevelProgress.LevelCountsThresholds | src/components/LevelProgress.tsx:5-10 | the level is one more than the number of thresholds 500, 1500, 3000, 5000, 8000 reached |
| LevelProgress.CountReachedMonotone | src/components/LevelProgress.tsx:5-10 | more points never reach fewer thresholds |
| LevelProgress.LevelMonotone | src/components/LevelProgress.tsx:5-10 | the level never drops as points grow |
| LevelProgress.LevelBoundaries | src/components/LevelProgress.tsx:5-10 | -1, 0 and 499 give level 1; 500 and 1499 give 2; 1500 and 2999 give 3; 3000 and 4999 give 4; 5000 and 7999 give 5; 8000 gives 6 |
| LevelProgress.TiersContiguous | src/components/LevelProgress.tsx:5-10 | each tier's maximum is the next tier's minimum |
| LevelProgress.TierOfPoints | src/components/LevelProgress.tsx:4-11 | a tier is returned exactly for the points in its [min, max) range, extended below 0 for level 1 and upwards for level 6 |
| LevelProgress.Progress | src/components/LevelProgress.tsx:16 | the progress percentage is within [0, 100] |
| LevelProgress.ProgressUnclamped | src/components/LevelProgress.tsx:16 | for 0 or more points below level 6 the clamp never binds, the bar is under 100, and it is 0 exactly at the tier's minimum |
| LevelProgress.NegativePointsShowEmptyBar | src/components/LevelProgress.tsx:10 | negative points are level 1 with an empty bar (see also `src/components/LevelProgress.tsx:16`) |
| LevelProgress.MaxBannerIffTopLevel | src/components/LevelProgress.tsx:46 | the maximum-level banner shows exactly at level 6 |
| Ranking.InsertDesc | src/views/Ranking.tsx:31 | inserting one user lengthens the list by one |
| Ranking.InsertPermutes | src/views/Ranking.tsx:31 | inserting keeps every user and adds the new one |
| Ranking.InsertAtMost | src/views/Ranking.tsx:31 | inserting a user under a common bound on points keeps the bound |
| Ranking.SortedTail | src/views/Ranking.tsx:31 | dropping the first user of a descending list leaves it descending |
| Ranking.ConsSorted | src/views/Ranking.tsx:31 | a user with at least every other user's points may lead a descending list |
| Ranking.InsertSorted | src/views/Ranking.tsx:31 | inserting into a list sorted by descending points keeps it sorted |
| Ranking.SortDesc | src/views/Ranking.tsx:31 | the sorted copy has as many users as the input |
| Ranking.SortPermutes | src/views/Ranking.tsx:31 | the sorted copy is a permutation of the users |
| Ranking.SortSorted | src/views/Ranking.tsx:31 | the sorted copy is ordered by `points \|\| 0` descending |
| Ranking.WithKeyAppend | src/views/Ranking.tsx:31 | the users with a given score in a concatenation are those of each part, in order |
| Ranking.WithKeyAbsent | src/views/Ranking.tsx:31 | a list whose scores are all below `k` holds no user with score `k` |
| Ranking.WithKeyCons | src/views/Ranking.tsx:31 | the users with score `k` in a list are its first user, when it has that score, followed by those of the rest |
| Ranking.InsertFrontTies | src/views/Ranking.tsx:31 | a user placed before a descending list of lower scores comes after every earlier user with its score |
| Ranking.InsertKeepsTies | src/views/Ranking.tsx:31 | insertion puts the new user after every user with an equal score |
| Ranking.SortIsStable | src/views/Ranking.tsx:31 | users with equal points keep their input order |
| Ranking.Leaderboard | src/views/Ranking.tsx:31-37 | `min(10, users)` rows, descending by points, row k taken from the k-th user of the sorted copy |
| Ranking.LeaderboardRowsFromUsers | src/views/Ranking.tsx:32-37 | every row is the row of some listed user |
| Ranking.LeaderboardIsTop | src/views/Ranking.tsx:31-32 | a user not on the board has no more points than any row on it |
| Ranking.Podium | src/views/Ranking.tsx:358-420 | nothing while loading or empty; first place whenever there is a row, second only with 2 rows, third only with 3, each place showing its row |
| Ranking.Tail | src/views/Ranking.tsx:426-429 | row i of `slice(3)` is ranked i + 4 |
| Ranking.EveryRowRanked | src/views/Ranking.tsx:358-429 | once loaded, every leaderboard row is shown with its position as its rank |
| Ranking.ApplyLike | src/views/Ranking.tsx:82-86 | only items with the matching id change: they take the answer as their liked flag and move by +1 or -1, with no floor (see also `src/views/Ranking.tsx:114-118`) |
| Ranking.OptimisticMatchesServer | src/views/Ranking.tsx:114-118 | the optimistic count equals the count the server writes iff the toggle is a like or starts from at least 1: an unlike at 0 goes below the server's floor (see also `src/lib/api.ts:340`) |
| Ranking.RankingView.constructor | src/views/Ranking.tsx:7-11 | the screen starts empty and loading |
| Ranking.RankingView.LoadData | src/views/Ranking.tsx:21-48 | a failed load contributes an empty list without stopping the others; the leaderboard is derived from a sorted copy and the user list keeps its order |
| Ranking.RankingView.HandleLike | src/views/Ranking.tsx:110-122 | a successful toggle applies the optimistic update to the post feed; a failed one changes nothing |
| Ranking.RankingView.HandleWorkoutLike | src/views/Ranking.tsx:79-90 | the same on the workout feed |
| Dashboard.BarWidth | src/views/Dashboard.tsx:201 | the width is within [0, 100] for every number but NaN, and an in-range progress is kept |
| Dashboard.GoalBarIsExact | src/views/Dashboard.tsx:158 | for a consistent goal with a positive target the bar is the exact percentage, and full exactly when the goal is completed (see also `src/views/Dashboard.tsx:201`) |
| Dashboard.ZeroTargetBar | src/views/Dashboard.tsx:158 | with a zero target the bar is full for positive progress, empty for negative, and NaN for none (see also `src/views/Dashboard.tsx:201`) |
| Dashboard.GoalIncrement | src/views/Dashboard.tsx:31 | 0.5 for hydration, 5 for movement, 1 for any other type |
| Dashboard.ClickAdd | src/views/Dashboard.tsx:211-212 | a completed goal's button sends nothing; any other click sends a positive increment |
| Dashboard.ClicksPayBonusOnce | src/views/Dashboard.tsx:28-32 | however many clicks, the goal stays consistent and the +30 bonus is paid once exactly when the clicks complete it (see also `src/lib/api.ts:485-506`) |
| Dashboard.StatCardDashIffMissing | src/views/Dashboard.tsx:122-124 | a stat card shows "-" exactly when there are no stats |
| Onboarding.FinalAvatar | src/views/Onboarding.tsx:89-97 | the uploaded file's URL only when a file was chosen and its upload succeeded; the current avatar otherwise |
| Onboarding.FinishResult | src/views/Onboarding.tsx:83-138 | no user fails; the wizard completes iff a user is signed in and the profile call succeeds |
| Onboarding.UploadFailureKeepsAvatar | src/views/Onboarding.tsx:92-96 | a failed avatar upload does not abort onboarding; the previous avatar is submitted |
| Onboarding.Wizard.constructor | src/views/Onboarding.tsx:11-19 | the wizard starts at step 1 with empty fields and the default avatar |
| Onboarding.Wizard.LastStepsNeverFieldBlocked | src/views/Onboarding.tsx:315 | at steps 5 and 6 only loading disables Next |
| Onboarding.Wizard.Dots | src/views/Onboarding.tsx:149-150 | six dots, dot s lit iff s <= step |
| Onboarding.Wizard.ButtonLabel | src/views/Onboarding.tsx:319 | the label reads "Iniciar Jornada" exactly at step 6 when not loading |
| Onboarding.Wizard.ChoosePreset | src/views/Onboarding.tsx:300-305 | clicking one of the three preset avatars makes it the picture and clears the chosen file |
| Onboarding.Wizard.SelectFiles | src/views/Onboarding.tsx:45-52 | the first chosen file is kept and previewed; an empty choice changes nothing |
| Onboarding.Wizard.FinishOnboarding | src/views/Onboarding.tsx:83-138 | the outcome is `FinishResult` on the current avatar and file; the wizard closes only on success; loading ends false |
| Onboarding.Wizard.HandleNext | src/views/Onboarding.tsx:35-43 | below step 6 the step advances by one; at step 6 it finishes and the step stays, so the step stays in 1..6 |
| Onboarding.Wizard.Skip | src/views/Onboarding.tsx:153 | "Pular" closes the wizard |
| Onboarding.Wizard.ClickNext | src/views/Onboarding.tsx:314-316 | a disabled Next does nothing; below step 6 an enabled one advances one step; at step 6 it returns the finish outcome, closes the wizard only on completion and ends with loading false |
| Profile.CheckPassword | src/views/Profile.tsx:92-97 | mismatch iff the two entries differ; too short iff they match with fewer than 6 UTF-16 units; accepted otherwise |
| Profile.MismatchCheckedFirst | src/views/Profile.tsx:92-94 | a short mismatched pair gets the mismatch message |
| Profile.SixCharactersPass | src/views/Profile.tsx:95-97 | 6 characters pass and 5 do not |
| Profile.PasswordForm.constructor | src/views/Profile.tsx:16-17 | both password fields start empty |
| Profile.PasswordForm.ChangePassword | src/views/Profile.tsx:90-111 | a rejected pair changes nothing; a successful change empties both fields; a failed one keeps them; saving ends false |
| Profile.PasswordForm.EmptyPasswordIsBlocked | src/views/Profile.tsx:343 | an empty new password disables the button; a non-empty one enables it when not saving |
| Profile.PasswordForm.ClickSubmit | src/views/Profile.tsx:343 | a disabled button sends nothing and changes nothing; an enabled one ends not saving, reports a rejection keeping both fields, a change clearing both, or a failure with the backend message keeping both (see also `src/views/Profile.tsx:90-111`) |
| Profile.EarnedCount | src/views/Profile.tsx:194 | the number of medals flagged earned, never more than the number of medals |
| Profile.EarnedCountOfMerge | src/views/Profile.tsx:194 | on the merged list the counter is full iff every catalog medal was earned, and zero iff none was (see also `src/lib/api.ts:724-731`) |
| Profile.Counter | src/views/Profile.tsx:194 | the counter `earned/total` splits at its `/` into two numbers that read back as the earned count and the number of medals |
| Profile.LoadProfile | src/views/Profile.tsx:36-55 | without stats the form is kept and the medals are set; with stats whose weights are set the form takes the nickname (or "") with age "40" and gender "male", since the stats carry neither; a null current or goal weight throws before anything is set |
| Profile.LoadedFormShowsDefaults | src/views/Profile.tsx:41-51 | a form loaded from stats is either unchanged or shows age "40" and gender "male", and loading the same answers again changes nothing (see also `src/lib/api.ts:22-37`) |
| Login.Title | src/views/Login.tsx:115 | the heading is "Recuperar Acesso" exactly in reset mode, "Nova Conta" exactly in sign-up mode and "Acessar" exactly in sign-in mode |
| Login.ModeOf | src/views/Login.tsx:28 | reset mode takes precedence over sign-up, and sign-up over sign-in (see also `src/views/Login.tsx:36`, `src/views/Login.tsx:58`) |
| Login.SubmitLabel | src/views/Login.tsx:206 | the label is "Processando..." exactly while loading; when idle, "Enviar Link" exactly in reset mode, "Criar Conta" exactly in sign-up mode and "Entrar" exactly in sign-in mode |
| Login.ScreenShowsMode | src/views/Login.tsx:115 | the heading, and the idle button label, differ for any two modes (see also `src/views/Login.tsx:206`) |
| Login.MapError | src/views/Login.tsx:93-96 | the text shown is the message itself or one of the three replacement texts |
| Login.FirstMatchError | src/views/Login.tsx:93-96 | messages with none of the three phrases pass through unchanged; an "Invalid login" message becomes "Credenciais inválidas." |
| Login.InvalidLoginLacksSignupsDisabled | src/views/Login.tsx:94-95 | the invalid-login text does not contain the disabled-sign-up phrase |
| Login.InvalidLoginLacksSecurity | src/views/Login.tsx:94-96 | the invalid-login text does not contain the rate-limit phrase |
| Login.SignupsDisabledLacksSecurity | src/views/Login.tsx:95-96 | the disabled-sign-up text does not contain the rate-limit phrase |
| Login.MapErrorIsFirstMatch | src/views/Login.tsx:93-96 | the successive rewrites equal a first-match rule in the order invalid login, disabled sign-ups, rate limit |
| Login.NotFoundLacks | src/views/Login.tsx:79 | the unknown-nickname message contains no phrase holding an 'I', an 'E' or a 'y', which each phrase of the rewrites does (see also `src/views/Login.tsx:94-96`) |
| Login.NotFoundShownVerbatim | src/views/Login.tsx:79 | the unknown-nickname message is shown as it is (see also `src/views/Login.tsx:93-97`) |
| Login.RouteIdentifier | src/views/Login.tsx:60-80 | a trimmed identifier holding '@' is used directly; otherwise the nickname lookup's non-empty answer, or nothing |
| Login.Attempt | src/views/Login.tsx:22-101 | reset mode resets the untrimmed identifier; an unresolved nickname makes no sign-in call and shows the not-found message; the app is entered iff the call succeeds in sign-in mode, or in sign-up mode unless a user came back without a session; an error never enters the app |
| Login.AttemptNextMode | src/views/Login.tsx:22-101 | a sign-up answered with a user and no session switches to sign-in; a reset returns to sign-in iff it succeeds; sign-in stays in sign-in; only sign-up mode can stay in sign-up (see also `src/views/Login.tsx:48-52`) |
| Login.AttemptShowsMappedError | src/views/Login.tsx:93-97 | a backend error is shown after the rewrites; nothing is shown iff there is no backend error and the nickname lookup did not fail |
| Login.AddressSkipsLookup | src/views/Login.tsx:60-63 | an identifier with '@' signs in with its trimmed text, whatever the lookup would say |
| Login.AuthScreen.constructor | src/views/Login.tsx:10-20 | the screen starts in sign-in mode, not loading, with no error |
| Login.AuthScreen.ClickForgot | src/views/Login.tsx:172 | "Esqueci" moves from sign-in to reset mode |
| Login.AuthScreen.ClickBack | src/views/Login.tsx:212 | "Voltar" moves from reset mode to sign-in |
| Login.AuthScreen.ClickSwitch | src/views/Login.tsx:214 | the switch alternates sign-in and sign-up, and is absent in reset mode |
| Login.AuthScreen.HandleAuth | src/views/Login.tsx:22-101 | the screen makes the call `Attempt` names and takes on its error, mode and login; loading ends false |
| Schedule.TimeLabel | src/views/Schedule.tsx:41 | the label is at least 5 characters; for hours and minutes below 100 it is exactly 5 with ':' in the middle |
| Schedule.TwoDigits | src/views/Schedule.tsx:41 | a number below 100 padded to two digits gives two digits that read back as the number |
| Schedule.JoinedHalves | src/views/Schedule.tsx:41 | two two-character halves joined by ':' sit at positions 0-1 and 3-4 |
| Schedule.TimeLabelShape | src/views/Schedule.tsx:41 | for hours 0-23 and minutes 0-59 the label is 5 characters, two digits each side of ':', reading back as the hour and minute |
| Schedule.HandleToggle | src/views/Schedule.tsx:21-30 | the new state is the negation of the current one |
| Schedule.ToggleToastMatchesPoints | src/views/Schedule.tsx:26-30 | the "+50" toast shows exactly when the new state is completed, the case the API rewards |
| Schedule.TextOr | src/views/Schedule.tsx:101-103 | a missing or empty text reads as its fallback |
| Schedule.TimelineOf | src/views/Schedule.tsx:99-106 | the colour is blue iff the type is "cabin", orange otherwise; no entry is locked |
| Schedule.Click | src/views/Schedule.tsx:213 | a locked entry ignores clicks |
| Schedule.ScheduleClicksAlwaysToggle | src/views/Schedule.tsx:106 | every click on the schedule sends the negated state (see also `src/views/Schedule.tsx:213`) |
| Schedule.TimelineDefaults | src/views/Schedule.tsx:101-103 | a missing time, duration or icon shows "00:00", "0 min" or "exercise" |
| Diet.CategoryForTab | src/views/Diet.tsx:92 | Café→breakfast, Almoço→lunch, Lanches→snack, Jantar→dinner, and no category for any other tab |
| Diet.FilteredMeals | src/views/Diet.tsx:91-94 | a meal is kept iff its category is the tab's; an unknown tab shows nothing |
| Diet.FilterDistributes | src/views/Diet.tsx:91-94 | filtering distributes over concatenation, so the original order is kept |
| Diet.TabsPartitionMeals | src/views/Diet.tsx:91-94 | the four tabs together show every meal exactly once |
| Diet.HandleToggleConsumed | src/views/Diet.tsx:25-32 | the new state is the negation; the toast shows only when the meal becomes consumed |
| Diet.BadgeMatchesToggle | src/views/Diet.tsx:169 | the "+20 PTS" badge shows exactly on meals whose toggle consumes them and shows the toast (see also `src/views/Diet.tsx:25-32`) |
| Diet.LogMealPayload | src/views/Diet.tsx:74-80 | a logged meal is sent consumed, tagged "Log", prepared "Agora", with the form's name, description, calories and category |
| Diet.LoggedMealHasNoBadge | src/views/Diet.tsx:77 | a logged meal never shows the points badge (see also `src/views/Diet.tsx:169`) |
| Diet.ShoppingItemToAdd | src/views/Diet.tsx:48-53 | the trimmed input is sent, and nothing when it is blank |
| Diet.BlankItemsAreNotAdded | src/views/Diet.tsx:50 | input is dropped iff it is all white space |

## Left out

- Backend failures: an error from a query, insert, update or storage call, and the `.catch` wrappers around medal checks, are not modelled. Every modelled call succeeds except where the code itself branches on a result (missing rows, missing users, failed avatar uploads, sign-in errors and the password-change error).
- Concurrency: the read-modify-write races on points and like counts, the `Promise.all` fan-out and the 30-second auto-refresh of the ranking.
- `toFixed(1)` rounding of the stored weight loss (`src/lib/api.ts:267`) and all `toFixed` display formatting. Weights, targets and progress are exact `real`s.
- Backend.RecordWeight: states the unrounded loss `start_weight - weight`, because `toFixed` rounding is not modelled.
- The NFD normalisation and accent stripping before the resource-name filter (`src/lib/api.ts:539-540`). `Uploads.SafeResourceName` starts from the already-normalised name.
- Dates, `Date.now()` and "today" strings: timestamps are parameters, and the weight-history label and date are not stored.
- The storage calls and public URLs of uploads: paths are computed, but nothing is uploaded. The avatar upload's URL is a parameter of `Onboarding.Wizard.FinishOnboarding`.
- Rendering numbers to text other than integers (weights, heights and percentages) is not modelled. The profile form keeps only nickname, age and gender; its weight and height fields are left out, and `Profile.ProfileStats` keeps the two weights only to tell a set weight from a null one.
- A rejected `Promise.all` in the Profile screen's `loadData` (`src/views/Profile.tsx:37-40`): `Profile.LoadProfile` takes both answers as received.
- BMI and ideal weight in the onboarding wizard, and the fields of the `completeOnboarding` call other than the avatar.
- Toasts other than the ones whose choice is a rule (Schedule's "+50", Diet's points toast), console logging and `alert`.
- Comments, shopping-list toggling and deletion, notifications, the admin, goals-history, resources and winners views, and `addResource` (which awards nothing): they forward to the backend and hold no rules of their own.
- `src/views/Winners.tsx` is not part of this model: its scores come from a call that is not in `src/lib/api.ts`.
- Fresh ids: the ids the backend assigns to new rows are parameters that must not already be in use.
