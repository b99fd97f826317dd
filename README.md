# Quizard core, modelled in Dafny

Quizard is a Next.js front end over Supabase (auth, tables) and Gemini (text
generation). This project models the parts of it that make decisions or
compute values. The external calls become oracles: a datatype value says
what the session lookup, a table query, the model, `JSON.parse` or the Gemini
HTTP call answers. Every branch the code takes on those answers is modelled.

- `QuizGeneration` (`quiz_generation.dfy`) covers `generateQuiz`, the
  coin-gated quiz generation. Its checks run in order: prompt, API key,
  session, coin-balance read, balance of at least 10. Then come the model call
  and `JSON.parse`, then the write of `balance - 10`. A `CoinLedger` class holds
  the `coin_balance` column as a map from user id to balance. Its method
  `GenerateQuiz` runs the steps with early returns. The pure function
  `Generate` describes one run: the outcome, the external calls made in order,
  and the balances afterwards. `LedgerBalances` shows that over any sequence of
  runs, each coin that leaves a balance is one successful generation's charge.
- `ChatSaving` (`chat_saving.dfy`) covers `saveChat`. It defaults the title.
  A chat id selects the update path, which is restricted to the caller's own
  row; otherwise a new row is inserted. The chats table is a map in the
  `ChatTable` class.
- `Analytics` (`analytics.dfy`) covers the dashboard aggregation in
  `AnalyticsView.jsx`, with these parts:
  - the totals;
  - the rounded mean of per-quiz mean scores, computed over exact reals;
  - the copy of the input sorted by attempt count with JavaScript's stable
    sort, modelled as a stable insertion sort;
  - the per-quiz table rows.
- `ProfileEditing` (`profile_editing.dfy`) covers `handleUpdateProfile` of the
  edit-profile dialog. It takes the "nothing changed" shortcut first, then
  tests the username against `/^[a-zA-Z0-9_]+$/`, then sends the update. The
  `ProfileDialog` class holds the dialog's flags and the toasts shown.
  `handleUpdateProfile` is split at its `await` into `BeginUpdate` and
  `FinishUpdate`, so edits made while the update is pending can be modelled.
- `DocumentAssistant` (`document_assistant.dfy`) covers the document-assistant
  page. It keeps an append-only message log, an attached PDF, a mode, an input
  field and a processing flag. `handleAction` is split at its `await` into
  `BeginAction` and `CompleteAction`, so the processing flag can be seen while
  the call is pending.
- `QuizDeletion` (`quiz_deletion.dfy`) covers the quiz list's delete dialog
  and `deleteQuizById`. It holds the pending id and the dialog flags, and
  filters the list by id. `confirmDelete` is split at its `await` into
  `BeginDelete` and `FinishDelete`, so clicks made while the call is pending
  can be modelled.
- `JsSemantics` (`js_semantics.dfy`) covers the JavaScript behaviour the rest
  relies on:
  - the falsiness of an optional string (`null`, `undefined` or `""`). The
    code's other truthiness tests check whether an object is present:
    `!sessionUser`, `!profile`, `if (updateError)`, `!uploadedFile`,
    `if (file)` and `!analyticsData`. Those are modelled by `Option` values
    and by the constructors of the oracle datatypes;
  - `String.prototype.trim`, with the ECMAScript white-space and
    line-terminator set;
  - `Math.round` over every real, with a lemma that turns
    `Math.round(sum / n)` into integer arithmetic for any integer sum and
    positive count.

### What the code does not do

- `generateQuiz` never checks the shape of the model's reply. Whatever
  `JSON.parse` returns is the quiz.
- `generateQuiz` takes no conversation history and never classifies the
  reply as a chat answer or a quiz.
- The balance test is `coin_balance < 10`, so a balance of exactly 10 may
  generate.

## Model

| member | source | states |
|---|---|---|
| JsSemantics.WhitespaceOfAscii | src/app/temp/page.jsx:103 | within ASCII, white space is exactly the space and the controls TAB through CR |
| JsSemantics.Trim | src/app/temp/page.jsx:103 | the trimmed string is the slice of the input that lies between a blank prefix and a blank suffix; it is empty exactly when the input is all white space, and otherwise it neither starts nor ends with white space |
| JsSemantics.TrimStart | src/app/temp/page.jsx:103 | the result is a suffix of the input, everything removed is white space, and the result does not start with white space |
| JsSemantics.TrimEnd | src/app/temp/page.jsx:103 | the result is a prefix of the input, everything removed is white space, and the result does not end with white space |
| JsSemantics.RoundHalfUp | src/components/AnalyticsView.jsx:68 | `Math.round(x)` is the integer r with r <= x + 1/2 < r + 1 |
| JsSemantics.RoundOfRatio | src/components/AnalyticsView.jsx:83 | for a positive count n, `Math.round(sum / n)` equals the integer quotient (2*sum + n) / (2*n) |
| QuizGeneration.Generate | src/app/functions.js:4-230 | an empty prompt or missing key throws and makes no call; 401, 500 and 403 each occur exactly when their check is the first to fail; the model is asked exactly when every check passed; the balance write of old - 10 happens exactly when the reply parsed; every exception inside the `try` block (session lookup, balance read, model call, parse, balance write) yields only the generic error, and each refusal carries exactly its status and message; success means old - 10 >= 0 is stored and returned; a failed write yields status 500 with the "failed to deduct coins" error, carrying the quiz; in all other cases the balances are unchanged |
| QuizGeneration.CallsInOrder | src/app/functions.js:19-206 | the calls are made in the order session lookup, balance read, model call, balance write, each at most once with none skipped; the session is looked up exactly when the prompt and key checks pass, and the balance is read for the session's user |
| QuizGeneration.CoinLedger.GenerateQuiz | src/app/functions.js:4-230 | the step-by-step run yields exactly the outcome, the calls and the balances `Generate` describes; only a success changes the ledger, lowering the caller's balance by 10 and leaving it non-negative |
| QuizGeneration.LedgerBalances | src/app/functions.js:203-225 | after any sequence of generations no user gains or loses a ledger entry, each user's balance has dropped by exactly 10 per successful generation charged to them, and a non-negative balance stays non-negative |
| ChatSaving.ChatTitle | src/app/functions.js:267 | a stored title is never empty: a missing or empty title becomes "Untitled Chat" and any other title is kept |
| ChatSaving.Save | src/app/functions.js:259-303 | without a session nothing is written and the login error is returned; an error writes nothing; every failure once a session exists (a throwing lookup, a database error or exception, a row the caller does not own, a colliding id) carries the generic save error; with a chat id the save succeeds exactly when the caller owns that row and the query answers, and it rewrites only that row; without an id a row is inserted under the fresh id the database assigned; rows of other users are never changed or removed |
| ChatSaving.ChatTable.SaveChat | src/app/functions.js:259-303 | the result and the new table are the ones `Save` describes, and a saved chat is in the table with a non-empty title |
| ChatSaving.ResaveIsIdempotent | src/app/functions.js:274-284 | saving the same conversation again under its own id leaves the result and the table as one save does |
| Analytics.ScoreSum | src/components/AnalyticsView.jsx:64 | the sum of no scores is 0, and the sum of non-negative scores is non-negative |
| Analytics.MeanScore | src/components/AnalyticsView.jsx:64-65 | the mean times the number of attempts is the score sum, and a non-negative sum has a non-negative mean |
| Analytics.SumOfMeans | src/components/AnalyticsView.jsx:63-66 | the sum over no quizzes is 0, and quizzes with non-negative score sums give a non-negative total |
| Analytics.WithAttempts | src/components/AnalyticsView.jsx:62 | the quizzes kept are exactly the input's quizzes with at least one attempt, each as many times as it occurs in the input |
| Analytics.WithAttemptsConcat | src/components/AnalyticsView.jsx:62 | the filter keeps input order: it distributes over concatenation |
| Analytics.TotalAttempts | src/components/AnalyticsView.jsx:60 | the attempt total is at least the number of quizzes with attempts, and it is 0 exactly when no quiz has an attempt |
| Analytics.AverageScore | src/components/AnalyticsView.jsx:62-68 | with no attempted quiz the card shows 0; otherwise it shows the integer within one half of the mean of the per-quiz mean scores |
| Analytics.QuizAvgScore | src/components/AnalyticsView.jsx:83 | a quiz without attempts has average 0; one with n > 0 attempts has the rounded mean (2*sum + n) / (2*n) |
| Analytics.ToTopQuiz | src/components/AnalyticsView.jsx:78-83 | a table row carries the quiz's id and title, its question count as length, its attempt count, and an average that is 0 without attempts and (2*sum + n) / (2*n) over n > 0 attempts |
| Analytics.ToTopQuizzes | src/components/AnalyticsView.jsx:78-85 | one row per quiz, in the same order |
| Analytics.Insert | src/components/AnalyticsView.jsx:70 | inserting adds one element and leaves either it or the previous head at the front |
| Analytics.SortByAttempts | src/components/AnalyticsView.jsx:70 | the sorted copy is in non-increasing attempt order and is a permutation of the input |
| Analytics.SortIsStable | src/components/AnalyticsView.jsx:70 | for every attempt count, the quizzes with that count appear in the sorted copy in their input order |
| Analytics.Compute | src/components/AnalyticsView.jsx:55-87 | no data gives zero totals and no rows; otherwise the quiz total is the number of quizzes, there is one row per quiz, and the average card is 0 when no quiz has an attempt and otherwise within one half of the mean of the per-quiz means |
| Analytics.TopQuizzesOrdered | src/components/AnalyticsView.jsx:70-78 | the table rows are in non-increasing attempt order |
| Analytics.TopQuizzesPermutation | src/components/AnalyticsView.jsx:70-85 | the table rows are a permutation of the rows of the input in its own order |
| Analytics.TopQuizzesTiesInInputOrder | src/components/AnalyticsView.jsx:70-85 | for every attempt count k, the table's rows with k attempts are the rows of the input's quizzes with k attempts, in input order |
| Analytics.TotalAttemptsMatchesTable | src/components/AnalyticsView.jsx:60 | the attempt total equals the sum of the attempts column of the table |
| Analytics.AverageScoreWithin | src/components/AnalyticsView.jsx:62-68 | when every score lies in [lo, hi] and some quiz has an attempt, the average card `Compute` shows also lies in [lo, hi] |
| ProfileEditing.Unchanged | src/components/EditProfileDialog.jsx:35-38 | the names count as unchanged only against a present user with both names stored, and then exactly when both inputs equal them; a null stored name never equals an input, not even "" |
| ProfileEditing.MatchesUsernamePattern | src/components/EditProfileDialog.jsx:45-46 | a username matches the pattern exactly when it is non-empty and every character is an ASCII letter, a digit or an underscore |
| ProfileEditing.Decide | src/components/EditProfileDialog.jsx:31-80 | each outcome holds exactly under its condition: unchanged names stop before validation; otherwise an invalid username is refused; otherwise the update answer decides between saved, rejected and crashed, and a missing user crashes |
| ProfileEditing.ToastsOf | src/components/EditProfileDialog.jsx:47-76 | every decision but "nothing changed" shows exactly one toast, and that toast is a success toast exactly for a saved profile |
| ProfileEditing.UnchangedNeverValidated | src/components/EditProfileDialog.jsx:35-46 | unchanged names are never validated or sent, whatever the username holds |
| ProfileEditing.EitherChangeReachesUpdate | src/components/EditProfileDialog.jsx:35-38 | changing either field alone, with a valid username, reaches the update |
| ProfileEditing.ProfileDialog.constructor | src/components/EditProfileDialog.jsx:26-29 | the fields start as the stored names or "" when those are missing, not loading and closed |
| ProfileEditing.ProfileDialog.SetOpen | src/components/EditProfileDialog.jsx:83 | only the open flag changes |
| ProfileEditing.ProfileDialog.SetFullName | src/components/EditProfileDialog.jsx:107 | only the full-name field changes |
| ProfileEditing.ProfileDialog.SetUsername | src/components/EditProfileDialog.jsx:120 | only the username field changes |
| ProfileEditing.ProfileDialog.BeginUpdate | src/components/EditProfileDialog.jsx:31-62 | unchanged names close the dialog with no toast; an invalid username shows its toast and leaves the dialog as it was; a missing user crashes with its toast and closes the dialog; otherwise loading is set and the user's id and both names are captured for the update; the inputs and the user never change here |
| ProfileEditing.ProfileDialog.FinishUpdate | src/components/EditProfileDialog.jsx:64-79 | a throw shows the crash toast and closes the dialog; an error result shows the taken-name toast and leaves the dialog open; a success shows the success toast, closes the dialog and refetches a user carrying the captured names; loading ends and the inputs keep their current text |
| ProfileEditing.ProfileDialog.HandleUpdateProfile | src/components/EditProfileDialog.jsx:31-80 | the decision is `Decide` on the state before the call; loading ends false; the dialog stays open only after an invalid username or a rejected update; its toast is appended; a saved update refreshes the user with the new names |
| ProfileEditing.TypingDuringUpdate | src/components/EditProfileDialog.jsx:55-70 | when the username is edited again while the update is pending, the stored profile gets the name captured when the handler ran, and the input keeps the newer text |
| DocumentAssistant.ErrorBubble | src/app/temp/page.jsx:160-163 | an error bubble is a bot message flagged as an error, with a non-empty text that is the error's message when it has one |
| DocumentAssistant.CallGeminiApi | src/app/temp/page.jsx:65-79 | an answer comes exactly from a response whose first text is present and non-empty, and it is that text trimmed; any other response fails with the invalid-structure error, and a thrown error keeps its message |
| DocumentAssistant.RequestFor | src/app/temp/page.jsx:115-158 | chat and edit without a file send nothing; create always sends, choosing the style-transfer prompt exactly when a file is attached; an unknown mode sends nothing; a request carries the input and the file captured when the action began |
| DocumentAssistant.BotReply | src/app/temp/page.jsx:111-163 | the missing-file and invalid-mode errors, an API failure's message, and the chat answer's text are each the reply in their case; the reply is an error exactly when no request was sent or the call failed |
| DocumentAssistant.RequestForSends | src/app/temp/page.jsx:116-148 | chat and edit send a request exactly when a file is attached, chat with the question prompt and edit with the edit prompt |
| DocumentAssistant.CreateConfirms | src/app/temp/page.jsx:125-141 | an answered create request yields the fixed LaTeX confirmation, whatever the model wrote |
| DocumentAssistant.EditConfirms | src/app/temp/page.jsx:143-154 | an answered edit request with a file yields the fixed edit confirmation |
| DocumentAssistant.Placeholder | src/app/temp/page.jsx:177-184 | the default text appears exactly for a mode other than chat, create and edit |
| DocumentAssistant.PlaceholderDistinguishesStates | src/app/temp/page.jsx:177-184 | across the three modes, the text determines both the mode and whether a file is attached |
| DocumentAssistant.Assistant.constructor | src/app/temp/page.jsx:16-23 | the log starts as exactly the greeting, with chat mode, no file, empty input and nothing processing |
| DocumentAssistant.Assistant.SetMode | src/app/temp/page.jsx:223-225 | only the mode changes |
| DocumentAssistant.Assistant.SetUserInput | src/app/temp/page.jsx:244 | only the input field changes |
| DocumentAssistant.Assistant.HandleFileChange | src/app/temp/page.jsx:82-88 | a chosen file is attached and announced by one bot message; no file changes nothing |
| DocumentAssistant.AttachedNoticeQuotesName | src/app/temp/page.jsx:86 | the attach notice is the file name in double quotes after "Attached " and before a full stop |
| DocumentAssistant.Assistant.RemoveFile | src/app/temp/page.jsx:169-175 | the file is cleared and "File removed." is appended |
| DocumentAssistant.Assistant.BeginAction | src/app/temp/page.jsx:102-109 | blank input or a running action changes nothing; otherwise the user message is appended, the input cleared, processing set, and the input, mode and file are captured |
| DocumentAssistant.Assistant.CompleteAction | src/app/temp/page.jsx:111-166 | exactly one bot message, the `BotReply`, is appended and processing ends |
| DocumentAssistant.Assistant.HandleAction | src/app/temp/page.jsx:102-167 | either nothing changes, or the log grows by exactly the user message and one bot reply, the input is cleared and processing is false |
| QuizDeletion.DeleteQuizById | src/components/context/AuthProvider.jsx:177-192 | the call rejects exactly when a user is signed in and the query throws; it reports success exactly when the query has no error; no user and a database error both return undefined |
| QuizDeletion.WithoutId | src/components/QuizList.jsx:142-144 | the filtered list holds exactly the entries whose id differs, and is no longer than the list |
| QuizDeletion.WithoutIdConcat | src/components/QuizList.jsx:142-144 | the filter keeps order: it distributes over concatenation |
| QuizDeletion.WithoutIdLength | src/components/QuizList.jsx:142-144 | the filter removes exactly the entries with that id |
| QuizDeletion.WithoutAbsentId | src/components/QuizList.jsx:142-144 | a list without that id is left as it is |
| QuizDeletion.WithoutIdIdempotent | src/components/QuizList.jsx:142-144 | filtering twice by the same id is filtering once |
| QuizDeletion.QuizList.constructor | src/components/QuizList.jsx:105-109 | the list starts as fetched, with no pending id, the dialog closed and nothing deleting |
| QuizDeletion.QuizList.HandleDeleteClick | src/components/QuizList.jsx:131-134 | the id becomes pending and the dialog opens, with nothing else changed |
| QuizDeletion.QuizList.SetDialogOpen | src/components/QuizList.jsx:183 | only the dialog flag changes |
| QuizDeletion.QuizList.BeginDelete | src/components/QuizList.jsx:136-141 | without a pending id nothing changes; otherwise the deleting flag is set and the pending id is the one the call is made for |
| QuizDeletion.QuizList.FinishDelete | src/components/QuizList.jsx:142-153 | the list loses every entry with the captured id unless the call threw, the matching toast is shown, and the flags and the pending id are reset, whatever id is pending by then |
| QuizDeletion.QuizList.ConfirmDelete | src/components/QuizList.jsx:136-154 | without a pending id nothing happens; otherwise the delete is called, the list loses every entry with that id unless the call rejects, the matching toast is shown, and the flags and pending id are reset |
| QuizDeletion.DeleteInterleavedWithNewClick | src/components/QuizList.jsx:136-153 | when the dialog is dismissed and another quiz's delete is pressed while a delete is pending, the list loses the first quiz only, and the finally block clears the second quiz's pending id and closes its dialog |
| QuizDeletion.DatabaseErrorStillRemovesLocally | src/components/context/AuthProvider.jsx:187-191 | a database error does not reject, so the quiz still leaves the local list, which gets shorter |

## Left out

- The Supabase client, the Gemini SDK, `fetch` and `JSON.parse` are oracles;
  only what they answer is modelled. The model needs nothing else from them.
- The prompt texts are not modelled because their content only steers the
  language model. A request records which template kind was used.
- The read-then-write race on `coin_balance` is out of scope. Two concurrent
  generations can both read the same balance. The model runs one request at
  a time.
- JavaScript numbers are IEEE doubles. The averages are computed over exact
  reals and integers, so rounding artefacts of floating point are not
  modelled.
- `QuizGeneration.Generate`: a stored `coin_balance` of `null` is not
  modelled. The ledger holds integers, and a missing row is the
  missing-profile case.
- `ChatSaving.Save`: an insert whose assigned id is already taken counts as a
  database error. The database's own id generation is not modelled.
- `saveQuiz` and `fetchChatById` in `src/app/functions.js` are not part of
  this model. They are single pass-through queries with no decision of their
  own.
- `ProfileEditing.ProfileDialog.FinishUpdate`: `refetchUser` is not
  awaited in the code. The model applies the refreshed names at once.
- `ProfileEditing.ProfileDialog.HandleUpdateProfile`: a user whose profile is
  `null` throws before the `try` block. Profiles are always present in the
  model. The `updated_at` timestamp is a clock reading and is not modelled.
- `DocumentAssistant.Assistant.CompleteAction`,
  `ProfileEditing.ProfileDialog.FinishUpdate` and
  `QuizDeletion.QuizList.FinishDelete`: events that arrive while the call is
  pending run between the begin and the finish halves. `HandleAction`,
  `HandleUpdateProfile` and `ConfirmDelete` are the runs with no event in
  between. The captured input, mode and file, the captured names and the
  captured quiz id stand for the closures' values. React's batching of state
  updates is not modelled.
- The file-to-base64 conversion, the Blob download and the scroll effects are
  browser plumbing with no effect on the modelled state.
- `Analytics.Compute`: the trend column is a constant and is not modelled.
  The input is a value, so the spread copy's protection of the caller's
  array holds by construction.
- The session, profile and coin wrappers of `AuthProvider.jsx` are thin glue
  over Supabase and are not modelled, except `deleteQuizById`. The same goes
  for the pages and UI components other than the five modelled here.
- JavaScript truthiness is modelled per use. An optional string is falsy
  when it is `null`, `undefined` or `""`. An object test is the presence of
  a value (`Some`) or a constructor of an oracle datatype. No other coercion
  occurs in the modelled code.
