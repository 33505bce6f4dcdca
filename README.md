# interview-ace, modelled in Dafny

This project models the decision logic of the interview-practice web app and
its two small companion apps, and proves what that logic promises. The model
covers:

- **Answer evaluation** (`lib/openai.ts`). The chat model's reply is cleaned of
  code fences and read as JSON. When JSON fails, regular-expression scans take
  over. The score is then clamped to [0,100] and empty feedback is replaced by
  a default. The question and summary prompts are built from the numbered
  history, with fixed texts when the model returns nothing.
- **The interview API route** (`app/api/interview/answer/route.ts`). It checks
  `jobType`/`companyType`, then either generates a question or scores an
  answer. After scoring it appends the answer to the history and asks for the
  final summary once five answers are in. The reply echoes the client's
  history entries as sent, followed by the new one. POST returns the
  handlers' promises without awaiting them. So its `catch` (a 500 with an
  error text) covers only an unreadable body and an answer that
  `String(...)` cannot convert. A failure inside a handler rejects POST's
  promise, and the framework's own error response carries no `{error}`
  body. A `null` history entry or a throwing model call is such a failure.
- **The todo app** (`todo-app/app.js`): a list of items and a filter, updated
  in place by add, toggle, delete, clear-completed and filter clicks.
- **The dog-health notebook** (`dog-health-app/app.js`): the breed table and
  the ±20% weight alert; the vet (0–3 days) and vaccination (25–35 days)
  reminders; the add forms; splice-deletion; and the newest-first sorts,
  done on an array in place.
- **Stripe webhooks** (`app/api/stripe/webhook/route.ts`): a store of two
  tables, `subscriptions` and `users`, updated on checkout completion and on
  subscription changes.
- **The free-tier gate** (`middleware.ts`): a pass-or-redirect decision from the
  path, the login, the plan and the count of sessions this UTC month.
- **The cookie reader** (`lib/supabase/middleware.ts`): the `Cookie` header
  split on ";" and each segment at its first "=". This is the simple form of
  section 5.4 of RFC 6265.
- **The result page helpers** (`app/interview/result/page.tsx`): the labelled
  feedback extraction, the radar data, the share text and the no-result guard.

Everything outside these programs is a parameter of the model:

- The chat-completion endpoint is a function from requests to completions.
  A completion either throws or returns optional content. `Interview.Render`
  gives the messages each request sends.
- `JSON.parse`, `Number(string)` and `String(number)` form a `Runtime` record.
- Supabase lookups and the session count are functions passed to the gate.
- Stripe signature checking is a function that yields the verified event or
  fails.
- Fresh todo ids, `today`, the current UTC time and the stored texts are
  arguments.

Every operation that calls the model returns the requests it made, so "no
model call" is a statement about that list. Dates are whole day numbers and
weights are exact reals.

The code behaves as follows where a reader might expect otherwise:

- A summary or next-question call that throws makes the whole answer request
  fail. It is not absorbed by a fallback, and the route's `catch` does not
  see it either. The fixed fallback texts are used only when the model
  returns empty content.
- A get-question request whose model call throws also fails, and gets no
  fallback question.
- An empty answer string is accepted and scored.
- A missing `question` is not recovered from the history. Such a request falls
  through to question generation.
- A body that is not valid JSON gets a 500, not a 400.

## Model

| member | source | states |
|---|---|---|
| Text.Trim | todo-app/app.js:27 | `trim` removes exactly the leading and trailing white space: the result is the middle of the input, with only white space around it, and has no white space at either end |
| Text.TrimIdempotent | dog-health-app/app.js:70 | trimming an already trimmed breed name changes nothing |
| Text.Split | lib/supabase/middleware.ts:13 | `split` on one character gives at least one piece, and no piece contains the separator |
| Text.SplitCount | lib/supabase/middleware.ts:13 | a split gives one piece more than the string has separators |
| Text.JoinSplit | lib/supabase/middleware.ts:14-15 | joining the pieces of a split with the separator gives the original string back |
| Text.SplitJoin | lib/supabase/middleware.ts:14-15 | splitting a join of separator-free pieces gives the pieces back |
| Text.Take | lib/openai.ts:139 | `slice(0, n)` is the prefix of length min(n, length) |
| Text.DigitsRoundTrip | lib/openai.ts:138 | `parseInt` of a printed natural number gives the number back |
| Text.NatToStringInjective | app/interview/result/page.tsx:94 | different question numbers print differently |
| Text.FirstMatch | lib/openai.ts:135-136 | `match` without the `g` flag: no result exactly when the pattern matches at no position; otherwise the capture at the leftmost matching position |
| Text.FirstMatchAt | lib/openai.ts:135-136 | a pattern that matches at position i and nowhere before gives the capture at i |
| Js.Get | lib/openai.ts:131-132 | reading a property throws exactly on `null`; on an object it gives the field, or `undefined` when absent |
| Interview.ContentOr | lib/openai.ts:82-84 | the trimmed content when it is non-empty, the fallback otherwise; never empty when the fallback is not |
| Interview.StripJsonFences | lib/openai.ts:128 | removing the "```json" pattern never lengthens the text and leaves text without backticks unchanged |
| Interview.StripFences | lib/openai.ts:128 | the same for the "```" pattern |
| Interview.StripJsonFencesPlain | lib/openai.ts:128 | a backtick-free prefix passes through the first replacement unchanged |
| Interview.StripFencesPlain | lib/openai.ts:128 | a backtick-free prefix passes through the second replacement unchanged |
| Interview.JsonFenceSkipped | lib/openai.ts:128 | an opening "```json" and the white space after it are removed as one match, whatever the letter case |
| Interview.ClosingFenceDropped | lib/openai.ts:128 | a closing "```" after backtick-free text is removed, and the text is kept |
| Interview.BareFence | lib/openai.ts:128 | a bare "```" is not matched by the first pattern and is removed by the second |
| Interview.FencedReplyCleaned | lib/openai.ts:128 | a reply wrapped as "```json", body, "```" is cleaned to the trimmed body |
| Interview.AfterKey | lib/openai.ts:135-136 | `"key"\s*:\s*` matches only at a text starting with the key, and the rest starts with no white space |
| Interview.ScoreAt | lib/openai.ts:135 | a score match captures one or more digits |
| Interview.FeedbackAt | lib/openai.ts:136 | a feedback capture holds no double quote |
| Interview.ScoreOf | lib/openai.ts:131 | a numeric `score` passes unchanged; anything else goes through `Number(...)`, and a falsy result becomes 0; the result is never NaN |
| Interview.JsonBranch | lib/openai.ts:128-133 | the JSON path fails exactly when `JSON.parse` throws or yields `null`, or when converting its `score` or `feedback` throws (an object with its own `toString`); its score is never NaN |
| Interview.FallbackBranch | lib/openai.ts:134-140 | the score is the first score match capped at 100, or 0 when there is none; the feedback is the first feedback capture, or the first 500 characters of the reply |
| Interview.ParseEvaluateResponse | lib/openai.ts:126-142 | never throws: the JSON result when the JSON path succeeds, the fallback result otherwise; the score is never NaN |
| Interview.Clamp | lib/openai.ts:121 | the clamped score lies in [0,100]: unchanged inside, 0 below, 100 above, including the infinities |
| Interview.EvaluateAnswer | lib/openai.ts:97-124 | exactly one evaluation request; it throws exactly when the call throws; otherwise the score lies in [0,100] and the feedback is never empty |
| Interview.EvaluationOfParsed | lib/openai.ts:117-122 | the evaluation is the clamped parsed score, and the parsed feedback or the default when that is empty |
| Interview.ParsedObject | lib/openai.ts:129-133 | an object with a numeric `score` and a string `feedback` is read as exactly those two values |
| Interview.ParsedEmptyObject | lib/openai.ts:129-133 | an empty object is read as score 0 and empty feedback |
| Interview.WellFormedReplyKept | lib/openai.ts:117-122 | a well-formed JSON reply keeps its feedback, and its score clamped (unchanged inside [0,100]) |
| Interview.EmptyReplyEvaluation | lib/openai.ts:117-122 | an empty completion is parsed as "{}" and gives score 0 with the default feedback |
| Interview.ScoreAtKey | lib/openai.ts:135 | `"score": <digits>` followed by a non-digit matches with exactly those digits captured |
| Interview.NoScoreWithoutQuote | lib/openai.ts:135 | the score pattern matches only where a double quote starts |
| Interview.FirstScoreMatch | lib/openai.ts:135 | when the first double quote of a reply opens `"score": <digits>`, the leftmost match captures those digits |
| Interview.ProseScoreExtracted | lib/openai.ts:134-138 | when JSON parsing fails on such a reply, its score is those digits' value capped at 100 |
| Interview.HistoryBlocksSingle | lib/openai.ts:54-57 | a one-entry history renders as "Q1: question\nA1: answer" |
| Interview.HistoryBlocksSnoc | lib/openai.ts:53-58 | one more history entry adds a blank line and its block, numbered after the others, in history order |
| Interview.HistoryContext | lib/openai.ts:51-59 | the history paragraph is empty exactly for an empty history, and otherwise opens with the 【これまでの質疑】 heading |
| Interview.GenerateInterviewQuestion | lib/openai.ts:45-87 | one question request; it throws exactly when the call throws; the question is never empty, and an empty completion gives the fixed fallback question |
| Interview.SummaryBlock | lib/openai.ts:158-163 | a summary item starts with its Q/A block; a present score puts the " [スコア: …]" tag right after it, and without a score the block is followed by nothing or by the feedback line; non-empty feedback ends the item with the "\nフィードバック: …" line, and without it the item is the block and the tag (if any) alone |
| Interview.GenerateFinalFeedback | lib/openai.ts:150-186 | an empty history gives the fixed "no answers" text with no request; otherwise one summary request, which throws exactly when the call throws; the fixed text replaces an empty completion; the result is never empty |
| AnswerRoute.ReadBody | app/api/interview/answer/route.ts:68-81 | destructuring fails exactly when the body is not JSON or is `null`; the fields read are the object's own |
| AnswerRoute.TemplateText | lib/openai.ts:56 | `${v}` fails exactly for a value whose conversion throws; an absent value prints as "undefined", and a string as itself |
| AnswerRoute.PreviousEntries | app/api/interview/answer/route.ts:96 | an array history is taken as it is; anything else, absent included, is the empty history |
| AnswerRoute.DecodeEntry | lib/openai.ts:54-57 | reading a history entry throws exactly for `null` and for a question or answer whose conversion throws; string fields are read as they are, and a non-object entry reads as "undefined" |
| AnswerRoute.DecodeHistory | lib/openai.ts:53-58 | the history fails exactly when some entry fails (in particular when it holds `null`); otherwise it keeps one decoded entry per item, in order |
| AnswerRoute.DecodeHistorySnoc | app/api/interview/answer/route.ts:37 | appending an entry keeps an unreadable history unreadable, and adds the entry's reading to the end of a readable one |
| AnswerRoute.CurrentEntryReadable | app/api/interview/answer/route.ts:36 | the new entry reads back as the converted question, the answer, the score and the feedback, and the summary prompt can convert it |
| AnswerRoute.SummaryUnreadableSnoc | lib/openai.ts:157-163 | appending the new entry leaves the summary prompt buildable exactly when it was |
| AnswerRoute.HandleGetQuestion | app/api/interview/answer/route.ts:13-25 | an unreadable history or an unconvertible `jobType`/`companyType` rejects with no request; otherwise exactly one medium question request over the history, rejecting exactly when that call throws; a response is a 200 with a non-empty question |
| AnswerRoute.AfterEvaluation | app/api/interview/answer/route.ts:39-63 | a full history makes one summary request (none when the summary cannot be built) and, on success, finishes with non-empty final feedback; a shorter one makes one medium question request and continues with a non-empty next question; a failure rejects; a response carries the score, the feedback and the history as given |
| AnswerRoute.HandleSubmitAnswer | app/api/interview/answer/route.ts:28-64 | an unconvertible question or `jobType` rejects with no request; otherwise the evaluation request comes first, and an evaluation call that throws rejects after exactly that request, with no question or summary request; a response is a 200 with a score in [0,100], non-empty feedback, and the client's entries as sent followed by exactly the new entry; it finishes exactly when that history reaches five entries; an unreadable history rejects after the evaluation |
| AnswerRoute.Post | app/api/interview/answer/route.ts:66-108 | the route's 500 comes exactly for an unreadable body or a submitted answer whose `String(...)` throws, with no request; 400 (with no request) exactly when `jobType` or `companyType` is falsy; a scored reply only on the submit path; every non-200 status carries an error; a rejection only after the field check |
| AnswerRoute.PostAwaited | app/api/interview/answer/route.ts:66-108 | with the handlers awaited, every request gets a response of the route, every non-200 status carries an error, a 500 carries the route's error text, and the requests made are those of POST as written |
| AnswerRoute.NullEntryEscapesCatch | app/api/interview/answer/route.ts:100-107 | a question request whose history holds `null` rejects with no request as written, and gets the route's 500 when awaited |
| AnswerRoute.ThrowingEvaluationEscapesCatch | app/api/interview/answer/route.ts:91-107 | a submission whose evaluation call throws rejects after exactly that one request as written, and gets the route's 500 with the same request when awaited |
| AnswerRoute.NullEntryExample | app/api/interview/answer/route.ts:100-107 | the same for the body `{"jobType":"a","companyType":"b","previousQA":[null]}` |
| AnswerRoute.SubmitHandlerFlow | app/api/interview/answer/route.ts:35-63 | with a model that answers and a history the next step can read, a submission succeeds with exactly two requests: the evaluation, then the summary over the history for a full one or the next medium question before that; the reply's history reads as the client's followed by the new scored pair |
| AnswerRoute.AfterEvaluationSucceeds | app/api/interview/answer/route.ts:39-63 | with a model that answers and a readable history, the step after scoring succeeds with exactly one request |
| AnswerRoute.SubmissionDispatched | app/api/interview/answer/route.ts:90-98 | a body with the two fields, a truthy question and a non-nullish answer that converts reaches the submit handler with the answer's string form, the other values as sent, and the client's history |
| AnswerRoute.QuestionFlow | app/api/interview/answer/route.ts:100 | a body without a submission, with a readable history and convertible fields, gets one medium question over the client's history, even when an answer was sent |
| Lists.Filter | todo-app/app.js:55 | `filter` keeps exactly the elements that satisfy the predicate |
| Lists.FilterAppend | todo-app/app.js:55 | filtering distributes over concatenation, so the kept elements stay in their original order |
| Lists.FilterPartition | todo-app/app.js:68-69 | a predicate and its negation split a list between them |
| Lists.FilterKeepsAll | todo-app/app.js:55 | a list whose elements all pass is kept whole |
| Lists.FilterIdempotent | todo-app/app.js:54-58 | filtering twice by the same predicate is filtering once |
| Todos.LoadTodos | todo-app/app.js:13-20 | the empty list when nothing is stored or the stored text does not parse; the parsed list otherwise |
| Todos.FindIndex | todo-app/app.js:40 | `find` gives the first item with the id, or none when no item has it |
| Todos.Toggled | todo-app/app.js:39-46 | ids and texts are kept, and an item's completion changes exactly when it is the first item with the id |
| Todos.ToggleUnknown | todo-app/app.js:41 | an unknown id changes nothing |
| Todos.ToggleTwice | todo-app/app.js:39-46 | toggling the same id twice restores the list |
| Todos.Without | todo-app/app.js:49 | deletion keeps exactly the items whose id differs, and every item it keeps comes from the list |
| Todos.WithoutAppend | todo-app/app.js:49 | deletion keeps the remaining items in their original order |
| Todos.WithoutUnknown | todo-app/app.js:49 | deleting an unknown id changes nothing |
| Todos.FilteredTodos | todo-app/app.js:60-64 | the unfinished items for "active", the finished ones for "completed", and the whole list for any other filter |
| Todos.CountsPartition | todo-app/app.js:68-69 | the active and completed counts add up to the number of items |
| Todos.ClearCompletedIdempotent | todo-app/app.js:54-58 | clearing completed items twice is clearing them once |
| Todos.TodoList.constructor | todo-app/app.js:10-11 | the list starts as the stored list and the filter as "all" |
| Todos.TodoList.AddTodo | todo-app/app.js:26-37 | blank text changes nothing; otherwise exactly one unfinished item with the trimmed text is appended, and the existing items are kept |
| Todos.TodoList.ToggleTodo | todo-app/app.js:39-46 | the search loop finds the first item with the id, and the list becomes `Toggled` of the old list |
| Todos.TodoList.DeleteTodo | todo-app/app.js:48-52 | the list becomes the old list without the id |
| Todos.TodoList.ClearCompleted | todo-app/app.js:54-58 | the list becomes the unfinished items of the old list, in order |
| Todos.TodoList.SetFilter | todo-app/app.js:131-136 | a filter click sets the filter and keeps the items |
| Todos.TodoList.Visible | todo-app/app.js:67 | the shown items are items of the list, and all of them under "all" |
| Todos.TodoList.Counts | todo-app/app.js:68-69 | the two counts together count every item |
| Sorting.InsertLast | dog-health-app/app.js:208 | one insertion step of the in-place sort: the sorted prefix grows by one, the array keeps the same elements, and an already ordered prefix is untouched |
| Sorting.SortNewestFirst | dog-health-app/app.js:207-210 | the in-place sort leaves the array newest first, a permutation of the input, and unchanged when already in order |
| DogRecords.SaveList | dog-health-app/app.js:207-210 | each `save*List` (also 262-265, 323-330, 397-400) writes a newest-first permutation of its list by that list's key |
| DogRecords.SpliceOne | dog-health-app/app.js:235 | `splice(i, 1)` at a valid index removes exactly the element at i; a start at or past the end removes nothing; a negative start counts from the end, clamped at 0 |
| DogRecords.SpliceOneRemoves | dog-health-app/app.js:235 | the splice removes exactly one copy of the deleted element |
| DogRecords.DeleteAt | dog-health-app/app.js:233-238 | a delete click saves the sorted list without exactly that element |
| DogRecords.AddWeight | dog-health-app/app.js:242-254 | rejected exactly when the date or the number is missing; otherwise the sorted list with the new record added |
| DogRecords.AddVaccine | dog-health-app/app.js:299-315 | rejected exactly when the trimmed name or the date is missing; otherwise the sorted list with the new record added |
| DogRecords.NewVetRecord | dog-health-app/app.js:375-380 | a vet entry is rejected exactly when both dates are missing; a stored record's date is `date` or else the booked day, so it always has one |
| DogRecords.AddVet | dog-health-app/app.js:368-389 | rejected exactly when both dates are missing; otherwise the sorted list with the new record added |
| DogRecords.AddMedicine | dog-health-app/app.js:433-450 | rejected exactly when the trimmed name or the start day is missing; otherwise the sorted list with the new record added |
| DogReminders.VetReminderFor | dog-health-app/app.js:119-128 | a record gives one reminder exactly when its booked day is 0 to 3 days ahead, with that day, its clinic and reason, and the day difference |
| DogReminders.VetReminders | dog-health-app/app.js:112-131 | a list gives at most one reminder per record |
| DogReminders.GetVetReminders | dog-health-app/app.js:112-131 | the accumulating loop returns the reminders of the whole list |
| DogReminders.VetRemindersAppend | dog-health-app/app.js:119-129 | reminders come in list order: those of a joined list are those of its parts, one after the other |
| DogReminders.VetRemindersExactly | dog-health-app/app.js:112-131 | a reminder is in the result exactly when some record gives it |
| DogReminders.VetRemindersInWindow | dog-health-app/app.js:124-127 | every vet reminder is 0 to 3 days ahead |
| DogReminders.VaccineReminderFor | dog-health-app/app.js:140-150 | a vaccination gives one reminder exactly when its next dose is 25 to 35 days ahead |
| DogReminders.VaccineReminders | dog-health-app/app.js:133-153 | a list gives at most one reminder per record |
| DogReminders.GetVaccineReminders | dog-health-app/app.js:133-153 | the accumulating loop returns the reminders of the whole list |
| DogReminders.VaccineRemindersAppend | dog-health-app/app.js:140-151 | reminders come in list order |
| DogReminders.VaccineRemindersExactly | dog-health-app/app.js:133-153 | a reminder is in the result exactly when some vaccination gives it |
| DogReminders.VaccineRemindersInWindow | dog-health-app/app.js:145-149 | every vaccination reminder is 25 to 35 days ahead |
| DogWeight.StandardWeightsWellFormed | dog-health-app/app.js:15-32 | every breed range in the table is positive with min ≤ max |
| DogWeight.FindStandardWeightAsWritten | dog-health-app/app.js:68-72 | null for a non-string or empty name; a table entry for a registered trimmed name; and a non-null inherited member for an `Object.prototype` name |
| DogWeight.InheritedNameLooksRegistered | dog-health-app/app.js:71 | "constructor" is not a breed, yet the lookup as written gives a non-null result for it |
| DogWeight.FindStandardWeight | dog-health-app/app.js:68-72 | a result exactly for a string whose trimmed form is in the table, and then that breed's positive range |
| DogWeight.FindStandardWeightAgrees | dog-health-app/app.js:71 | the corrected lookup agrees with the written one on every registered name, and gives null where the written one finds a prototype member |
| DogWeight.CurrentWeight | dog-health-app/app.js:60-66 | the profile weight as a number when it is set (not null and not ""), else the newest record's weight, else null |
| DogWeight.WeightAlert | dog-health-app/app.js:101-109 | "over" exactly above max·1.2; "under" exactly below min·0.8 when not over |
| DogWeight.InRangeNoAlert | dog-health-app/app.js:101-102 | a weight inside the standard range raises no alert |
| DogWeight.AlertsExclusive | dog-health-app/app.js:101-109 | for a positive range the two alerts exclude each other |
| DogWeight.FarAboveMonotone | dog-health-app/app.js:101 | a heavier dog is at least as far over |
| DogWeight.StandardWeightBoxAsWritten | dog-health-app/app.js:74-110 | as written: the "register a breed" view exactly for no breed; an `undefined` range with no alert exactly for a name the table inherits; "no standard" exactly for any other unregistered breed; otherwise the range, with an alert only when a current weight is known |
| DogWeight.InheritedBreedShowsUndefinedRange | dog-health-app/app.js:88-95 | as written, the breed "constructor" passes the `!standard` guard and shows an `undefined` range |
| DogWeight.StandardWeightBox | dog-health-app/app.js:74-110 | corrected: the "register a breed" view exactly for no breed; "no standard" exactly for a breed not in the table's own entries; otherwise the range, with an alert only when a current weight is known; never an `undefined` range |
| DogWeight.StandardWeightBoxAgrees | dog-health-app/app.js:88-95 | the corrected box differs from the one as written only where that one shows an `undefined` range, and shows "no standard" there |
| StripeWebhook.Or | app/api/stripe/webhook/route.ts:42 | `client_reference_id` when it is non-empty, else `metadata.user_id` |
| StripeWebhook.PlanFor | app/api/stripe/webhook/route.ts:90-91 | the plan is "pro" exactly for "active" or "trialing", and "free" otherwise |
| StripeWebhook.ApplyCheckout | app/api/stripe/webhook/route.ts:40-83 | no user id or no customer id changes nothing; otherwise the user's row becomes an active pro subscription (updated or inserted), the other rows are kept, and an existing user's plan becomes "pro" |
| StripeWebhook.Owners | app/api/stripe/webhook/route.ts:93-97 | the users whose row carries the subscription id, and only they |
| StripeWebhook.ApplySubscriptionChange | app/api/stripe/webhook/route.ts:85-110 | the keys of both tables stay the same; without exactly one non-empty owner nothing changes |
| StripeWebhook.SubscriptionChangeSetsPlan | app/api/stripe/webhook/route.ts:99-107 | the sole owner's row gets the new status and plan, the user gets the plan, and every other row and user is untouched |
| StripeWebhook.UnknownSubscriptionUnchanged | app/api/stripe/webhook/route.ts:99 | a subscription id that no row carries leaves both tables unchanged |
| StripeWebhook.CheckoutIdempotent | app/api/stripe/webhook/route.ts:52-81 | a redelivered checkout changes nothing further |
| StripeWebhook.SubscriptionChangeIdempotent | app/api/stripe/webhook/route.ts:100-107 | a redelivered subscription change changes nothing further |
| StripeWebhook.BillingStore.constructor | app/api/stripe/webhook/route.ts:36 | the store starts with the given tables |
| StripeWebhook.BillingStore.CompleteCheckout | app/api/stripe/webhook/route.ts:40-83 | the update-or-insert and the users update leave the tables as `ApplyCheckout` of the old ones |
| StripeWebhook.BillingStore.ChangeSubscription | app/api/stripe/webhook/route.ts:85-110 | the two updates leave the tables as `ApplySubscriptionChange` of the old ones |
| StripeWebhook.BillingStore.Post | app/api/stripe/webhook/route.ts:8-125 | a missing secret (500), a missing signature (400) or a failed verification (400) leaves the tables untouched; a verified event is applied and acknowledged with 200, and unhandled types change nothing |
| Gate.SetParam | middleware.ts:63 | `searchParams.set`: afterwards the parameter has exactly the one value, and all other parameters are kept in order |
| Gate.UpgradeUrl | middleware.ts:61-63 | the redirect goes to "/interview/upgrade" with `reason=limit`, keeping the other query parameters |
| Gate.StartOfMonth | middleware.ts:10-14 | the window starts on day 1 of the current UTC month at 00:00:00.000, not after now |
| Gate.CountingWindow | middleware.ts:47-52 | the window holds every instant of the current month and no instant of an earlier month |
| Gate.PlanOrFree | middleware.ts:40 | a missing plan is "free" |
| Gate.Middleware | middleware.ts:16-68 | other paths, logged-out users, pro users and failed counts pass; the gate redirects exactly a logged-in non-pro user on the session page whose count (null read as 0) is at least 3 |
| Gate.RedirectMonotone | middleware.ts:59-60 | if a count redirects, every larger count redirects too |
| Gate.FreeLimitIsThree | lib/stripe.ts:16 | a free user with 2 sessions (or a null count) passes, and one with 3 is redirected |
| Cookies.SegmentFields | lib/supabase/middleware.ts:14-15 | the name is the trimmed segment before its first "=", and the value is everything after it, trimmed; a segment without "=" has value "" |
| Cookies.ValueKeepsEquals | lib/supabase/middleware.ts:14-15 | an "=" inside the value survives: `name=a=b` reads as value `a=b` |
| Cookies.GetAll | lib/supabase/middleware.ts:12-17 | no header gives no cookies; otherwise one cookie per ";" segment, in header order |
| Cookies.CookieCount | lib/supabase/middleware.ts:13 | there is one cookie more than the header has ";" characters, and the segments rejoin to the header |
| ResultPage.LabelColon | app/interview/result/page.tsx:21 | a label and colon match exactly when one of the alternatives, followed by ":" or "：", starts the text |
| ResultPage.Line | app/interview/result/page.tsx:21 | `[^\n]+` takes the text up to the first line break |
| ResultPage.Capture | app/interview/result/page.tsx:21 | after the white space, the rest of that line; the capture is never empty and holds no line break |
| ResultPage.Extract | app/interview/result/page.tsx:20-28 | the part is "" when no label and colon occur anywhere |
| ResultPage.FirstLabelDecides | app/interview/result/page.tsx:20-28 | the first labelled position decides the part: the rest of its line after the colon and the white space, trimmed |
| ResultPage.ExtractMeaning | app/interview/result/page.tsx:20-28 | a part is "" when no label and colon occur anywhere; otherwise, when the first labelled line holds more than white space after the colon, it is the trimmed rest of that line |
| ResultPage.SplitFeedback | app/interview/result/page.tsx:19-30 | for each of the good and improve label sets, on the whole text: the part is "" when none of its labels with a colon occurs, and the trimmed rest of the first labelled line when that line holds more than white space after the colon |
| ResultPage.ItemFeedback | app/interview/result/page.tsx:200-251 | the raw feedback is shown exactly when both parts are empty; otherwise each non-empty part is shown |
| ResultPage.UnlabelledShownRaw | app/interview/result/page.tsx:228-251 | a feedback text without any label and colon is shown as it is |
| ResultPage.RadarData | app/interview/result/page.tsx:93-97 | one point per item, in item order, with subject "Q{i+1}", the item's score and full mark 100 |
| ResultPage.RadarSubjectsDistinct | app/interview/result/page.tsx:94 | no two radar points share a subject |
| ResultPage.ShareText | app/interview/result/page.tsx:100-109 | the share text starts with the total-score line, followed by the summary line and the item blocks |
| ResultPage.SummaryLineWhenSet | app/interview/result/page.tsx:102 | the 総評 line is present exactly when the final feedback is non-empty |
| ResultPage.ShareTextSnoc | app/interview/result/page.tsx:103-108 | one more item adds a line break and its block at the end |
| ResultPage.LoadResult | app/interview/result/page.tsx:58-66 | a missing or empty stored entry gives no result; otherwise the parse of it |
| ResultPage.RenderPage | app/interview/result/page.tsx:79-97 | the no-result view exactly for a missing result or one without items; otherwise the radar data and one feedback view per item |

## Left out

- The chat-completion, Supabase and Stripe SDK calls are parameters: nothing about the network, retries or timeouts is modelled.
- `Interview.Render` has no contract. The wording of the prompts is written out but not reasoned about; contracts speak of requests.
- `JSON.parse`, `Number(string)` and `String(number)` are oracles. JSON numbers are finite reals, so a JSON literal too large for a double is not modelled.
- `AnswerRoute.DecodeEntry`: a history entry whose `score` is not a number, or whose `feedback` is not a string, is read as absent. The source would print such a value into the summary. (A value whose conversion throws is modelled: the summary is then not built.)
- What the framework sends for a rejected POST is not modelled beyond "not the route's JSON".
- The route's `console.error` logging and the exact error text of a failed webhook verification are left out.
- `StripeWebhook.BillingStore.Post`: the handler's catch-all 500 cannot arise in the model. The source ignores the errors its table calls return, and the model's table updates cannot throw.
- `StripeWebhook.ApplyCheckout`: `subscriptions` is keyed by user id. The case where `maybeSingle` fails on several rows for one user is not modelled.
- `setAll` of the cookie adapter does nothing and has no model.
- `Gate.StartOfMonth`: the ISO string sent to the database is not modelled; the count oracle takes the instant itself.
- Time zones, millisecond-to-day rounding and invalid dates (NaN comparisons) in the reminders and sorts are not modelled; dates are day numbers.
- `Sorting.SortNewestFirst`: the model's insertion sort is stable, but the proof does not state stability, and the engine's `Array.prototype.sort` algorithm is not modelled.
- Weights are exact reals, so the ±20% comparison is idealised. JavaScript compares doubles.
- `DogWeight.StandardWeightBox` takes the breed already trimmed, as `updateStandardWeightBox` passes it. The HTML it builds is not modelled.
- `DogWeight.CurrentWeight` reads the stored profile weight as any JSON value through the `Number` oracle. `saveProfile` stores only a number or `null` (dog-health-app/app.js:189), on which `Number(...)` cannot throw. A value stored by other means whose conversion throws (an object with its own `toString`) is not modelled.
- `escapeHtml`, `formatNumber`, `formatDate` and all HTML and DOM building are left out, as are storage writes, `alert`, the clipboard and `navigator.share`.
- `Todos.LoadTodos`: stored text that parses to something other than a list of items is outside the parse oracle's range.
- `Todos.TodoList.AddTodo` takes the fresh id as an argument. `Date.now()` and `Math.random()` are not modelled.
- `useAnimatedScore`, the loading state of the result page and the shape of the stored result (the cast after `JSON.parse`) are left out.
- `ResultPage.LabelColon` takes the first label that matches at a position. This equals the regex's backtracking over the alternatives because no label is a prefix of another. The `i` flag changes nothing for these labels.
- Strings are sequences of code points. JavaScript counts UTF-16 code units, which matters only for `slice(0, 500)` on text outside the Basic Multilingual Plane.
- The pages, UI components, the checkout route and the Supabase client factories have no decision logic and are not part of this model.

## Findings

| source | as written | input that shows it | evidently intended | confidence | as-written member | corrected member |
|---|---|---|---|---|---|---|
| dog-health-app/app.js:71 | `STANDARD_WEIGHT_BREEDS[normalized] \|\| null` also finds members inherited from `Object.prototype` | a profile breed of "constructor" (or "toString", "valueOf", ...): the box shows a "standard weight" range of `undefined` instead of "no standard weight registered" | only the table's own breeds have a standard weight | high (not executed) | DogWeight.FindStandardWeightAsWritten, DogWeight.InheritedNameLooksRegistered, DogWeight.StandardWeightBoxAsWritten, DogWeight.InheritedBreedShowsUndefinedRange | DogWeight.FindStandardWeight, DogWeight.StandardWeightBox, DogWeight.StandardWeightBoxAgrees |
| app/api/interview/answer/route.ts:91-100 | `return handleSubmitAnswer(...)` and `return handleGetQuestion(...)` inside `try` without `await`: a rejection of the returned promise never reaches the `catch` | the body `{"jobType":"a","companyType":"b","previousQA":[null]}`: reading `qa.question` of `null` rejects the handler, and the client gets the framework's error instead of `{"error": "処理に失敗しました"}` with status 500; a model call that throws does the same | `return await handle...(...)`, so that every failure gets the route's 500 | high (not executed) | AnswerRoute.Post, AnswerRoute.NullEntryEscapesCatch, AnswerRoute.NullEntryExample, AnswerRoute.ThrowingEvaluationEscapesCatch | AnswerRoute.PostAwaited |
