# Willpower Fitness portal — verified model of the coaching and payment core

This project is a Dafny model of the deterministic core of the Willpower
Fitness portal, a personal-training web application with an AI chat coach,
Stripe checkout and Printful t-shirt fulfilment. It covers four parts:

- **Workout intelligence** (`workout_intelligence.dfy`, `lib/workoutIntelligence.js`):
  - the RPE table that maps a 1–10 effort rating to a load multiplier and advice;
  - the result of `processRPEFeedback`;
  - the progression-trend classifier over the newest logged weights;
  - the keyword classifiers and the global-regex counters run over the chat model's analysis text.
- **AI chat turn** (`ai_service.dfy`, `services/ai_service.py`):
  - loading a user's context;
  - counting the conversation stage and choosing the system prompt for that stage;
  - replaying recent history and appending knowledge-base answers;
  - the fallback replies;
  - the two rows a turn writes to the message log, modelled as a class `AIService` whose `GenerateResponse` updates the log.
- **Payments** (`payment_service.dfy`, `services/payment_service.py`):
  - turning a `checkout.session.completed` webhook event into a customer row, a t-shirt order and a Printful order request;
  - the free-text address parser (the lazy `re.match` on the last line is proved equal to a declarative description of its match);
  - the size-to-variant table;
  - the order payload;
  - modelled as a class `PaymentService` whose methods update the customer map, the t-shirt orders and the requests sent to Printful.
- **Database setup script** (`setup_database.dfy`, `setup_database.js`):
  - removing `--` comments and blank lines;
  - splitting the SQL into commands;
  - running each command, classifying its errors, then running the connection test.

Shared pieces:

- `text.dfy`: whitespace as Python and as JavaScript define it, ASCII lower-casing, containment, `split`/`join` and `strip`/`trim`.
- `wrappers.dfy`: an `Option` type.

Things the original gets from outside become parameters:

- database query results;
- the chat-completion and Printful HTTP outcomes;
- the knowledge search result;
- the clock's timestamp string;
- the contents of the SQL file.

Both regex-driven counters are proved equal to plain counts:

- `extractPreventiveActions` and `extractModifications` count keyword occurrences, because no keyword can overlap another.
- `extractFormCorrections` counts marked lines.

The comment stripper and the blank-line collapse are written as the left-to-right scans the JavaScript regex engine performs.

Two consequences of the code are proved rather than assumed:

- The trend classifier reports "stable", not "insufficient data", for two or three logged rows. The older average is then NaN, and both comparisons with NaN are false.
- A visitor with no `users` row is always at the first conversation stage, because their stored messages are never read back.

## Model

| member | source | states |
|---|---|---|
| WorkoutIntelligence.LookupAdjustment | lib/workoutIntelligence.js:127-140 | whatever the rating, the selected multiplier lies between 0.85 and 1.10 |
| WorkoutIntelligence.RpeFallback | lib/workoutIntelligence.js:140 | a missing rating or one outside 1–10 gets rating 5's row (multiplier 1.00, "Moderate effort. Maintain current weight.") |
| WorkoutIntelligence.RpeMultiplierNonIncreasing | lib/workoutIntelligence.js:128-137 | a harder rated effort never gets a larger multiplier |
| WorkoutIntelligence.RpeMultiplierDirection | lib/workoutIntelligence.js:128-137 | ratings 1–4 increase the load, 5–6 keep it, 7–10 reduce it |
| WorkoutIntelligence.ProcessRpeFeedback | lib/workoutIntelligence.js:171-179 | the result reports success and echoes the rating and the analysis; the multiplier and message are the rating's own table row, or row 5's when the rating is not a key; the next weight is NaN, as line 175 computes it; the trend is that of the logged history |
| WorkoutIntelligence.NextWeightAsWrittenIsNaN | lib/workoutIntelligence.js:175 | as written, `nextWeight` is NaN for every weight and rating |
| WorkoutIntelligence.NextWeightFollowsRating | lib/workoutIntelligence.js:174-175 | the corrected next weight is within half a unit of weight × multiplier, and for a non-negative weight is at least, equal to or at most the rounded current weight as the rating asks for more, the same or less load |
| WorkoutIntelligence.ProgressionTrend | lib/workoutIntelligence.js:260-285 | the trend is "unknown" exactly when the query failed (see the Trend lemmas for the rest) |
| WorkoutIntelligence.TrendInsufficientIff | lib/workoutIntelligence.js:271 | the trend is "insufficient data" exactly when fewer than two rows are logged |
| WorkoutIntelligence.TrendShortHistoryStable | lib/workoutIntelligence.js:273-281 | with two or three rows the older window is empty, its average NaN, and the trend is always "stable" |
| WorkoutIntelligence.TrendSeesSixNewest | lib/workoutIntelligence.js:273-274 | only the six newest rows influence the trend |
| WorkoutIntelligence.TrendImprovingWhenRecentClearlyHeavier | lib/workoutIntelligence.js:276-279 | if the three newest weights all exceed 1.05 × some level that no older weight in the window exceeds, the trend is "improving" |
| WorkoutIntelligence.TrendDecliningWhenRecentClearlyLighter | lib/workoutIntelligence.js:276-280 | if the three newest weights are all below 0.95 × a non-negative level that every older weight reaches, the trend is "declining" |
| WorkoutIntelligence.TrendUnitInvariant | lib/workoutIntelligence.js:276-281 | scaling every weight by a positive factor (another unit) never changes the trend |
| WorkoutIntelligence.ExtractReasoningFromAdjustment | lib/workoutIntelligence.js:288-291 | the note is always one of the two fixed notes |
| WorkoutIntelligence.ExtractSafetyNotes | lib/workoutIntelligence.js:293-298 | the note is always one of the two fixed notes |
| WorkoutIntelligence.NotesIgnoreCase | lib/workoutIntelligence.js:289-296 | both notes are the same for a text and its lower-cased form, as the `i` flag and `toLowerCase` make them |
| WorkoutIntelligence.NotesSurviveAppending | lib/workoutIntelligence.js:288-298 | a reasoning or safety note, once earned, is kept when more text is appended |
| WorkoutIntelligence.AssessFormRisk | lib/workoutIntelligence.js:300-308 | definition (see `RiskNeverDropsWhenTextAdded`) |
| WorkoutIntelligence.CategorizeRiskLevel | lib/workoutIntelligence.js:316-321 | definition (see `RiskNeverDropsWhenTextAdded`) |
| WorkoutIntelligence.RiskNeverDropsWhenTextAdded | lib/workoutIntelligence.js:300-321 | adding text before or after an analysis never lowers either risk classifier's level |
| WorkoutIntelligence.RiskClassifiersAgreeOnSharedPhrases | lib/workoutIntelligence.js:300-321 | "high risk" makes both classifiers say high, and "caution" makes both say at least medium |
| WorkoutIntelligence.KeywordScanCountsOccurrences | lib/workoutIntelligence.js:323-329 | the global-match scan, which resumes after each match, counts every position where a keyword starts, provided no keyword can overlap another |
| WorkoutIntelligence.ExtractPreventiveActions | lib/workoutIntelligence.js:323-325 | definition (see `KeywordCountersCountOccurrences`) |
| WorkoutIntelligence.ExtractModifications | lib/workoutIntelligence.js:327-329 | definition (see `KeywordCountersCountOccurrences`) |
| WorkoutIntelligence.KeywordCountersCountOccurrences | lib/workoutIntelligence.js:323-329 | both counters equal the number of keyword occurrences in the lower-cased text; they are zero exactly when no keyword occurs; and they are superadditive under concatenation |
| WorkoutIntelligence.CorrectionScanCountsMarkedLines | lib/workoutIntelligence.js:312-313 | the multiline scan for `^\d+\.` or `^[-•]\s` counts exactly the positions where such a marker starts a line |
| WorkoutIntelligence.ExtractFormCorrections | lib/workoutIntelligence.js:310-314 | definition (see `FormCorrectionsCountMarkedLines`) |
| WorkoutIntelligence.FormCorrectionsCountMarkedLines | lib/workoutIntelligence.js:310-314 | the correction count is the number of marked lines, zero exactly when no line starts with a marker |
| AiService.GetUserContext | services/ai_service.py:15-32 | an unknown user gets the default context (Friend, your fitness goals, website, no history); a known user gets the name, goal and source of their row and their newest messages as history |
| AiService.HistoryIsNewestOwnMessages | database.py:135-143 | the history is the user's own messages, oldest first: exactly the newest 50 when there are more, all of them otherwise |
| AiService.UserHistory | database.py:135-143 | definition (see `HistoryIsNewestOwnMessages`) |
| AiService.UnknownUserStartsFresh | services/ai_service.py:17-24 | a user without a row has empty history and is called Friend |
| AiService.MessageCount | services/ai_service.py:47-48 | the stage count is at least 1 and at most one more than the history's length |
| AiService.MessageCountBounds | services/ai_service.py:47-48 | the stage count is between 1 and 51 |
| AiService.ConversationMessages | services/ai_service.py:98-183 | every list holds at least the system prompt and the user's input (see `ConversationShape` and `StageDispatch`) |
| AiService.BuildConversationMessages | services/ai_service.py:98-183 | the loop that replays history builds exactly `ConversationMessages` |
| AiService.ConversationShape | services/ai_service.py:98-183 | every message list starts with the system prompt and ends with the user's input; everything after the prompt is plain text |
| AiService.SubscriptionOverridesStage | services/ai_service.py:103-124 | a subscription request gets the subscription prompt plus the input, whatever the stage |
| AiService.StageDispatch | services/ai_service.py:126-183 | stage 1 gets the first-response prompt, stage 2 the membership pitch, stage 3 and later the sales-protection prompt followed by the last ten history messages |
| AiService.UnknownUserAlwaysFirstStage | services/ai_service.py:41-53 | a user without a row always gets the first-response prompt with the default name and goal |
| AiService.FormatKnowledge | services/ai_service.py:185-190 | the loop builds the Q/A text of the first three knowledge items |
| AiService.FormattedKnowledgeHoldsTopThree | services/ai_service.py:188 | each of the first three items appears in the knowledge text, and adding more items after three does not change it |
| AiService.WithKnowledge | services/ai_service.py:56-59 | the knowledge step keeps the number of messages (see `KnowledgeOnlyExtendsSystemPrompt`) |
| AiService.KnowledgeOnlyExtendsSystemPrompt | services/ai_service.py:56-59 | knowledge only appends the header and formatted text to the system prompt; no other message changes, and nothing changes when there is no knowledge |
| AiService.FallbackReply | services/ai_service.py:80-87 | definition (see `FallbackReplyMentionsName`) |
| AiService.FallbackReplyMentionsName | services/ai_service.py:80-87 | on a non-200 status a subscription request gets a reply addressed to the user by name; any other request gets the fixed connection-trouble reply |
| AiService.Turn | services/ai_service.py:34-96 | without a key the reply is the configuration error and nothing is written or sent; with a key the log only grows, and the request sent is the message list built from the context read before the user's message is stored, with the knowledge appended |
| AiService.TurnWrites | services/ai_service.py:39-96 | with a key the request is built from the context read before any write; the user's message is stored first, then the returned reply unless the call raised; on 200 the reply is the API's text, on another status the fallback, and if the call raised the error reply |
| AiService.CountAdvancesAfterTurn | services/ai_service.py:44-48 | a turn the API answered raises the next turn's stage count by exactly one, because its two rows are the user's message and the reply (while the history stays under the 50-row limit) |
| AiService.AIService.constructor | services/ai_service.py:11-13 | the service starts with the given key and tables |
| AiService.AIService.UserContextOf | services/ai_service.py:15-32 | an unknown user gets the default context; a known user gets their row's name, goal and source and their newest messages as history |
| AiService.AIService.GenerateResponse | services/ai_service.py:34-96 | the reply, the new log and the request sent are those of the turn on the old state; key and users are unchanged |
| PaymentService.ExtractCustomFields | services/payment_service.py:39-47 | the loop over custom fields computes exactly the fold `ExtractAll`, including the failure when a field's container is null |
| PaymentService.ExtractAllIsLastValue | services/payment_service.py:39-47 | extraction fails exactly when some field's container is null; otherwise each value is the one from the last field with its key |
| PaymentService.ExtractAllFailureSticks | services/payment_service.py:39-47 | once a field raises, the whole extraction fails |
| PaymentService.WebhookPlanFor | services/payment_service.py:24-77 | definition (see `WebhookAcceptsExactly` and `WebhookShirtExactly`) |
| PaymentService.WebhookAcceptsExactly | services/payment_service.py:24-77 | an event is accepted exactly when it is a completed checkout with a session, non-null details and fields, no raising field, a truthy email and a non-null name; the row is keyed by that email and holds that name, the session's subscription and the last fitness-goals and experience-level values |
| PaymentService.WebhookShirtExactly | services/payment_service.py:59-68 | an accepted event orders a shirt exactly when both the size and the address are truthy, with those values |
| PaymentService.TailAtExact | services/payment_service.py:94 | after the city, the matcher accepts exactly optional comma, spaces, two capitals, spaces and five digits |
| PaymentService.CityStateZipIsLazyMatch | services/payment_service.py:94 | a match has the shortest non-empty city followed by the pattern; no match exists exactly when no split of the line fits it |
| PaymentService.MatchCityStateZip | services/payment_service.py:94 | definition (see `CityStateZipIsLazyMatch`) |
| PaymentService.AddressLinesAreStrippedInputLines | services/payment_service.py:87 | each address line is a non-empty, stripped stretch of one input line |
| PaymentService.AddressLines | services/payment_service.py:87 | definition (see `AddressLinesAreStrippedInputLines`) |
| Text.SplitJoin | services/payment_service.py:87 | splitting on a character loses nothing: joining the pieces with that character gives the text back |
| PaymentService.CityStateZipOf | services/payment_service.py:91-100 | the state is two capitals, the zip five digits and the city non-empty, whether matched or defaulted |
| PaymentService.ParseAddress | services/payment_service.py:86-100 | the parsed state is two capitals, the zip five digits, the city non-empty |
| PaymentService.ParsedAddressWellFormed | services/payment_service.py:86-100 | address1 is the first line, or the whole text when there is none; the defaults apply exactly when there are fewer than two lines or no match; a matched city is a prefix of the last line |
| PaymentService.VariantId | services/payment_service.py:103-106 | the variant is 4011–4015, and unknown sizes get M's variant |
| PaymentService.VariantIdsOrdered | services/payment_service.py:103-105 | the five sizes get increasing, distinct variants |
| PaymentService.OrderPayloadFor | services/payment_service.py:108-128 | definition (see `OrderPayloadShape`) |
| PaymentService.OrderPayloadShape | services/payment_service.py:109-128 | the recipient is the customer in the US with a well-formed state and zip; there is one item of quantity 1; shipping is standard; the external id starts with "willpower_" and the email |
| PaymentService.PrintfulOrderId | services/payment_service.py:139-146 | an order id is returned only for status 200 or 201, and then it is the response's id |
| PaymentService.PaymentService.constructor | services/payment_service.py:11-14 | the service starts with the given key and tables, and no Printful requests sent |
| PaymentService.PaymentService.CreatePrintfulOrder | services/payment_service.py:79-150 | without a key nothing is sent and None is returned; with a key the order payload is sent and the id comes from the response |
| PaymentService.PaymentService.ProcessStripeWebhook | services/payment_service.py:24-77 | returns true exactly for accepted events whose inserts all commit; a rejected event or a failing customer insert writes nothing; otherwise the customer is upserted, and a failing t-shirt insert returns false with the customer row kept; when the shirt insert commits the order is recorded and the Printful payload sent when a key is set |
| SetupDatabase.StripComments | setup_database.js:20 | the text never grows (see `StripCommentsLeavesNoDoubleDash`) |
| SetupDatabase.CollapseBlankLines | setup_database.js:21 | the text never grows and keeps its first character (see `CollapseLeavesNoBlankLine`) |
| SetupDatabase.CleanSql | setup_database.js:19-22 | definition (see `CleanSqlWellFormed`) |
| SetupDatabase.StripCommentsLeavesNoDoubleDash | setup_database.js:20 | after every `--` and the rest of its line are removed, the text holds no `--` |
| SetupDatabase.CollapseKeepsNoDoubleDash | setup_database.js:21 | the blank-line collapse brings no `--` back |
| SetupDatabase.CollapseLeavesNoBlankLine | setup_database.js:21 | after the collapse every newline is followed by text before the next newline |
| SetupDatabase.CleanSqlWellFormed | setup_database.js:19-22 | the cleaned SQL holds no `--`, no blank line and no whitespace at either end |
| SetupDatabase.CommandsWellFormed | setup_database.js:25-28 | every command is a non-empty, trimmed stretch of the cleaned SQL with no `;` and no `--` |
| SetupDatabase.Commands | setup_database.js:25-28 | definition (see `CommandsWellFormed`) |
| SetupDatabase.RunCommands | setup_database.js:33-48 | definition (see `RunCommandsInOrder` and `MissingMessageAborts`) |
| SetupDatabase.Setup | setup_database.js:10-65 | definition (see `EveryCommandRunsOnce` and `ConnectionTestOnlyReports`) |
| SetupDatabase.RunAll | setup_database.js:33-48 | the command loop produces exactly the trace `RunCommands` |
| SetupDatabase.SetupDatabase | setup_database.js:10-65 | the script's statements sent, reports and completion are those of `Setup` |
| SetupDatabase.RunCommandsInOrder | setup_database.js:33-47 | while every error has a message, the commands are sent once each, in order, with `;` appended, and each gets the report of its own answer |
| SetupDatabase.EveryCommandRunsOnce | setup_database.js:33-60 | a full run sends every command once, in order, then the connection query; a failing command stops nothing; an error is skipped exactly when its message contains "already exists", and logged as an error otherwise |
| SetupDatabase.MissingMessageAborts | setup_database.js:42 | an error without a message makes the handler throw: the commands after it are not sent and the connection test is not run |
| SetupDatabase.ConnectionTestOnlyReports | setup_database.js:52-60 | the connection test's outcome only changes what is reported |

## Findings

| source | as written | input that shows it | evidently intended | confidence | as-written member | corrected member |
|---|---|---|---|---|---|---|
| lib/workoutIntelligence.js:175 | `nextWeight` multiplies by `adjustment.weightAdjustment`, a member no table row has, so the product is NaN | any rating, e.g. rating 8 at weight 100 gives NaN instead of 95 | multiply by `adjustment.weightAdjust` and round | high (not executed) | WorkoutIntelligence.NextWeightAsWrittenIsNaN | WorkoutIntelligence.NextWeightFollowsRating |

## Left out

- The async orchestration of `processRPEFeedback`, `analyzeInjuryRisk` and the other chat-driven methods of `lib/workoutIntelligence.js`:
  - their prompts are content, and their chat calls and database inserts are I/O;
  - the model starts from the values those calls return.
- WorkoutIntelligence.ProcessRpeFeedback: the weight is taken to be a finite number. The next weight it reports is the NaN the code computes; the intended value is `NextWeight` (see Findings).
- WorkoutIntelligence.LookupAdjustment: a rating value that names a member every JavaScript object inherits (`"constructor"`, `"toString"`) selects that member, not row 5. The model's rating is an integer or None, so this case is not modelled.
- PaymentService.PaymentService.ProcessStripeWebhook: whether each of its two inserts commits is a parameter (`StoreOutcome`); what makes an insert fail (a locked or unavailable database) is not modelled. The customer row committed before a failing t-shirt insert is kept, and the result is then false.
- Floating point: weights and multipliers are exact reals, so rounding differences of IEEE doubles (such as 1.05 × average) are not modelled.
- Letter case: `toLowerCase`/`lower` are modelled on ASCII letters only, and `\d` on ASCII digits.
- Prompt wording: each system prompt is a constructor carrying the values the source interpolates, not the literal text.
- HTTP:
  - the chat-completion call and the Printful call are outcome parameters;
  - headers, URLs, the model name and the temperature are not modelled;
  - logging is not modelled.
- The database:
  - tables are values: the message log is a sequence in insertion order (timestamp ties are not modelled), users and customers are maps, t-shirt orders a sequence;
  - database errors inside `generate_response` other than the API call are not modelled;
  - `create_customer` is an upsert keyed by email;
  - a null customer name, which the NOT NULL column rejects, makes the webhook return false.
- `search_knowledge` is a parameter: its ranking is database logic outside this core.
- The webhook payload:
  - `custom_fields` elements are dictionaries;
  - an element that is not a dictionary (where `.get` would raise) is not modelled.
- The clock: the `%Y%m%d_%H%M%S` timestamp of the external id is a string parameter.
- `setup_database.js` I/O:
  - the file read is an `Option` (None is a read that throws);
  - `query` answers are a function from statement position to outcome;
  - console output is modelled as the reports and the completion flag.
- The connection test's row count parsing (`result.rows[0].count`) is one outcome: a count, no rows, or an error.
- AiService.FallbackReplyMentionsName: states that the subscription fallback names the user, not the rest of its fixed wording.
- Routes, configuration, UI components and the remaining services of the repository are outside this core.
