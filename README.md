# SMS campaign builder: a Dafny model

This project models the decision logic of an SMS marketing application built with Next.js.

- A four-step wizard chooses a persona, a campaign type and a brief.
- The brief goes to a generation route, which screens the prompt with a moderation model, asks a second model for the SMS, and screens the answer for refusals and length.
- A classification route gives the compliance verdict that decides whether the SMS may be sent.
- The user can edit the SMS on the review step. Any edit withdraws the permission to send at once.
- Sending goes through a route that checks the message and normalises the Philippine mobile number before handing it to the Semaphore gateway wrapper. In test mode that wrapper only simulates a send.
- A separate sign-up form has a password rule that gates its submit button.

Modules, one per source file plus shared value types:

| module | file | models |
|---|---|---|
| `JsText` | js_text.dfy | the JavaScript string operations the code relies on: `trim`, `\s`, `\d`, `includes`, `startsWith`, `toLowerCase`, UTF-16 `length` |
| `Json` | json.dfy | JavaScript values as `JSON.parse` yields them, with truthiness, property access and `String()` |
| `Llm` | llm.dfy | the outcome of one chat-completion call |
| `Semaphore` | semaphore.dfy | `utils/semaphore.ts`: number formatting and validation, `createMockResponse`, `sendSMS` |
| `SendRoute` | sms_send_route.dfy | `app/api/sms_send/route.ts` |
| `GenerateRoute` | sms_generate_route.dfy | `app/api/sms_generate/route.ts` |
| `ClassifyRoute` | sms_classify_route.dfy | `app/api/sms_classify/route.ts` |
| `Campaign` | campaign_builder.dfy | `components/campaign-builder.tsx`: classification normalisation, error copy, and the class `CampaignBuilder` with one method per UI event |
| `SignupForm` | signup_form.dfy | `components/signup-form.tsx`: the password rule, the form data and the submit gating |

The three routes are pure functions. Each takes the request and the results of the outside world as parameters:

- what a model answered, or that its call threw;
- what `JSON.parse` made of that answer;
- the gateway exchange and the environment;
- the clock.

Each returns a status and a body.

The wizard is a class whose fields are the component's `useState` values. Its methods are the event handlers.

- The two `useEffect` hooks, at lines 130-134 and 137-165, run as commits after every event that changes their dependencies.
- The identity of the `generatedSMS` object is a revision counter, bumped by every `setGeneratedSMS`.
- `Settle` runs two commits, which always bring the effects to rest (`Campaign.SettleUiRests`).
- `Valid()` is preserved by every event. It says the wizard is on steps 1 to 4, the effects are at rest, and a classification that allows sending was computed for exactly the text it is attached to.
- `Quiescent()` is preserved by every event: no debounce timer is pending and no re-classification is under way.

### Where the code and the design description differ

The model follows the code in each of these cases.

- An empty `categories` array normalises to `undefined`, not to `'Unknown'`. `classification.categories[0]` is taken whenever `categories` is an array (components/campaign-builder.tsx:108-110, 249-251).
- Re-classification after an edit never happens.
  - The edit effect calls `setGeneratedSMS`, and `generatedSMS` is one of its own dependencies.
  - The resulting re-render runs the cleanup `clearTimeout` on the timer the effect has just set. The next run then exits at line 139.
  - So the permission to send is withdrawn by an edit and never restored. There is no request counter and no discard rule.
  - The model keeps the timer and the request as explicit events (`RecheckTimerFires`, `RecheckFinished`). Every event preserves `Quiescent()`, so a reachable state never has a pending timer.
- Reset does not restore the generated text. Line 144 has already replaced `generatedSMS.content` with the edited text, so line 612 copies the edit back.
- "Back to Edit" (lines 724-729) clears the editor. The init effect (lines 130-134) refills it from the SMS straight away.
- The generic blocked copy carries no policy marker and does not mention OpenAI, so lines 270-275 append ". Please check your configuration and try again." to it.
- The marker itself is stored in a mis-decoded form: four characters, U+F8FF U+00FC U+00F6 U+00B4. The copies and the check use the same four characters, so they agree.

## Model

| member | source | states |
|---|---|---|
| JsText.SkipWhitespace | components/campaign-builder.tsx:82 | the first position from `i` on that is not white space: everything skipped is white space, and the position found is not |
| JsText.SkipWhitespaceBack | components/campaign-builder.tsx:82 | the end of the last non-white-space character before `j`: everything skipped is white space, and the character before the position found is not |
| JsText.Trim | components/campaign-builder.tsx:82 | the result is a slice of the input starting at its first non-white-space character; everything before and after the slice is white space, and neither end of the result is white space |
| JsText.TrimEmptyIff | components/campaign-builder.tsx:138 | a string trims to nothing exactly when all its characters are white space |
| JsText.RemoveWhitespace | utils/semaphore.ts:136 | the result has no white space; one character is dropped exactly when it is white space; with `RemoveWhitespaceAppend` this fixes the result |
| JsText.RemoveWhitespaceAppend | utils/semaphore.ts:136 | removing white space distributes over concatenation, so the other characters are kept in their order |
| JsText.DigitsOnly | utils/semaphore.ts:141 | the result has digits only; one character is kept exactly when it is a digit; with `DigitsOnlyAppend` this fixes the result |
| JsText.DigitsOnlyAppend | utils/semaphore.ts:141 | removing non-digits distributes over concatenation |
| JsText.DigitsOnlyOfDigits | utils/semaphore.ts:141 | a string of digits is its own digits-only form |
| JsText.DigitsOnlyIgnoresWhitespace | utils/semaphore.ts:136-141 | removing white space first does not change the digits-only form |
| JsText.RemoveWhitespaceOfPlain | utils/semaphore.ts:136 | a string without white space is unchanged by the white-space removal |
| JsText.Contains | utils/semaphore.ts:63 | `includes` holds exactly when the substring occurs at some position |
| JsText.ContainsNeedsItsCharacters | utils/semaphore.ts:63-70 | a string lacking a character of `sub` does not contain `sub` |
| JsText.StartsWithAppend | utils/semaphore.ts:144-148 | a string starts with any prefix it was built from |
| JsText.DiffersAt | utils/semaphore.ts:144-148 | a string that differs from a prefix at some position within both does not start with it |
| JsText.LowerChar | components/campaign-builder.tsx:198 | maps each capital A-Z to its own lower-case letter (32 code points on) and leaves every other character alone |
| JsText.ToLower | components/campaign-builder.tsx:198 | the result has the input's length and lower-cases each character where it stands |
| JsText.LowerLacks | components/campaign-builder.tsx:198-206 | without either case of a letter, the lower-cased string contains no substring that has that letter |
| JsText.LowerKeepsAbsence | components/campaign-builder.tsx:198 | lower-casing introduces a lower-case letter only where it or its capital stood |
| JsText.LowerOfNoCapitals | app/api/sms_generate/route.ts:146 | lower-casing leaves a string without capitals as it is |
| JsText.LowerContainsInfix | app/api/sms_generate/route.ts:146-148 | a lower-case word inside any text is still found after the text is lower-cased |
| JsText.JsLength | app/api/sms_send/route.ts:16 | one character counts two code units above U+FFFF and one otherwise; with `JsLengthAppend` this fixes the UTF-16 count |
| JsText.JsLengthAppend | app/api/sms_send/route.ts:16 | UTF-16 lengths add up over concatenation |
| JsText.JsLengthOfBmp | app/api/sms_send/route.ts:16 | on text from the Basic Multilingual Plane `length` is the number of characters |
| JsText.NatToString | app/api/sms_generate/route.ts:77 | the decimal rendering is a non-empty string of digits, a single digit exactly below ten, with no leading zero |
| JsText.NatToStringValue | app/api/sms_generate/route.ts:77 | reading the rendering back as a decimal numeral gives the number again |
| JsText.NatToStringInjective | app/api/sms_generate/route.ts:77 | different numbers render differently, so the `VIO-` and `REF-` ids tell clocks apart |
| JsText.DigitChar | app/api/sms_generate/route.ts:77 | each digit value renders as the digit character that many code points after `0` |
| JsText.DigitValue | app/api/sms_generate/route.ts:77 | a digit character's value is below ten and renders back to that character |
| JsText.IntToString | app/api/sms_generate/route.ts:74 | the rendering starts with `-` exactly for negative numbers; the digits after the sign (or the whole string) read back as the magnitude, with no leading zero |
| Json.Get | components/campaign-builder.tsx:107 | property access yields the field of an object that has the key, and `undefined` otherwise |
| Json.Truthy | utils/semaphore.ts:112 | a value is truthy exactly when it is none of `undefined`, `null`, `false`, `0` and `""` |
| Json.ToJsString | app/api/sms_generate/route.ts:74 | `String(v)`: a string as it is, `undefined`, `null`, `true`/`false`, the full decimal rendering of an integer (see "## Left out" for magnitudes of 10^21 and more), `[object Object]`, an empty array as nothing and a one-item array as that item, with `null` and `undefined` printed as nothing |
| Json.JoinItemsShift | app/api/sms_generate/route.ts:74 | joining an array from any position equals joining the array without its first item from one position earlier |
| Json.ArrayToStringCons | app/api/sms_generate/route.ts:74 | an array of two or more items prints as its first item, a comma and the printed rest of the array |
| Json.ArrayToStringPair | app/api/sms_generate/route.ts:74 | a two-item array prints as the two items with one comma between them |
| Json.NullRead | utils/semaphore.ts:112 | the message of a property read on `null` starts "Cannot read properties of null" |
| Llm.ErrorText | app/api/sms_generate/route.ts:203-210 | a thrown `Error` reports its message; any other thrown value reports "Unknown error" |
| Llm.AnswerText | app/api/sms_generate/route.ts:125 | a missing answer is blank; a present one is trimmed |
| Semaphore.FormatPhilippineNumber | utils/semaphore.ts:139-153 | the result is the input unchanged or `+` followed by digits only |
| Semaphore.FormatFollowsDigits | utils/semaphore.ts:141-150 | when a rule applies, inputs with the same digits format alike |
| Semaphore.FormatUnchanged | utils/semaphore.ts:152 | when no rule applies, the input comes back as it was, not in its cleaned form |
| Semaphore.WrittenMatches | utils/semaphore.ts:135 | each of the four shapes with nine subscriber digits matches the regular expression |
| Semaphore.PatternIff | utils/semaphore.ts:135 | the regular expression accepts exactly an optional `+63`, `63` or `0`, then `9`, then nine digits |
| Semaphore.ValidateIff | utils/semaphore.ts:128-137 | validation accepts exactly the numbers that, with white space removed, take one of the four shapes |
| Semaphore.ValidatePhilippineNumber | utils/semaphore.ts:128-137 | defined as the regex test on the input with white space removed; `ValidateIff` states which inputs pass |
| Semaphore.DigitsOfWritten | utils/semaphore.ts:141 | the digits of a written number are its prefix's digits, `9` and the subscriber digits |
| Semaphore.FormatOfCountryDigits | utils/semaphore.ts:144-145 | digits starting `639` become `+` and those digits |
| Semaphore.FormatOfLocalDigits | utils/semaphore.ts:146-147 | digits starting `09` lose the `0` and get `+63` |
| Semaphore.FormatOfBareDigits | utils/semaphore.ts:148-149 | ten digits starting `9` get `+63` |
| Semaphore.FormatInternational | utils/semaphore.ts:139-145 | `+63`, `9` and nine digits formats to `+639` and those digits |
| Semaphore.FormatCountry | utils/semaphore.ts:139-145 | `63`, `9` and nine digits formats to `+639` and those digits |
| Semaphore.FormatLocal | utils/semaphore.ts:139-147 | `0`, `9` and nine digits formats to `+639` and those digits |
| Semaphore.FormatBare | utils/semaphore.ts:139-149 | `9` and nine digits formats to `+639` and those digits |
| Semaphore.FormatWritten | utils/semaphore.ts:139-150 | every one of the four shapes formats to `+639` and the nine subscriber digits |
| Semaphore.SampleShapes | utils/semaphore.ts:130-133 | the four example numbers are the four shapes of the same subscriber digits |
| Semaphore.SampleFormats | utils/semaphore.ts:139-150 | each shape of the example digits formats to `+639123456789` |
| Semaphore.FormatExamples | utils/semaphore.ts:139-150 | `+639123456789`, `639123456789`, `09123456789` and `9123456789` all format to `+639123456789` |
| Semaphore.CanonicalIsValid | utils/semaphore.ts:128-137 | the international form `+639` plus nine digits validates |
| Semaphore.FormatOfValid | utils/semaphore.ts:128-153 | a valid number formats to its international form, which validates too |
| Semaphore.ValidFormattedIsCanonical | utils/semaphore.ts:128-153 | whatever validates after formatting is `+639` and nine digits, whichever branch produced it |
| Semaphore.ValidFormattedHasNoLetters | utils/semaphore.ts:63-75 | a formatted number that validates contains neither `fail` nor `invalid` |
| Semaphore.FormatDoesNotCheckLength | utils/semaphore.ts:144-145 | digits starting `639` get a `+` whatever their length: `6391` becomes `+6391`, which fails validation |
| Semaphore.ShortNumberRejected | utils/semaphore.ts:152 | `12345` comes back unchanged and fails validation |
| Semaphore.ForeignNumberRejected | utils/semaphore.ts:152 | `+` followed by digits that start with neither 6, 0 nor 9 comes back unchanged, `+` kept, and fails validation |
| Semaphore.PlusWithoutCountryCode | utils/semaphore.ts:135 | a `+` not followed by `6` starts no accepted shape |
| Semaphore.GatewayOutcome | utils/semaphore.ts:107-124 | success exactly for an `ok` reply, carrying its body; a failed reply with a `null` body reports the `TypeError` of reading `message` on it; a failed reply with a truthy `message` reports it, otherwise "Failed to send SMS"; a thrown `Error` reports its message, any other thrown value "Network error" |
| Semaphore.SendSms | utils/semaphore.ts:51-126 | in test mode a success is one simulated message; in production a missing or empty key fails with "SEMAPHORE_API_KEY not configured", and with a key the exchange decides as in `GatewayOutcome` |
| Semaphore.CreateMockResponse | utils/semaphore.ts:34-49 | the mock message echoes recipient and message, and its network is "Globe" exactly when the recipient starts with `+639` |
| Semaphore.TestModeDecision | utils/semaphore.ts:53-81 | in test mode, `fail` in the recipient gives "Test failure simulation", else `invalid` gives "Invalid phone number format", else success with one mock message echoing recipient and message |
| Semaphore.FailBeforeInvalid | utils/semaphore.ts:63-75 | a recipient with both markers gets the `fail` outcome |
| Semaphore.MissingKeyNeverReachesGateway | utils/semaphore.ts:84-91 | in production a missing or empty key gives "SEMAPHORE_API_KEY not configured", whatever the gateway would answer |
| SendRoute.Screen | app/api/sms_send/route.ts:4-34 | an unreadable body gives 500; a missing field gives 400 "Message and recipient are required"; a message over 160 code units gives 400 "Message exceeds 160 character limit"; otherwise a formatted number that fails validation gives 400 with the invalid-number text; delivery happens exactly when none of these apply, and it delivers the formatted number and the message |
| SendRoute.Post | app/api/sms_send/route.ts:4-59 | a refused request gets the screening response; 200 exactly when the request passes the checks and `sendSMS` succeeds, and then the body reports "SMS sent successfully" with the data `sendSMS` returned |
| SendRoute.RejectionIgnoresTransport | app/api/sms_send/route.ts:8-34 | a refused request is answered with 400 or 500 whatever the transport, environment or gateway |
| SendRoute.LengthBeforeNumber | app/api/sms_send/route.ts:16-21 | a message over 160 code units is refused as too long before the recipient is formatted |
| SendRoute.LimitIsInclusive | app/api/sms_send/route.ts:16 | exactly 160 code units is not refused as too long |
| SendRoute.DeliveredIsCanonical | app/api/sms_send/route.ts:24-37 | what reaches `sendSMS` is `+639` plus nine digits, with a non-empty message of at most 160 code units |
| SendRoute.ValidRecipientIsDelivered | app/api/sms_send/route.ts:24-37 | a valid recipient with an acceptable message is delivered, formatted, its message untouched |
| SendRoute.TestModeDeliverySucceeds | app/api/sms_send/route.ts:37-44 | in test mode every request that passes the checks succeeds with a "Globe" mock message for the formatted number: the simulated `fail` and `invalid` recipients cannot be reached through the route |
| SendRoute.GatewayFailureIs500 | app/api/sms_send/route.ts:45-50 | a failed send gives 500 carrying the error `sendSMS` produced |
| GenerateRoute.BodyJson | app/api/sms_generate/route.ts:71-201 | `blocked` is truthy exactly for the blocked and unverified bodies; `message` is present exactly for the too-long and success bodies; a blocked body carries its category |
| GenerateRoute.PreCheck | app/api/sms_generate/route.ts:50-93 | a blank moderation answer reads as unsafe with reason "Parse error"; unparseable text or `null` cannot be verified; a parsed answer without a truthy `safe` is unsafe with its `reason` and `category`; the prompt is safe exactly for a non-blank, parsed answer with a truthy `safe` |
| GenerateRoute.StripQuotes | app/api/sms_generate/route.ts:126 | a one-line text quoted at both ends loses exactly its first and last character; any other text is unchanged |
| GenerateRoute.StripQuotesInverse | app/api/sms_generate/route.ts:126 | quoting a one-line text with any two quote characters and stripping gives it back, so only one pair is removed |
| GenerateRoute.StripQuotesKeepsMultiline | app/api/sms_generate/route.ts:126 | a text with a line break inside keeps its quotes |
| GenerateRoute.GeneratedText | app/api/sms_generate/route.ts:125-126 | empty without an answer; otherwise the trimmed answer, with its first and last character removed exactly when they are quotes around one line |
| GenerateRoute.RefusalAnywhere | app/api/sms_generate/route.ts:136-149 | any of the seven indicators anywhere in the text, whatever is around it, marks a refusal |
| GenerateRoute.IsRefusal | app/api/sms_generate/route.ts:146-149 | defined as: the lower-cased text contains one of the seven indicators |
| GenerateRoute.IndicatorsAreLowerCase | app/api/sms_generate/route.ts:136-144 | every refusal indicator is written in lower case, so it can match the lower-cased text |
| GenerateRoute.Post | app/api/sms_generate/route.ts:3-212 | an unreadable body gives 500 with its error; a missing field gives 400 "Persona and prompt are required"; otherwise the moderation step decides; an audit record exactly for a blocked body; 200 exactly for the success body; every status is 200, 400 or 500 |
| GenerateRoute.Moderated | app/api/sms_generate/route.ts:14-202 | a failed moderation call gives 500 with its error; an unverifiable answer gives 400 `Unverified` without audit; an unsafe verdict gives 400 blocked with the reason after the fixed text, the category or else "Policy violation", a `VIO-` id and an input audit record; a safe verdict goes on to generation |
| GenerateRoute.Generation | app/api/sms_generate/route.ts:115-202 | a failed call gives 500 with its error; an empty text gives 500 "Failed to generate SMS content"; a refusal gives 400 "Refused generation" with a `REF-` id and a refusal audit record; a text over 160 code units gives 400 with the text and its length; an audit record exactly for a blocked body; 200 exactly for the success body |
| GenerateRoute.GenerationSuccessIff | app/api/sms_generate/route.ts:128-202 | generation succeeds exactly for a non-empty text that is no refusal and at most 160 code units, echoing text and persona |
| GenerateRoute.MissingInputIgnoresModels | app/api/sms_generate/route.ts:7-12 | a missing persona or prompt gives 400 "Persona and prompt are required", whatever the models and clock give |
| GenerateRoute.UnsafeIgnoresGeneration | app/api/sms_generate/route.ts:52-93 | unless moderation marks the prompt safe, the generation model's answer changes nothing and the status is not 200 |
| GenerateRoute.BlankModerationBlocks | app/api/sms_generate/route.ts:50-81 | a blank moderation answer blocks the prompt: 400 with reason "Parse error", category "Policy violation", a `VIO-` id and an input-blocked audit record |
| GenerateRoute.UnverifiableIsBlocked | app/api/sms_generate/route.ts:83-93 | unparseable moderator text or `null` gives 400 "Content could not be verified as safe", with no audit record |
| GenerateRoute.UnsafeVerdictIsBlocked | app/api/sms_generate/route.ts:55-81 | a parsed verdict without a truthy `safe` gives the full blocked body and its input audit record |
| GenerateRoute.EmptyGenerationFails | app/api/sms_generate/route.ts:128-133 | after a safe verdict an empty text gives 500 "Failed to generate SMS content" |
| GenerateRoute.LongGenerationRejected | app/api/sms_generate/route.ts:182-191 | after a safe verdict a text over 160 code units that is no refusal gives 400 with the text and its length |
| GenerateRoute.SuccessIff | app/api/sms_generate/route.ts:128-202 | 200 exactly when the prompt is safe and the generated text is non-empty, no refusal and at most 160 code units; the body echoes text and persona, and `length + charactersRemaining == 160` with `charactersRemaining >= 0` |
| GenerateRoute.RefusalBeforeLength | app/api/sms_generate/route.ts:151-191 | a refusal is reported as a "Refused generation" block with a `REF-` id and a refusal audit record, before the length is looked at |
| ClassifyRoute.BodyJson | app/api/sms_classify/route.ts:74-90 | a success body carries the classification; an error body carries the error and no classification |
| ClassifyRoute.FallbackForbidsSending | app/api/sms_classify/route.ts:69 | the fallback classification has `allow_send` false |
| ClassifyRoute.FallbackIsInformational | app/api/sms_classify/route.ts:67 | the fallback classification has the single category `Informational` |
| ClassifyRoute.ClassificationOf | app/api/sms_classify/route.ts:61-72 | parsed text is returned as is; unparseable text gives a classification with `allow_send` false |
| ClassifyRoute.Post | app/api/sms_classify/route.ts:3-92 | 200 exactly for a readable body with a non-empty message and a non-blank model answer; a 200 echoes the message and the timestamp and carries the parsed classification or the fallback; an unreadable body gives 500 with its error, and a thrown model call 500 with the error's message |
| ClassifyRoute.MissingMessageIgnoresModel | app/api/sms_classify/route.ts:7-12 | a missing or empty message gives 400 "Message is required", whatever the model gives |
| ClassifyRoute.UnparseableFailsSafe | app/api/sms_classify/route.ts:61-82 | unparseable text gives 200 with `categories ["Informational"]` and `allow_send` false |
| ClassifyRoute.UnparseableGivesFallback | app/api/sms_classify/route.ts:61-82 | text that is not JSON is answered with 200, the message, the fallback classification and the timestamp |
| ClassifyRoute.BlankAnswerIs500 | app/api/sms_classify/route.ts:52-59 | a blank answer gives 500 "Failed to classify SMS content" |
| Campaign.Normalize | components/campaign-builder.tsx:247-258 | sending is allowed exactly for `allow_send === true`; the category is the array's first element (`undefined` for an empty array), a truthy non-array value itself, or "Unknown" |
| Campaign.OnlyTrueAllowsSending | components/campaign-builder.tsx:257 | any `allow_send` other than the boolean `true` forbids sending |
| Campaign.Reclassification | components/campaign-builder.tsx:81-122 | a new classification exactly for a received `ok` reply with truthy classification data, and then it is the normalised one |
| Campaign.BlockedCopy | components/campaign-builder.tsx:194-211 | a missing category gets the generic copy; a category that is not a string makes `toLowerCase` throw |
| Campaign.FirstMatchFrom | components/campaign-builder.tsx:196-208 | from any row on, the reference table yields that row's copy when its keyword occurs and otherwise defers to the rows after it |
| Campaign.BlockedCopyIsFirstMatch | components/campaign-builder.tsx:196-208 | for a string category the copy is the first match, in the order adult, gambling, political, fraud, illegal, of the lower-cased category, else the generic copy |
| Campaign.AdultWins | components/campaign-builder.tsx:198-199 | a category naming `adult` gets the adult copy whatever else it names |
| Campaign.NoKeywordGivesGeneric | components/campaign-builder.tsx:196-208 | a category naming none of the five words gets the generic copy |
| Campaign.ErrorDisplay | components/campaign-builder.tsx:268-275 | a message with the marker is shown verbatim; otherwise the hint is appended unless the message mentions OpenAI |
| Campaign.ErrorDisplayNonEmpty | components/campaign-builder.tsx:270-275 | the message shown after a failure is never empty |
| Campaign.PolicyCopiesShownVerbatim | components/campaign-builder.tsx:270-272 | every keyword copy carries the marker and is shown exactly as written |
| Campaign.GenericCopyHasNoMarker | components/campaign-builder.tsx:196 | the generic copy carries no marker |
| Campaign.GenericCopyNamesNoProvider | components/campaign-builder.tsx:274 | the generic copy does not mention OpenAI |
| Campaign.GenericCopyGetsHint | components/campaign-builder.tsx:270-275 | the generic copy is shown with the configuration hint appended |
| Campaign.ErrorOf | components/campaign-builder.tsx:214 | a truthy error field gives `String` of it; a falsy one gives the fallback text |
| Campaign.GenerateOutcome | components/campaign-builder.tsx:167-263 | success exactly when generation replied `ok` with a truthy message and classification replied `ok` with truthy data; it then holds the message and the normalised classification; a blocked reply gives the copy for its category |
| Campaign.GenerationFailureIgnoresClassifier | components/campaign-builder.tsx:192-221 | a failed generation gives the same error whatever the classifier would say |
| Campaign.BlockedRouteBodyUsesCopy | components/campaign-builder.tsx:192-211 | a blocked body from the generation route produces the copy for its category |
| Campaign.RefusalTailLacksF | app/api/sms_generate/route.ts:172 | after its fourth character the refusal category has no `f` in either case |
| Campaign.RefusalLacksFraud | app/api/sms_generate/route.ts:172 | the lower-cased refusal category does not contain `fraud` |
| Campaign.MissingLRulesOut | components/campaign-builder.tsx:198-206 | a category without `l`, in either case, names neither adult, illegal, gambling nor political |
| Campaign.RefusalLacksL | app/api/sms_generate/route.ts:172 | the refusal category has no `l` in either case |
| Campaign.RefusalCategoryIsGeneric | components/campaign-builder.tsx:196-208 | the refusal category "Refused generation" gets the generic copy |
| Campaign.RefusalShowsGenericCopy | app/api/sms_generate/route.ts:168-178 | a refusal detected by the generation route reaches the user as the generic copy with the hint appended |
| Campaign.UnparseableClassifierBlocksSending | components/campaign-builder.tsx:224-258 | when the classifier's text is not JSON, the SMS is shown as Informational without permission to send |
| Campaign.GeneratedRouteBodyIsContent | components/campaign-builder.tsx:218-259 | a success body's message becomes the SMS content |
| Campaign.Provisional | components/campaign-builder.tsx:142-150 | the SMS takes the edited text and loses its permission to send, keeping its category |
| Campaign.CommitIdle | components/campaign-builder.tsx:130-165 | a commit in which neither effect has work only records the dependencies and clears the timer |
| Campaign.CommitUi | components/campaign-builder.tsx:130-165 | defined as one commit: nothing when no dependency changed; otherwise the init effect fills an empty editor, then the edit effect installs the provisional SMS and a timer; `CommitIdle`, `CommitInit` and `CommitEdit` state each case |
| Campaign.SettleUi | components/campaign-builder.tsx:130-165 | defined as two commits; `SettleUiRests` and `SettleUiIdempotent` state that this reaches rest |
| Campaign.CommitInit | components/campaign-builder.tsx:130-134 | a commit in which the init effect fires fills the editor from the SMS |
| Campaign.CommitEdit | components/campaign-builder.tsx:137-162 | a commit in which the edit effect fires replaces the SMS by the provisional one and schedules the timer |
| Campaign.SettleUiRests | components/campaign-builder.tsx:130-165 | after the commits that follow an event the effects are at rest and no debounce timer is left; the rest of the state is untouched, and the SMS and editor hold what the effect that fired wrote |
| Campaign.SettleIdle | components/campaign-builder.tsx:130-165 | settling with no effect work only records the dependencies |
| Campaign.CommitKeepsTheRest | components/campaign-builder.tsx:130-165 | a commit changes only the SMS, the editor, the timer and the recorded dependencies |
| Campaign.SettleUiIdempotent | components/campaign-builder.tsx:130-165 | at rest, further commits change nothing |
| Campaign.Displayed | components/campaign-builder.tsx:569 | the preview shows the edited text when it is non-empty, else the SMS content |
| Campaign.SendEnabled | components/campaign-builder.tsx:710 | defined as: trimmed recipient non-empty, not sending, not re-classifying, and the displayed text at most 160 code units |
| Campaign.SendRequest | components/campaign-builder.tsx:284-296 | a send request with the edited text and the recipient exactly when the button is enabled (trimmed recipient non-empty, not sending, not re-classifying, displayed text at most 160 code units) and the edited text is not blank |
| Campaign.SendsClassifiedText | components/campaign-builder.tsx:284-296 | in every reachable state a send request carries exactly the text the permission to send was computed for, and it fits in 160 code units |
| Campaign.Landed | components/campaign-builder.tsx:155-161 | a landed re-classification attaches the new verdict to the captured text and ends the request |
| Campaign.LandedSettles | components/campaign-builder.tsx:130-165 | after a re-classification lands and the effects run, the invariant holds with the captured text as the classified one, and an editor still showing that text keeps the new verdict |
| Campaign.ViewChangeKeepsValid | components/campaign-builder.tsx:130-165 | changing only what the two effects do not watch keeps the invariant, provided step 4 still has an SMS, and starts no timer or request |
| Campaign.CampaignBuilder.constructor | components/campaign-builder.tsx:25-36 | starts on step 1 with empty campaign data, no SMS, no flags set and an empty editor, valid and quiescent |
| Campaign.CampaignBuilder.Commit | components/campaign-builder.tsx:130-165 | one commit of the effects on the component's state |
| Campaign.CampaignBuilder.Settle | components/campaign-builder.tsx:130-165 | the commits after an event, as two commits |
| Campaign.CampaignBuilder.WriteEffects | components/campaign-builder.tsx:130-165 | writes back the values a commit may change |
| Campaign.CampaignBuilder.WriteOutputs | components/campaign-builder.tsx:130-165 | sets the SMS, the editor text and the debounce timer only |
| Campaign.CampaignBuilder.WriteDeps | components/campaign-builder.tsx:130-165 | records the SMS identity and the dependencies the effects ran with, nothing else |
| Campaign.CampaignBuilder.SelectPersona | components/campaign-builder.tsx:67-72 | sets only the persona, clears the error and moves to step 2 |
| Campaign.CampaignBuilder.SelectCampaignType | components/campaign-builder.tsx:74-79 | sets only the campaign type, clears the error and moves to step 3 |
| Campaign.CampaignBuilder.Back | components/campaign-builder.tsx:484-487 | goes back one step and clears the error, nothing else |
| Campaign.CampaignBuilder.TypeBrief | components/campaign-builder.tsx:512-515 | stores the brief and clears the error |
| Campaign.CampaignBuilder.ClickGenerate | components/campaign-builder.tsx:540-541 | a request with persona and brief is issued exactly when the brief is not blank and no generation is running, and generation is then marked running |
| Campaign.CampaignBuilder.ShowGenerated | components/campaign-builder.tsx:252-262 | stores the SMS, moves to step 4, fills the editor and ends generation |
| Campaign.CampaignBuilder.StoreSms | components/campaign-builder.tsx:253-259 | stores a new SMS object whose text is the one its classification was computed for |
| Campaign.CampaignBuilder.ShowError | components/campaign-builder.tsx:263-281 | shows the displayed error, schedules its clearing and ends generation |
| Campaign.CampaignBuilder.GenerateFinished | components/campaign-builder.tsx:167-282 | step 4 is entered only for a successful outcome, with the SMS and the editor holding the generated text; a failure leaves the step unchanged and shows a non-empty message |
| Campaign.CampaignBuilder.ErrorTimerFires | components/campaign-builder.tsx:278 | a clearing timer empties the error message |
| Campaign.CampaignBuilder.DismissError | components/campaign-builder.tsx:391 | the close button empties the error message |
| Campaign.CampaignBuilder.ToggleEdit | components/campaign-builder.tsx:583-588 | flips only the editing flag, since the editor is already filled |
| Campaign.CampaignBuilder.Edit | components/campaign-builder.tsx:137-165 | non-blank text that differs from the SMS becomes the SMS content with the permission to send withdrawn, category kept; an empty editor is refilled from the SMS; no timer survives the re-render |
| Campaign.CampaignBuilder.Reset | components/campaign-builder.tsx:611-614 | the editor takes the current SMS content, which an earlier edit has already replaced, and closes |
| Campaign.CampaignBuilder.LeaveReview | components/campaign-builder.tsx:724-729 | step 3, editor emptied and closed, error cleared |
| Campaign.CampaignBuilder.BackToBrief | components/campaign-builder.tsx:724-729 | step 3 with the editor closed and the error cleared; the init effect refills the editor from the SMS; campaign data and recipient are kept |
| Campaign.CampaignBuilder.TypeRecipient | components/campaign-builder.tsx:686 | stores the recipient number only |
| Campaign.CampaignBuilder.ClickSend | components/campaign-builder.tsx:284-296 | issues exactly the request `SendRequest` computes and marks sending as under way; a request carries the text the permission was computed for, of at most 160 code units |
| Campaign.CampaignBuilder.StartSending | components/campaign-builder.tsx:287 | marks sending as under way and nothing else, keeping the invariant |
| Campaign.CampaignBuilder.SendFinished | components/campaign-builder.tsx:311-313 | ends sending |
| Campaign.CampaignBuilder.RecheckTimerFires | components/campaign-builder.tsx:153-154 | a request for the captured text is issued exactly when that text is not blank, and re-classification is then marked running |
| Campaign.CampaignBuilder.DropTimer | components/campaign-builder.tsx:82 | for blank captured text only the timer goes away |
| Campaign.CampaignBuilder.StartRecheck | components/campaign-builder.tsx:82-84 | for non-blank captured text the request starts and re-classification is marked running, keeping the invariant |
| Campaign.CampaignBuilder.ApplyClassification | components/campaign-builder.tsx:156-160 | the SMS takes the captured text and the new classification |
| Campaign.CampaignBuilder.RecheckFinished | components/campaign-builder.tsx:155-161 | a failed re-classification only ends the request; a new classification replaces the SMS's text and verdict, after which the effects run |
| Campaign.CampaignBuilder.Land | components/campaign-builder.tsx:155-161 | the new classification replaces the SMS's text and verdict, then the effects run; the invariant holds afterwards |
| Campaign.CampaignBuilder.Arrive | components/campaign-builder.tsx:155-161 | the request ends and the SMS takes the captured text and the new classification, which is now the classified text |
| SignupForm.InitialFormData | components/signup-form.tsx:22-33 | every field present, every text empty, terms not accepted |
| SignupForm.WithField | components/signup-form.tsx:39-42 | the named field takes the value and every other field keeps its own |
| SignupForm.IsPasswordValid | components/signup-form.tsx:57-64 | defined as: at least 12 code units, a digit, one of `!@#$%^&*` and a capital; the witness lemmas below show each rule is needed |
| SignupForm.SampleLength | components/signup-form.tsx:58 | the sample's `length` is its size |
| SignupForm.LengthIsNeeded | components/signup-form.tsx:58 | eleven characters with all three kinds are refused; twelve are accepted |
| SignupForm.DigitIsNeeded | components/signup-form.tsx:59 | without a digit an otherwise valid password is refused |
| SignupForm.SpecialIsNeeded | components/signup-form.tsx:60 | without one of `!@#$%^&*` an otherwise valid password is refused, and `?` does not count |
| SignupForm.UpperCaseIsNeeded | components/signup-form.tsx:61 | without a capital an otherwise valid password is refused |
| SignupForm.LengthCountsCodeUnits | components/signup-form.tsx:58 | `length` counts UTF-16 code units: an eight-character password with astral characters passes |
| SignupForm.AstralLength | components/signup-form.tsx:58 | each character outside the Basic Multilingual Plane counts twice |
| SignupForm.EnabledMeansValid | components/signup-form.tsx:282 | an enabled button means the form is idle, the terms are ticked and the password has length 12 or more, a digit, a special character and a capital |
| SignupForm.InitiallyDisabled | components/signup-form.tsx:282 | a fresh form cannot be submitted |
| SignupForm.Disabled | components/signup-form.tsx:282 | defined as: loading, or the terms not ticked, or the password failing the rule |
| SignupForm.OtherFieldsKeepGating | components/signup-form.tsx:38-43 | changing any field other than password or terms leaves the button as it was |
| SignupForm.SignupForm.constructor | components/signup-form.tsx:22-36 | starts with the initial form data, the password hidden and not loading |
| SignupForm.SignupForm.HandleInputChange | components/signup-form.tsx:38-43 | only the named field changes, to the given value |
| SignupForm.SignupForm.TogglePasswordVisibility | components/signup-form.tsx:179 | flips only the visibility flag |

## Left out

- Model calls: the two models of the generation route and the classifier are parameters (`Llm.ModelCall`). Their prompts, model names and sampling settings are not modelled.
- `JSON.parse` is a parameter (`Json.Parse`): either a value or a parse failure. Parsing itself is not modelled.
- The Semaphore `fetch` and its URL-encoded body are a parameter (`Semaphore.Exchange`): it threw, or it replied with its `ok` flag and its decoded body. `GatewayOutcome` turns that into the result of `sendSMS`, including the `TypeError` of reading `message` on a `null` body.
- The environment (`NODE_ENV`, `SMS_TEST_MODE`, `SEMAPHORE_API_KEY`), `Math.random` message ids, `Date.now()` and ISO timestamps are parameters. A timestamp is kept as the string the caller supplies.
- The one-second simulated delay in test mode, the two-second delay of the sign-up submit, and the five-second error timeout are not modelled as time. The error timeout is an event, `ErrorTimerFires`.
- `console.log` audit output and `alert()` calls are not modelled. An audit record is an abstract `AuditEntry` value without timestamps or request headers.
- JSX rendering, styling, the `isTestMode` hostname check and the test-number buttons are left out. Only the handlers and the enabled conditions of buttons are modelled.
- React scheduling: effects run synchronously as commits after each event. Batching, concurrency between in-flight requests and unmount are not modelled.
- Only one generation or one re-classification request can be in flight at a time. Overlapping requests are out of scope.
- Request bodies: a field that is not a string, or is a JSON `null`, is not modelled. Each field is a string or absent.
- JSON numbers are integers. Fractional and non-finite numbers are out of scope.
- Json.ToJsString: an integer of magnitude 10^21 or more prints with all its digits, where JavaScript's `String()` switches to exponent notation (`1e+21`). Integers above 2^53, which no double holds exactly, are also in the model's domain. Rendering them as JavaScript does needs IEEE 754 double rounding and the shortest round-trip digit generation, which is floating point and left out with it. Such a number reaches what the user sees only inside a model reply's `reason` or an `error` field.
- Strings are sequences of Unicode scalar values, so a JavaScript string holding an unpaired surrogate (from `JSON.parse("\"\\ud800\"")` or pasted editor text) is outside the model; `JsLength` counts code units only for well-formed text.
- `Json.ToJsString`: objects render as `[object Object]`. Cyclic values and `toString` overrides are out of scope.
- GenerateOutcome: stores `String(message)` as the SMS content, where the component keeps the raw value of `message`. The two differ only for a non-string `message`, which the generation route never sends: its success body always carries a string.
- `JSON.stringify` leaving out `undefined` fields is not modelled: `BodyJson` builds the objects the client reads back directly.
- `JsText.ToLower` lower-cases only A-Z. The full Unicode case mapping of `toLowerCase` is out of scope.
- `Campaign.NotAStringError` and `Json.NullRead`: `TypeError` texts are written as V8 phrases them. Other engines word them differently.
- `handleSendSMS`'s alert texts and the `success` field of the send reply are not modelled. `SendFinished` only ends the sending state.
- The sign-up form's `handleSubmit` is a placeholder with a fixed delay and is not modelled.
- The chat page, the tool list, the constants and the fetch wrappers in config/ are not part of this model.
