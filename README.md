# Dot Update: a verified model of the update handler

Dot Update is a small Flask service for the agency Hunch. It receives an
email about a job through `POST /update`. With that email it:

1. looks the job up in the Airtable Projects table;
2. asks an Anthropic model to turn the email into a JSON analysis;
3. writes a row to the Updates table and patches the project's Stage,
   Status, Live Date and With Client? fields as the analysis says;
4. answers with the analysis plus the job's identity and two flags:
   `updateCreated` and `projectUpdated`.

This project models the logic between the remote calls, in Dafny. It then
proves what that logic guarantees. The remote calls are not executed. Each
one is a parameter that stands for its outcome: Airtable's decoded
response or a failure, the model's reply text or a failure, whether a
write succeeded, and what `json.loads` makes of a text.

Modules, one per part of `app.py`:

- `Wrappers`, `Json` (`json.dfy`): decoded JSON values and Python
  truthiness. Also `dict.get` and `str()` of a value, as the f-string in
  the 404 message uses it.
- `Fence` (`fence.dfy`): `strip_markdown_json`, with Python's
  `str.strip`, `split('\n', 1)` and `rsplit('```', 1)` written out over
  code points.
- `WorkingDays` (`working_days.dfy`): `get_next_working_day`. It is a loop
  method, proved against the function `AddWorkdays`. Dates are proleptic
  ordinals, as `date.toordinal()` gives them: ordinal 1 is Monday
  0001-01-01, and `date.max` is ordinal 3652059.
- `Airtable` (`airtable.dfy`): the record normalisation of
  `get_project_by_job_number`, the whitelist loop of
  `update_project_fields` (a `for` loop method), `create_update` and
  `update_project_fields`. Each returns its result and the Airtable
  requests it sends.
- `Handler` (`handler.dfy`): `update()`. It is a function from the
  request body, the configuration, `date.today()` and the remote outcomes
  to the HTTP response and the ordered list of calls made. The stages
  follow the source:
  - `Update`: lines 220-230;
  - `ForJob`: lines 232-259;
  - `Interpret`: lines 262-264 and 306-311;
  - `Analyse`: lines 267-302.

Two behaviours of the code are worth knowing:

- `strip_markdown_json` removes one fence per call, so calling it on its
  own result can change it again (`Fence.NotIdempotent`).
- The docstring of `update()` (line 218) calls `projectUpdated` "Boolean
  if project fields changed". The code at lines 180-182 forwards every
  whitelisted value that is not null, whether or not it differs from the
  project's current value, and reports True whenever the re-lookup finds
  the project and the PATCH (if any) succeeds
  (`Handler.PatchIgnoresCurrentValues`, `Handler.OnlyUnlistedKeys`,
  `Airtable.BuildUpdateFields`).

## Model

| member | source | states |
|---|---|---|
| `Json.PyStr` | app.py:239 | `str()` of a string is the string itself; of an integer, a decimal numeral (digits only, no leading zero unless it is `0`) whose value is the integer, with a leading `-` for a negative one |
| `Json.DigitsValueOfDigits` | app.py:239 | the decimal digits written for a natural number read back as that number |
| `Fence.Strip` | app.py:44 | `str.strip()` yields the slice between the first and last non-whitespace code points; everything dropped is Unicode whitespace, and the result neither starts nor ends with whitespace |
| `Fence.IndexOf` | app.py:46 | the first index of a character, `None` exactly when it does not occur |
| `Fence.AfterFirst` | app.py:46 | `split('\n', 1)[1]`: the result is the suffix that starts just after the first occurrence of the character, with no occurrence before it |
| `Fence.RFind` | app.py:48 | the start of the last occurrence of the fence marker, `None` exactly when there is none |
| `Fence.RSplitHead` | app.py:48 | `rsplit('```', 1)[0]`: the prefix that ends where the last occurrence starts, or the whole text when there is none |
| `Fence.DropOpening` | app.py:45-46 | text that does not start with the fence is unchanged; fenced text with a newline is cut just after its first newline; fenced text without one loses exactly the three backticks |
| `Fence.DropClosing` | app.py:47-48 | text that does not end with the fence is unchanged; otherwise everything from the last fence on is cut, so a trailing fence is cut exactly |
| `Fence.StripMarkdownJson` | app.py:42-49 | the result has no leading or trailing whitespace and is no longer than the input |
| `Fence.StripMarkdownJsonSlice` | app.py:42-49 | the result is a contiguous slice of the input |
| `Fence.StripIdempotent` | app.py:44 | stripping twice is stripping once |
| `Fence.StripPadded` | app.py:44 | whitespace padding around a trimmed text strips back to exactly that text |
| `Fence.StripAppendSpace` | app.py:49 | trailing whitespace does not change the strip |
| `Fence.NoFenceIsStrip` | app.py:44-49 | when the trimmed input neither starts nor ends with a fence, the result is exactly the trimmed input, so backticks inside it are untouched |
| `Fence.CleanInputIsFixed` | app.py:42-49 | trimmed text with no fence at either end comes back unchanged |
| `Fence.FencedBlock` | app.py:42-49 | a fence, a tag line, a body and a closing fence come back as the trimmed body |
| `Fence.FencedReply` | app.py:42-49 | a reply fenced as a block with any one-line tag (such as `json`) and a newline before the closing fence comes back as the inner text, trimmed |
| `Fence.NotIdempotent` | app.py:42-49 | a doubly fenced reply loses one fence per call, so a second call changes the first call's result |
| `WorkingDays.Weekday` | app.py:66 | `weekday()` of an ordinal lies in 0..6 and is congruent to the ordinal minus one modulo 7, so ordinal 1 (0001-01-01) is a Monday |
| `WorkingDays.NextWorkday` | app.py:64-66 | the first date after a given date whose weekday is Monday to Friday, at most three days on |
| `WorkingDays.NextWorkdayIsFirst` | app.py:64-66 | no working day lies before that date |
| `WorkingDays.AddWorkdays` | app.py:62-67 | zero or fewer working days leave the start unchanged; `n > 0` working days land on a Monday-to-Friday date between `n` and `3n` days after the start |
| `WorkingDays.AddWorkdaysMonotone` | app.py:63-67 | counting more working days never gives an earlier date, and never one before the start |
| `WorkingDays.CountAcrossGap` | app.py:65-66 | days skipped before the next working day add nothing to the count |
| `WorkingDays.CountMonotone` | app.py:65-66 | the number of working days up to a date grows with the date |
| `WorkingDays.CountBound` | app.py:65-66 | an interval holds no more working days than days |
| `WorkingDays.AddWorkdaysCounts` | app.py:60-68 | for `days >= 1` the result is a working day after the start, exactly `days` working days lie in (start, result], and no earlier date has that many |
| `WorkingDays.WeekCount` | app.py:66 | any seven consecutive days hold exactly five Monday-to-Friday days |
| `WorkingDays.DefaultDueSpan` | app.py:129-131 | five working days on is five to seven calendar days on |
| `WorkingDays.StepForward` | app.py:64-66 | one loop step reaches the next working day or stays short of it |
| `WorkingDays.NextWorkingDay` | app.py:60-68 | the loop returns `AddWorkdays(start, days)`, which is `start` when `days <= 0`; it fails exactly when that date lies past `date.max` (OverflowError) |
| `Airtable.FirstRecord` | app.py:88-95 | a record is found only when the body is a dict whose `records` is a non-empty list, and it is the first element of that list |
| `Airtable.ClientName` | app.py:98-100 | a missing `Client` gives `''`; a list-valued one gives its first element, or `''` when the list is empty; any other value is kept |
| `Airtable.Normalise` | app.py:95-112 | a project is built exactly when the record has an `id` and a `fields` dict; it carries the id, each present field copied (the client through `ClientName`, the round through `RoundOf`) and each missing field's default |
| `Airtable.RoundOf` | app.py:109 | a truthy `Round` is kept; a missing or falsy one (None, 0, `''`, ...) gives 0 |
| `Airtable.LookupProject` | app.py:75-116 | a project is found only with an API key and a successful query that has a first record; its round is truthy or 0 |
| `Airtable.LookupRequests` | app.py:77-86 | one Projects query is sent exactly when the key is configured |
| `Airtable.FirstRecordOfList` | app.py:88-94 | for a list body, the record used is the list's first element when that is a dict |
| `Airtable.LookupNothing` | app.py:77-92 | a missing API key or a falsy record list finds nothing |
| `Airtable.FirstRecordWins` | app.py:94 | the records after the first never affect the lookup |
| `Airtable.MissingFieldsDefault` | app.py:95-112 | for any body whose first record has an `id` and a `fields` dict, whatever other keys either carries, the project is found; each present field is copied and each missing field takes its default: the queried job number, `''`, 0, False, or None |
| `Airtable.NormaliseRecordOf` | app.py:95-112 | normalising the Airtable record of a normal-form project gives the project back |
| `Airtable.LookupRecordOf` | app.py:88-112 | looking up a normal-form project's record gives that project, whatever records follow it |
| `Airtable.MappedKeysAll` | app.py:172-177 | the keys of `field_mapping` are exactly Stage, Status, Live Date and With Client? |
| `Airtable.ProjectPatch` | app.py:179-182 | the reference payload: its keys are whitelisted, each value is copied from the updates and is not null, and every whitelisted key present with a non-null value is in it |
| `Airtable.BuildUpdateFields` | app.py:179-182 | the payload holds a key if and only if it is whitelisted and present in `updates` with a value that is not None; its value is copied unchanged; its keys are a subset of the whitelist |
| `Airtable.ProjectPatchIdempotent` | app.py:179-182 | filtering an already filtered payload changes nothing |
| `Airtable.ProjectPatchIgnores` | app.py:180-182 | keys outside the whitelist never affect the payload |
| `Airtable.StripUpdateKeys` | app.py:291-292 | the result has exactly the keys other than "Update" and "Update due", with unchanged values |
| `Airtable.PatchAfterStrip` | app.py:291-294 | dropping "Update" and "Update due" never changes the whitelisted payload |
| `Airtable.DueFor` | app.py:130-131 | a truthy due date is kept; otherwise the due date is five working days after today, which is five to seven calendar days on, and it fails exactly when that date passes `date.max` |
| `Airtable.CreateUpdate` | app.py:119-151 | with a key, one Updates row is posted, linked to the record, carrying the text, today's date and the due date; the result is True exactly when that row was posted and the post succeeded |
| `Airtable.UpdateProjectFields` | app.py:154-199 | the project is looked up again, then patched with the filtered payload only when it is found and the payload is not empty; the result is False when the re-lookup fails and True for an empty payload |
| `Airtable.PatchIsWhitelisted` | app.py:179-191 | every PATCH carries a non-empty map of whitelisted, non-null values copied from the updates |
| `Handler.ResultBody` | app.py:297-304 | the answer has exactly the analysis's keys plus the six added ones; every other key keeps its value; the added keys hold the job number, the job name, the two write outcomes, the Teams channel and the record id |
| `Handler.DueArgument` | app.py:274-276 | the due date is passed on exactly when `projectUpdates['Update due']` is truthy, and then unchanged |
| `Handler.CreateStep` | app.py:271-285 | without update text no row is written and `updateCreated` is False |
| `Handler.PatchStep` | app.py:288-294 | without keys besides "Update" and "Update due" nothing is patched and `projectUpdated` is False |
| `Handler.Analyse` | app.py:267-302 | the status is 200, 400 or 500, and nothing is written unless it is 200 |
| `Handler.Interpret` | app.py:262-311 | the status is 200, 400 or 500, and nothing is written unless it is 200 |
| `Handler.CallsUntilModel` | app.py:233-259 | the model call comes last, after only Projects queries |
| `Handler.ForJob` | app.py:232-311 | the status is 200, 400, 404 or 500, and nothing but queries and the model call happens unless it is 200 |
| `Handler.Update` | app.py:220-316 | the status is 200, 400, 404 or 500, and no Updates row or project patch is written unless it is 200 |
| `Handler.RequestChecks` | app.py:221-233 | a falsy job number answers 400 "No job number provided" whatever the email; with a job number, a falsy email answers 400 "No email content provided"; neither calls anything; a request with both goes on to the lookup; an unreadable body answers 500 |
| `Handler.NotFoundBody` | app.py:236-240 | the 404 body has exactly `error`, `jobNumber` and `message`; the error is `job_not_found`, the job number is echoed unchanged, and a string job number appears verbatim in the message |
| `Handler.UnknownJob` | app.py:235-240 | an unknown job answers 404 with `job_not_found` and the job number, after the lookup and before any model call |
| `Handler.ModelCallFails` | app.py:251-262 | a failed model call answers 500 after the lookup and the model call, with no write |
| `Handler.ModelReportedError` | app.py:267-268 | an analysis with a truthy `error` is answered as it is, with 400, and nothing is written |
| `Handler.InvalidJson` | app.py:306-311 | a reply that does not decode answers 500 "Claude returned invalid JSON" with the stripped reply as `raw_response`, and nothing is written |
| `Handler.InvalidFencedJson` | app.py:263-264 | for a fenced reply that does not decode, `raw_response` is the inner text, trimmed |
| `Handler.CreateDecision` | app.py:279-285 | an Updates row is written if and only if there is update text, the key is set and the due date exists; `updateCreated` is True only if there is text and the post succeeded |
| `Handler.CreateDueDate` | app.py:130-138 | the row links the project record and carries the text and today's date; its due date is the analysis's "Update due" when that is truthy, and otherwise five working days on (five to seven calendar days) |
| `Handler.PatchDecision` | app.py:288-294 | a PATCH goes to the record found by the second lookup and carries exactly the whitelisted non-null project updates, never "Update" or "Update due" |
| `Handler.PatchSent` | app.py:179-191 | a non-empty whitelisted payload is always sent when the second lookup finds the project |
| `Handler.NothingToPatch` | app.py:289-294 | project updates holding only "Update" and "Update due" cause no second lookup, no PATCH, and `projectUpdated` False |
| `Handler.OnlyUnlistedKeys` | app.py:184-186 | project updates with some key besides "Update" and "Update due" and no key on the whitelist still trigger the second lookup, patch nothing, and report `projectUpdated` True when the project is found |
| `Handler.PatchIgnoresCurrentValues` | app.py:166-191 | the patch depends only on which record the second lookup finds, not on its current field values |
| `Handler.SuccessBody` | app.py:274-304 | a 200 answer implies any `projectUpdates` was a dict; the answer is the analysis plus the six keys, with every other key unchanged |

## Left out

- HTTP, Flask routing and the remote services are not modelled. This
  covers `request.get_json`, every `httpx` call, `raise_for_status` and
  the Anthropic client. Each is a parameter that stands for its outcome.
- `json.loads` is the parameter `loads`. The handler's behaviour is proved
  for every such function.
- Timeouts are not modelled as time. The code sets them (60 s for the
  model client at line 29, 10 s for each Airtable call at lines 85, 143
  and 191); a call that times out raises, and the model covers that as a
  failure outcome: `FetchFailed`, `postOk` or `patchOk` false, or
  `ModelFailed`. Retries and concurrency are not modelled; the code has
  neither.
- Environment configuration is reduced to one boolean: whether the
  Airtable key is set. The model name, the base id and the table names are
  not modelled, and neither is loading the prompt file.
- `print` logging and the `/health` endpoint are not modelled. Both have
  no effect on results.
- Building the filter formula and the request headers is not modelled; it
  is plain string interpolation.
- `date.today()` is the parameter `today`. It is read once per request,
  although the source calls it twice (lines 131 and 137).
- Dates stay ordinals. `isoformat()` is not modelled, so a default due
  date is compared as a date, not as text.
- The prompt given to the model is not composed as text. The model call
  records the five values it is built from.
- JSON numbers are integers; floats are not modelled.
- `Json.PyStr`: arrays and objects are rendered as placeholders rather
  than as Python's `repr` of their contents. Only strings, integers,
  booleans and None are rendered exactly.
- Handler.InternalError: the catch-all 500 answer omits the `details`
  text, because `str(e)` of an arbitrary exception is not modelled. A
  decode error's message is carried as `details`.
- The "No response" fallback for `raw_response` (line 310) is not
  modelled. A JSONDecodeError can only come from line 264, after `content`
  is set.
- JSON object key order is not modelled. Maps are unordered, so the order
  of keys in `update_fields` and in the answer is not captured.
- The answer dict is updated in place at lines 297-302. Since nothing
  else holds that dict, this is modelled as successive map updates.
