# zendesk-actions `index.js`, modelled in Dafny

This project models the decision logic of the column-driven `index.js` iteration of a GitHub Action. The script takes the issue number from the `issue-number` input, from `payload.issue`, or from the project card's URL. It fetches that issue and reads a Zendesk ticket id from the start of the issue title. It also reads the project card from the event payload. When the card sits in the `qa` board column, the script is meant to set that ticket's status. As written, the `qa` branch throws before any status step (see Findings), and the status step itself, `setZendeskTicketStatus`, only logs.

The model follows the script function by function:

- `IssueNumber.GetIssueNumber` is `getIssueNumber`. It tries the `issue-number` input first, then the payload's truthy issue number, then the part of the card's `content_url` after its last `/`. The result is `None` (JavaScript `undefined`) only when the payload omits the card or its URL.
- `ZendeskId.GetZendeskId` is `getZendeskIdFromIssue`. It takes the text before the first `-` of the title and applies `parseInt` to it. A missing title, an empty title or a NaN result gives 0.
- `JsParseInt.ParseInt` is JavaScript's radix-less `parseInt`, following section 19.2.5 of ECMA-262. It skips leading white space and line terminators, reads an optional `+`/`-`, and strips a `0x`/`0X` prefix, which switches to radix 16. It then reads the longest digit run. No digits gives NaN, modelled as `None`.
- `JsString` models `split` on a one-character separator, with `join` as its inverse. `parts[0]` is `FirstSegment` and `parts.pop()` is `LastSegment`.
- `ProjectColumn.GetProjectColumn` is `getProjectColumnFromContext`. Its result is one of three things:
  - the message string (`Failure`), when the card or a truthy `column_id` is missing;
  - `undefined` (`Success(None)`), when the static two-entry table has no entry with that id;
  - the first table entry with that id.
- `TicketUpdate.UpdateTicketAsWritten` is `updateZendeskTicket` exactly as written. `TicketUpdate.UpdateTicket` is the evidently intended version (see Findings).
- `Action.Run` and `Action.RunAsWritten` model `run`, including its early returns. `run` is modelled as the value its promise settles to: a message plus the status call made, or the exception that rejects it. The issue fetch is a function parameter, and it returns an issue, no data, or a rejection.

The script does not stop when the ticket id is 0: it still calls `updateZendeskTicket`. The model follows the code here. In `getZendeskIdFromIssue`, the test `if (title_parts)` is always true because an array is an object. So the final `return 0` cannot run, and the model has no branch for it. Because `split` always returns at least one piece, `title_parts[0]` is always a string.

## Model

| member | source | states |
|---|---|---|
| JsString.Split | index.js:73 | `split` returns at least one piece, and no piece contains the separator |
| JsString.JoinSplit | index.js:73 | joining the pieces with the separator gives back the original string |
| JsString.SplitJoin | index.js:73 | splitting a join of separator-free pieces gives back those pieces |
| JsString.FirstSegment | index.js:73-75 | `title_parts[0]` is a separator-free prefix of the title, ending at the first `-` or at the end of the title |
| JsString.FirstSegmentOf | index.js:73-75 | for a title `p + rest`, with `p` free of `-` and `rest` empty or starting with `-`, the first piece is exactly `p` |
| JsString.LastSegment | index.js:19 | `split("/").pop()` is a `/`-free suffix of the URL, preceded by `/` or equal to the whole URL |
| JsString.LastSegmentOf | index.js:19 | for a URL `prefix + seg`, with `seg` free of `/` and `prefix` empty or ending in `/`, the popped piece is exactly `seg` |
| JsParseInt.SpaceRun | index.js:75 | `parseInt` skips the longest run of leading white space and line terminators |
| JsParseInt.DigitRun | index.js:75 | `parseInt` reads the longest run of digits of the current radix |
| JsParseInt.ParseInt | index.js:75 | without a `-` in the input, `parseInt` is NaN or non-negative |
| JsParseInt.ParseIntDecimal | index.js:75-80 | white space, an optional sign, then maximal decimal digits that are not the `0` of `0x`, read as the signed decimal value |
| JsParseInt.ParseIntHex | index.js:75-80 | white space, an optional sign, `0x`/`0X`, then maximal hex digits, read as the signed hexadecimal value |
| JsParseInt.ParseIntNoDigits | index.js:75-77 | with no decimal digit after the white space and the optional sign, the result is NaN |
| JsParseInt.ParseIntEmptyHex | index.js:75-77 | `0x` followed by no hex digit is NaN, not 0 |
| JsParseInt.ParseIntDecimalString | index.js:75-80 | `parseInt(String(n))` is `n` for every non-negative `n` |
| IssueNumber.GetIssueNumber | index.js:10-22 | a non-empty input is returned as given; otherwise a truthy payload issue number is returned; otherwise the card URL's `/`-free last segment, which is preceded by a `/` or is the whole URL; `undefined` only when the payload omits the card or its URL |
| IssueNumber.InputOverridesPayload | index.js:11-13 | with a non-empty input, the result does not depend on the payload |
| IssueNumber.CardUrlLastSegment | index.js:18-21 | without input or issue number, the result is the text after the card URL's last `/` |
| ZendeskId.GetZendeskId | index.js:69-84 | the id is never negative; a missing or empty title gives 0 |
| ZendeskId.ZendeskIdOfPrefix | index.js:73-80 | for a title `p-rest`, the id is `parseInt(p)`, or 0 when that is NaN; a title with no `-` is parsed whole |
| ZendeskId.ZendeskIdDecimal | index.js:73-80 | a title led by white space, an optional `+` and decimal digits gives the value of those digits |
| ZendeskId.ZendeskIdNoDigits | index.js:73-80 | a title whose text before the first `-` has no digits after white space and an optional `+` gives 0 |
| ZendeskId.ZendeskIdHex | index.js:73-80 | a title led by `0x` and hex digits gives their hexadecimal value |
| ZendeskId.ZendeskIdRoundTrip | index.js:69-84 | a title written as `<n>-<anything>` gives `n` |
| ProjectColumn.Filter | index.js:98-100 | the filter keeps exactly the table entries whose id equals `column_id` |
| ProjectColumn.FilterFirst | index.js:98-103 | the first entry with that id comes first in the filtered list |
| ProjectColumn.GetProjectColumn | index.js:87-104 | the message string exactly when the card or a truthy `column_id` is missing; otherwise a table entry with that id, or `undefined` only when no entry has it |
| ProjectColumn.ColumnTable | index.js:88-91 | id 15338077 is `qa`, id 15335031 is `open`, and every other non-zero id is `undefined` |
| TicketUpdate.UpdateTicketAsWritten | index.js:106-112 | the written function never reaches the status step: it throws a ReferenceError exactly for the `qa` column and a TypeError exactly for `undefined` |
| TicketUpdate.UpdateTicket | index.js:106-112 | the status step is called with the ticket id and `qa` exactly when the column is present and named `qa`; the message string and `open` do nothing |
| TicketUpdate.UpdateTicketFinding | index.js:106-112 | the two definitions agree wherever the written one returns; it throws exactly where the intended one sets a status or the column is `undefined` |
| Action.Run | index.js:34-67 | a rejection is only a TypeError or a failed fetch; any status call comes with "Job Completed" and status `qa` |
| Action.RunAsWritten | index.js:34-67 | the written `run` never resolves with a status call |
| Action.EarlyExits | index.js:45-59 | an `undefined` issue number resolves with "No issue number found, no action taken"; no issue data resolves with "No Issue found."; a failed fetch rejects |
| Action.RunSetsStatusIff | index.js:40-63 | a status call happens if and only if the repository is present, the issue number resolves, the fetch returns the issue and the column is `qa`; its id is the one read from the fetched title |
| Action.RunAsWrittenAgrees | index.js:61-63 | the written and intended `run` differ only where the written update throws |
| Action.QaColumnFinding | index.js:106-108 | for a `qa` card whose issue is fetched, the written `run` rejects with a ReferenceError, while the intended one sets the ticket to `qa` |
| Action.UnknownColumnFinding | index.js:97-107 | for a card in a column outside the table, the written `run` rejects with a TypeError, while the intended one completes without a call |

## Left out

- Network and runtime calls are not modelled: `core.getInput`, `github.context`, `github.getOctokit`, the octokit `issues.get` (and `getIssue`), the `axios` import and the empty `GetAPIRequest`. Their results are parameters: the input string, the payload and the `fetch` function. `getOctokit` throwing on an empty token is library behaviour and is left out too.
- `setZendeskTicketStatus` is not modelled, because it only logs. A call to it is recorded as a `StatusCall` value.
- The promise chain, `console.log` and `process.exit` at the end of the file are not modelled. `Action.Run` stops at the value `run()`'s promise settles to.
- `context` and `context.payload` are always objects in the Actions runtime. So the `!context || !context.payload` tests at index.js:93 are not modelled.
- JsParseInt.ParseInt: values are unbounded integers. The IEEE-754 rounding of very long digit runs is not modelled, and `-0` is read as 0.
- JsParseInt.IsJsWhiteSpace: characters are Unicode scalar values, not UTF-16 code units. Every white-space character `parseInt` skips is in the Basic Multilingual Plane, so the difference is invisible there.
- IssueNumber.GetIssueNumber: a JSON `null` for `project_card` or `content_url` is not modelled; `None` means the field is omitted, which is how GitHub's webhook payloads leave them out. With `null`, `getIssueNumber` would return `null`, which the `=== undefined` test at index.js:45 lets through to the fetch.
- ProjectColumn.GetProjectColumn: `column_id` is modelled as a JSON number. The loose `==` between a numeric table id and a string `column_id`, with its string-to-number conversion, is not modelled.
- Label-driven status mapping, follower payloads, audit logging and assignee extraction belong to later iterations of the Action and are not part of this file.

## Findings

| source | as written | input that shows it | evidently intended | confidence | as-written member | corrected member |
|---|---|---|---|---|---|---|
| index.js:106-108 | the parameter is spelled `zenedsk_id`, but the body passes `zendesk_id`, which is not in scope, so the `qa` branch throws a ReferenceError | a project card with `column_id` 15338077 (`qa`) whose issue is fetched | call the status step with the ticket id | high; not executed | Action.QaColumnFinding | TicketUpdate.UpdateTicket |
| index.js:97-107 | a `column_id` outside the table makes `column[0]` `undefined`, and reading `.name` from it throws a TypeError | a project card with `column_id` 1 whose issue is fetched | take no action for columns the table does not list | medium; not executed | Action.UnknownColumnFinding | TicketUpdate.UpdateTicket |
