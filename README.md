# Playwright helper core, modelled in Dafny

This project models the core of a Playwright test boilerplate: the `Common` helper
class every page object uses (`src/helpers/common.ts`), the example form page built on it
(`src/pages/examples/ExamplePage.ts`) and the password generator of the API page object
(`src/pages/examples/ApiPage.ts`). The browser is not modelled. Each Playwright primitive
becomes an input. The element a locator designates is an abstract `Snapshot`: its match
count, its visibility and enabledness checks, whether `focus()` succeeds, and what
`inputValue()` and `textContent()` return. Similar inputs stand for the outcomes of `fill`,
`goto`, `click`, `press` and `scrollIntoViewIfNeeded`: each one either throws (an `Error` or a
`TimeoutError`) or returns. When it returns, the input also gives what the page then shows.
`fill` leaves the element's value and text. `goto` loads a new document with its own elements,
and focus is on none of them. A click, a key press or a scroll leaves the page's elements and
URL, so a click can load another page. The helpers' `informLog` and `alertLog` calls become
entries appended to a log.

Files:

- `js_string.dfy`: the JavaScript string operations the code relies on.
  - `\s` white space (the ECMA-262 WhiteSpace and LineTerminator code points).
  - `trimEnd`, `indexOf` for one character, and `split` on one character (used to state the host rule).
- `url.dfy`: `isValidUrl`. A deterministic recogniser, the language of its regular expression
  written group by group, and the proof that the two agree on every string.
- `url_facts.dfy`: what that pattern accepts and rejects: white space, host labels,
  top-level label, scheme, port and path. It also proves the concrete cases the helpers
  are meant to handle.
- `helpers.dfy`: `Common`.
  - Every helper is a pure step function from a `PageState` (elements, focus, URL, log) to
    an outcome and the next state. It follows the helper's branches, error conditions and
    log messages.
  - The class `Common` holds that state in fields. Each of its methods is proved to
    implement its step function.
- `example_page.dfy`: `ExamplePage`.
  - `verifyTheValue`, and the round trip the form validation relies on.
  - `fillInTextBox` and `validateFillInTextBox` as sequences of awaited helper calls that
    stop at the first one that throws.
- `api_page.dfy`: `generateStrongPassword`, written as a loop over the random draws. Its
  shuffle is a permutation given as input.

Errors are datatypes (`Failure`). The exact messages come from rendering functions:
`CatchPrefix`, `ReasonText` and `Rendered`, which is JavaScript's `'' + error`: the error's
name, a colon, a space, then its message.

## Model

| member | source | states |
|---|---|---|
| JsString.IsJsSpace | src/helpers/common.ts:182 | the characters JavaScript's `\s` matches and `trimEnd` removes: the ECMA-262 WhiteSpace and LineTerminator code points (a definition) |
| JsString.TrimEnd | src/pages/examples/ExamplePage.ts:54 | the result is a prefix of the input with no trailing white space, and everything it removes is white space |
| JsString.TrimEndUnique | src/pages/examples/ExamplePage.ts:54 | those three properties determine the result of `trimEnd` |
| JsString.TrimEndKeeps | src/pages/examples/ExamplePage.ts:54 | a string without trailing white space is its own `trimEnd` (idempotence) |
| JsString.TrimEndAppend | src/pages/examples/ExamplePage.ts:54 | trimming only touches the end: text in front of a non-empty trimmed part is kept |
| JsString.IndexOf | src/pages/examples/ExamplePage.ts:52 | -1 exactly when the character is absent, otherwise its first position |
| Url.IsValidUrl | src/helpers/common.ts:177-185 | the recogniser: strip an optional `http://` or `https://`, then check the rest (a definition; its meaning is stated by the lemmas below) |
| Url.ValidAfterScheme | src/helpers/common.ts:180-182 | the host runs to the first `:` or `/`; it must be valid, and so must what follows (a definition) |
| Url.ValidHost | src/helpers/common.ts:180 | a label, a dot, then the top-level label or another host (a definition) |
| Url.ValidPortAndPath | src/helpers/common.ts:181-182 | empty; or `/` and no white space; or `:`, 1 to 5 digits, then nothing or `/` and no white space (a definition) |
| Url.MatchesUrlPattern | src/helpers/common.ts:178-183 | the anchored pattern written group by group: a string matches iff it splits into an optional `http://` or `https://`, a host of dot-terminated labels ending in a top-level label of two or more letters, an optional `:` and 1 to 5 digits, and an optional `/` path free of white space (a definition, the reference `IsValidUrlDecidesPattern` ties the recogniser to) |
| Url.IsValidUrlDecidesPattern | src/helpers/common.ts:177-185 | the recogniser accepts exactly the strings the anchored pattern `^(https?://)?(([a-zA-Z0-9-]+)\.)+[a-zA-Z]{2,}(:[0-9]{1,5})?(/[^\s]*)?$` matches |
| Url.RecognisedIsPattern | src/helpers/common.ts:177-185 | every accepted string splits into the four groups of the pattern |
| Url.PatternIsRecognised | src/helpers/common.ts:177-185 | every string the pattern matches is accepted |
| Url.ValidHostMatches | src/helpers/common.ts:180 | a recognised host is in the language of the host group |
| Url.MatchesValidHost | src/helpers/common.ts:180 | a string in the language of the host group is a recognised host |
| Url.HostGroupEndsAtDelimiter | src/helpers/common.ts:180-182 | the host group ends at the first `:` or `/`, so each accepted string has one parse |
| Url.SchemeGroupIsStripped | src/helpers/common.ts:179 | the recogniser strips exactly the optional `http://` or `https://` group |
| UrlFacts.ValidUrlShape | src/helpers/common.ts:177-185 | an accepted string has no white space and contains a dot |
| UrlFacts.SpaceRejected | src/helpers/common.ts:177-185 | a string with any JavaScript white space character is rejected |
| UrlFacts.NotAUrlRejected | src/helpers/common.ts:177-185 | "not a url" is rejected |
| UrlFacts.LocalhostRejected | src/helpers/common.ts:180 | "localhost" is rejected, because a host needs a dot |
| UrlFacts.ValidHostIsSplit | src/helpers/common.ts:180 | a host is valid iff splitting it at its dots gives at least two pieces: labels of letters, digits and hyphens, then a top-level label of two or more letters |
| UrlFacts.ValidHostHasDot | src/helpers/common.ts:180 | a valid host contains a dot |
| UrlFacts.TwoLabelHost | src/helpers/common.ts:180 | `label.x` is a valid host iff `x` is two or more ASCII letters |
| UrlFacts.ExampleComIsHost | src/helpers/common.ts:180 | "example.com" is a valid host |
| UrlFacts.ExampleCIsNotHost | src/helpers/common.ts:180 | "example.c" is not a valid host (one-letter top-level label) |
| UrlFacts.ExampleCom1IsNotHost | src/helpers/common.ts:180 | "example.com1" is not a valid host (digit in the top-level label) |
| UrlFacts.SchemeIsOptional | src/helpers/common.ts:179 | on a string without a scheme, putting `http://` or `https://` in front changes nothing |
| UrlFacts.AcceptedRestHasNoScheme | src/helpers/common.ts:179-182 | what follows the scheme of an accepted string does not itself start with a scheme |
| UrlFacts.DoubledSchemeRejected | src/helpers/common.ts:179 | a doubled scheme (`http://http://…`) is rejected |
| UrlFacts.OtherSchemeRejected | src/helpers/common.ts:179 | any other scheme followed by `://`, dotted or upper-case ones included, is rejected: a scheme without `:` or `/` is taken for the host, and the `:` after it starts no port |
| UrlFacts.UpperCaseSchemeRejected | src/helpers/common.ts:179 | the scheme is case-sensitive: "HTTP://example.com" is rejected |
| UrlFacts.HostThenSuffix | src/helpers/common.ts:180-182 | after a valid host, the string is accepted iff the rest is a valid port and path |
| UrlFacts.PortIsOneToFiveDigits | src/helpers/common.ts:181-182 | `:digits` with or without `/path` is accepted iff there are 1 to 5 digits and the path has no white space |
| UrlFacts.HostOnly | src/helpers/common.ts:180 | a string without scheme, `:` or `/` is accepted iff it is a valid host |
| UrlFacts.ExampleComIsValid | src/helpers/common.ts:177-185 | "example.com" is accepted |
| UrlFacts.ShortTopLevelRejected | src/helpers/common.ts:180 | "example.c" is rejected |
| UrlFacts.DigitInTopLevelRejected | src/helpers/common.ts:180 | "example.com1" is rejected |
| UrlFacts.PortAndPathAfterHost | src/helpers/common.ts:181-182 | "example.com:8080/path" is accepted |
| UrlFacts.PortAndPathAccepted | src/helpers/common.ts:179-182 | "https://example.com:8080/path" is accepted |
| UrlFacts.SixDigitPortRejected | src/helpers/common.ts:181 | "example.com:123456" is rejected |
| UrlFacts.EmptyPortRejected | src/helpers/common.ts:181 | "example.com:" is rejected |
| Helpers.ResolveLocator | src/helpers/common.ts:16-23 | a selector string is bound to the given page or frame; a locator is returned unchanged |
| Helpers.ResolveIsIdempotent | src/helpers/common.ts:16-23 | resolving an already-resolved locator, in any context, gives the same element |
| Helpers.Name | src/helpers/common.ts:45-168 | the `name` property of each helper method that `alertLog` is given: `locateElement`, `getElementText`, `sendKeys`, `sendKeyboardKeys`, `clickElement`, `scrollToElement`, `navigateTo` (a definition) |
| Helpers.AlertTag | src/helpers/common.ts:45 | what each `alertLog` call at lines 45, 86, 100, 116, 138, 154 and 168 logs: the method's name followed by the source file's name, `common.ts` (a definition) |
| Helpers.NoteText | src/helpers/common.ts:42 | the `informLog` texts at lines 42, 81, 83, 114, 135, 152 and 166, spelling and the trailing space of line 135 included (a definition) |
| Helpers.EntryText | src/helpers/common.ts:42-168 | the text a log entry carries: `NoteText` for an inform, `AlertTag` for an alert (a definition, used by the two sensitive-field lemmas) |
| Helpers.CatchPrefix | src/helpers/common.ts:46-169 | the fixed text each catch block puts before the caught error: lines 46, 87, 101-102, 117, 139, 155 and 169, spelling included (a definition) |
| Helpers.ReasonText | src/helpers/common.ts:75-148 | the messages of the errors the helpers raise themselves: lines 75-77, 130 and 146-148 (a definition) |
| Helpers.Message | src/helpers/common.ts:44-47 | `error.message`: a Playwright stand-in text, a helper's own message, or a catch prefix followed by the caught error rendered (a definition) |
| Helpers.Rendered | src/helpers/common.ts:46 | `'' + error`: the error's name, ": ", then its message (a definition) |
| Helpers.CaughtMessagePrefix | src/helpers/common.ts:44-47 | the error a catch block throws starts with that block's prefix, then the caught error's name, ": " and its message. The name is "Error" for the helpers' own errors and Playwright's assertions, and "TimeoutError" for an action whose wait ran out |
| Helpers.NavigateErrorPrefix | src/helpers/common.ts:153-156 | every navigation error starts with "Error navigating to " followed by the URL |
| Helpers.LocateStep | src/helpers/common.ts:25-48 | succeeds iff there is exactly one match, focus is present or can be moved there, and the element is visible, not hidden, enabled and not disabled. On success: the element, focus on it, one inform. On failure: an error from `locateElement`, exactly one alert, no inform. Elements and URL unchanged |
| Helpers.LocatedStaysLocatable | src/helpers/common.ts:25-48 | locating the returned locator again succeeds with the same element |
| Helpers.GetTextWith | src/helpers/common.ts:121-141 | succeeds iff the element is locatable and its text is non-null and non-empty and equals the expected text when one is given. The value is the element's text. The log gains the located inform and the text inform. A failure comes from `getElementText` with its alert |
| Helpers.GetTextStep | src/helpers/common.ts:121-141 | on success the last log entry reports the retrieved text |
| Helpers.EmptyExpectedSkipsComparison | src/helpers/common.ts:132-134 | an empty expected text behaves exactly like an absent one |
| Helpers.FillStep | src/helpers/common.ts:68-84 | after locating: succeeds iff `fill` succeeds and either `inputValue()` equals the text or the read-back text passes `getElementText`. The success message is the sensitive or the plain one. Only the filled element changes; the log only grows |
| Helpers.SendKeysWith | src/helpers/common.ts:54-89 | succeeds iff the element is locatable and the input is confirmed. On success the element reports the value and text `fill` left. A failure is the `sendKeys` error, ending with its alert. Other elements and the URL are unchanged |
| Helpers.SendKeysStep | src/helpers/common.ts:54-89 | `sendKeys` as written: succeeds iff locatable and confirmed |
| Helpers.SendKeysRedactedStep | src/helpers/common.ts:54-89 | `sendKeys` with the read-back of a sensitive field kept out of the log: succeeds iff locatable and confirmed |
| Helpers.EmptyTextAcceptsAnyContent | src/helpers/common.ts:72-74 | with an empty text, any non-empty content lets the fallback pass |
| Helpers.SensitiveTextReachesLog | src/helpers/common.ts:69-84 | as written, a sensitive text confirmed by the fallback appears in the log: the third entry added reads "Text retrieved from element: " followed by the text |
| Helpers.RedactedLogsNoText | src/helpers/common.ts:80-81 | corrected: for a sensitive field, every entry `sendKeys` adds to the log is one of a fixed set, and its text is one of five fixed strings, whatever was typed |
| Helpers.RedactionOnlyForSensitive | src/helpers/common.ts:54-89 | the correction changes nothing for a field that is not sensitive |
| Helpers.ActStep | src/helpers/common.ts:111-114 | the action succeeds iff Playwright's call does, and the page is then as the call left it (elements and URL). A failure is the operation's error around Playwright's, with its alert, and the page unchanged |
| Helpers.ClickStep | src/helpers/common.ts:107-119 | succeeds iff locatable and the click succeeds. On success: the located and clicked informs, and the page as the click left it, possibly at another URL. On failure: a `clickElement` error and the page unchanged |
| Helpers.PressKeysStep | src/helpers/common.ts:91-105 | succeeds iff locatable and the press succeeds. Only the located inform is logged, and the page is as the press left it. Failure is a `sendKeyboardKeys` error for those keys, with the page unchanged |
| Helpers.ScrollStep | src/helpers/common.ts:159-171 | succeeds iff locatable and the scroll succeeds. Success logs the located and scrolled informs, with the page as the scroll left it. Failure is a `scrollToElement` error, with the page unchanged |
| Helpers.NavigateStep | src/helpers/common.ts:143-157 | succeeds iff the URL is valid and `goto` lands on a page whose URL equals it as a string (`toHaveURL` taken as exact equality). A landing loads a new document: the page then shows its elements, with focus on none of them. An invalid URL never reaches `goto`: it gives the "NOT a URL address" error and changes nothing but one alert. So does a `goto` that throws |
| Helpers.Common.constructor | src/helpers/common.ts:10-13 | a new helper has no focus and an empty log |
| Helpers.Common.Throw | src/helpers/common.ts:44-47 | a catch block appends its alert and wraps the caught error |
| Helpers.Common.LocateElement | src/helpers/common.ts:25-48 | outcome and new state are those of LocateStep |
| Helpers.Common.GetElementText | src/helpers/common.ts:121-141 | outcome and new state are those of GetTextWith |
| Helpers.Common.FillAndConfirm | src/helpers/common.ts:68-84 | outcome and new state are those of FillStep |
| Helpers.Common.SendKeys | src/helpers/common.ts:54-89 | outcome and new state are those of SendKeysStep (the source as written) when `redact` is false, and of SendKeysRedactedStep (the correction) when it is true |
| Helpers.Common.Act | src/helpers/common.ts:111-114 | outcome and new state are those of ActStep |
| Helpers.Common.ClickElement | src/helpers/common.ts:107-119 | outcome and new state are those of ClickStep |
| Helpers.Common.SendKeyboardKeys | src/helpers/common.ts:91-105 | outcome and new state are those of PressKeysStep |
| Helpers.Common.ScrollToElement | src/helpers/common.ts:159-171 | outcome and new state are those of ScrollStep |
| Helpers.Common.NavigateTo | src/helpers/common.ts:143-157 | outcome and new state are those of NavigateStep: after a landing, the new document's elements, no focus, and its URL |
| ExamplePage.ExtractValue | src/pages/examples/ExamplePage.ts:51-54 | the compared value has no trailing white space and is no longer than the text |
| ExamplePage.VerifyTheValue | src/pages/examples/ExamplePage.ts:51-56 | an expected value with trailing white space never passes |
| ExamplePage.ExtractAfterFirstColon | src/pages/examples/ExamplePage.ts:52-54 | only the first colon splits: after a colon-free caption, the value is the whole rest, later colons included, end-trimmed |
| ExamplePage.ExtractNoColon | src/pages/examples/ExamplePage.ts:52-54 | without a colon the whole text, end-trimmed, is the value |
| ExamplePage.ExtractRoundTrip | src/pages/examples/ExamplePage.ts:51-56 | caption + ":" + v gives back v when v has no trailing white space, leading white space included |
| ExamplePage.VerifyReceipt | src/pages/examples/ExamplePage.ts:51-56 | on such a text the check passes iff the expected value equals v |
| ExamplePage.Perform | src/pages/examples/ExamplePage.ts:22-27 | each awaited helper call with its default arguments: `navigateTo(url)`, `sendKeys(selector, text)` with `isSensitive` false on `this.page`, `clickElement(selector)` on `this.page` (a definition) |
| ExamplePage.Run | src/pages/examples/ExamplePage.ts:22-27 | awaiting calls in order: the run succeeds iff every call returned |
| ExamplePage.RunSplits | src/pages/examples/ExamplePage.ts:22-27 | a run splits after any call that returned: the prefix succeeds on its own and the rest continues from its state |
| ExamplePage.RunStopsAtFirstFailure | src/pages/examples/ExamplePage.ts:22-27 | a failed run is the successful prefix followed by the failing call; nothing after it is made |
| ExamplePage.RunKeepsUrl | src/pages/examples/ExamplePage.ts:23-26 | typing never moves the page: calls that do not navigate, and whose clicks land at the current URL, leave the page at that URL |
| ExamplePage.RunEndsWithClick | src/pages/examples/ExamplePage.ts:27 | a successful run that ends with a click leaves the page at the URL that click reached |
| ExamplePage.FillPlan | src/pages/examples/ExamplePage.ts:22-27 | the six awaited calls: navigate to `url`, type the four values into their own fields, then click submit (a definition; FillInTextBoxOrder states the order it imposes) |
| ExamplePage.FillInTextBox | src/pages/examples/ExamplePage.ts:15-28 | succeeds iff all six calls return. An invalid URL stops it before anything is typed, with elements and URL unchanged |
| ExamplePage.FillInTextBoxNavigatesFirst | src/pages/examples/ExamplePage.ts:22-27 | nothing is typed before navigation has landed on the URL. The four values are typed on that page, so submit is clicked there. A completed fill leaves the page where the click took it |
| ExamplePage.PerformReports | src/pages/examples/ExamplePage.ts:22-27 | a helper call that returns only adds to the log, and its last entry is its success message |
| ExamplePage.RunReportsInOrder | src/pages/examples/ExamplePage.ts:22-27 | a successful run keeps the log it began with and adds each call's success message in the order of the calls |
| ExamplePage.RunConfirmsTyping | src/pages/examples/ExamplePage.ts:23-26 | in a successful run every value typed was confirmed by `inputValue()` or the text read back |
| ExamplePage.FillInTextBoxOrder | src/pages/examples/ExamplePage.ts:22-27 | a completed fill logged, in this order: navigated to the URL, sent the full name, the email, the current address and the permanent address, then clicked. Each value was confirmed in the field given its own argument |
| ExamplePage.TypeKeepsReady | src/helpers/common.ts:54-89 | typing into a ready element whose input is confirmed returns, leaves the URL, and keeps every ready element ready |
| ExamplePage.TypingCompletes | src/pages/examples/ExamplePage.ts:23-26 | typing into ready elements, each input confirmed, completes; ready elements stay ready and the URL is kept |
| ExamplePage.FillInTextBoxCompletes | src/pages/examples/ExamplePage.ts:15-28 | from any page, a fresh one included, the fill completes when `goto` lands on the URL with the form ready, each input is confirmed and the click returns |
| ExamplePage.ValidateAll | src/pages/examples/ExamplePage.ts:30-49 | validation never changes elements or URL |
| ExamplePage.ValidateFillInTextBox | src/pages/examples/ExamplePage.ts:30-49 | validating the four paragraphs never changes elements |
| ExamplePage.AllMatchHead | src/pages/examples/ExamplePage.ts:36 | a passing validation read its first paragraph and the value matched |
| ExamplePage.AllMatchFirstShown | src/pages/examples/ExamplePage.ts:36 | a passing validation means the first paragraph shows its value, and the rest passes on a page with the same elements |
| ExamplePage.AllMatchMeansEveryValueShown | src/pages/examples/ExamplePage.ts:30-56 | a passing validation means every paragraph's text holds its expected value |
| ExamplePage.ShownValuesAllMatch | src/pages/examples/ExamplePage.ts:30-56 | conversely, ready paragraphs showing caption + ":" + value make the validation pass |
| ApiPage.ClassesAsWritten | src/pages/examples/ApiPage.ts:50-63 | the three alphabets are the literals of the source, and there are 70 characters in all |
| ApiPage.AllCharsAreTheClasses | src/pages/examples/ApiPage.ts:63 | `allChars` holds exactly the characters of the four classes |
| ApiPage.AllCharsClassified | src/pages/examples/ApiPage.ts:63 | positions 0-25, 26-51, 52-61 and 62-69 of `allChars` are the four classes |
| ApiPage.PasswordLength | src/pages/examples/ApiPage.ts:49-66 | the password has at least four characters and exactly `length` when that is 4 or more |
| ApiPage.GetRandomChar | src/pages/examples/ApiPage.ts:55 | the drawn character is in the string drawn from |
| ApiPage.Drawn | src/pages/examples/ApiPage.ts:57-66 | before the shuffle: upper-case, lower-case, digit and special character in that order, then padding, all password characters |
| ApiPage.PaddingDraw | src/pages/examples/ApiPage.ts:64-66 | each loop iteration appends the character its draw picks from `allChars` |
| ApiPage.SamePositionsSameCharacters | src/pages/examples/ApiPage.ts:68-71 | picking the same multiset of positions picks the same multiset of characters |
| ApiPage.Shuffle | src/pages/examples/ApiPage.ts:68-71 | `split('')`, `sort` with the random comparator, `join('')`: position `k` receives the character at `order[k]` (a definition) |
| ApiPage.ShuffleIsPermutation | src/pages/examples/ApiPage.ts:68-71 | the split/sort/join shuffle keeps the length and the multiset of characters |
| ApiPage.ShuffledDrawIsStrong | src/pages/examples/ApiPage.ts:57-71 | after the shuffle every character is a password character and each class is present |
| ApiPage.GenerateStrongPassword | src/pages/examples/ApiPage.ts:49-72 | the result is the shuffled draw, of length max(length, 4), with every character in `allChars` and each class present. The loop keeps its length equal to its counter, equal to the draws so far, and within the classes |
| ApiPage.ApiPage.constructor | src/pages/examples/ApiPage.ts:9-13 | the page object's password has the default length 12 and is strong |

## Left out

- Playwright itself is not modelled. Browser, DOM, auto-waiting, timeouts and the `Config` timeout become
  inputs: the element snapshot and the outcomes of `fill`, `goto`, `click`, `press` and
  `scrollIntoViewIfNeeded`.
- `isElementFocused` (common.ts:50-52) becomes the page's `focus` field. `focus()` either
  succeeds and moves focus, or fails, as the snapshot says.
- The clearing branch of `sendKeys` (common.ts:62-67) is left out: `keyboard.press('Control+A')`
  and `Meta+A`, or `fill('')`. It always precedes the real `fill`, and its effect is part of
  the `fill` outcome given as input. Errors raised by the clearing calls are not modelled
  separately.
- `delay` (common.ts:173-175) is left out, because it only waits on a timer.
- The messages of Playwright's own errors are stand-in texts (`CheckText`). Only the
  messages the helpers write themselves are exact. The error's name is modelled: `expect`
  assertions throw `Error`. For `fill`, `goto`, `click`, `press` and `scrollIntoViewIfNeeded`
  the name is part of the input.
- Helpers.LocateStep: a failed `focus()` is always named `TimeoutError`. `toHaveCount(1)` has
  just passed, so the element exists and `focus` can only fail when its wait runs out.
- Helpers.ActStep: a click, press or scroll may change the page's elements and URL, as its input
  says, but never moves focus. The elements after the action are whatever the input gives,
  not only changes to the element acted on.
- Helpers.NavigateStep: `toHaveURL(url)` is modelled as exact string equality of the landed
  URL with `url`. Playwright's matcher first normalises `url` with `new URL(url, baseURL)`, so
  `navigateTo("https://example.com")` passes on a page at `https://example.com/` but fails
  here with the URL-mismatch error. So do an upper-case host and an explicit default port.
  That normalisation belongs to Playwright and is not part of this model.
- Helpers.Common.NavigateTo: inherits the exact-equality reading of `toHaveURL` from
  `NavigateStep`, so it also fails where Playwright would accept a differently written URL.
- Logging: `informLog` and `alertLog` are log entries. Their console output and colouring in
  `src/helpers/logger.ts` are not part of this model.
- `createUser`, `generateToken` and `getUser` (ApiPage.ts:15-47) are left out. They are HTTP
  requests whose only logic is a status check.
- `Math.random` and the sort comparator are inputs. Each draw is given as the index it
  produces, which is below the string's length. The shuffle is given as the permutation it
  applies.
- ApiPage.PasswordLength: `length` is an integer. A fractional `length` would pad up to its
  ceiling, which is not modelled.
- `BasePage` and the tests are context only and are not part of this model. So are the
  configuration file, the response models and every other file.

## Findings

| source | as written | input that shows it | evidently intended | confidence | as-written member | corrected member |
|---|---|---|---|---|---|---|
| src/helpers/common.ts:69-84 | When `inputValue()` does not read back a sensitive text, `sendKeys` falls back to `getElementText`. That call logs "Text retrieved from element: " followed by the content, which is the sensitive text | `sendKeys(field, "s3cret", true)` on an element with no readable value whose text content is "s3cret" | with `isSensitive` true, no log line carries the text | not executed | Helpers.SensitiveTextReachesLog | Helpers.RedactedLogsNoText |
