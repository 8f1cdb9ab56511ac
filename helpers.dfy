/**
 * The `Common` helper class of src/helpers/common.ts: locating an element and acting on
 * it, reading its text, filling it in, and navigating.
 *
 * What Playwright does is not visible from this code, so each primitive it calls is an
 * input here: an element is a Snapshot of what `toHaveCount`, `toBeVisible`, `toBeHidden`,
 * `toBeEnabled`, `toBeDisabled`, `focus`, `inputValue` and `textContent` would report,
 * and the outcome of `fill`, `goto`, `click`, `press` and `scrollIntoViewIfNeeded` is a
 * parameter. The log that `informLog` and `alertLog` write is a sequence of entries.
 *
 * Each operation is specified by a pure function from a PageState to a Step (its outcome
 * and the new state), whose contract states the operation's rules; the class Common at the
 * end carries the same state in fields and updates it in place.
 */
module Helpers {
  import opened Wrappers
  import Url

  // ---------------------------------------------------------------------------
  // Locators
  // ---------------------------------------------------------------------------

  /** Where a selector is resolved: the page itself or a frame of it. */
  datatype Context = Page | Frame(frameSelector: string)

  /** A Playwright locator: a selector bound to the page or frame it is resolved in. */
  datatype Handle = Handle(context: Context, selector: string)

  /** The `string | Locator` argument of every helper. */
  datatype Locator = Raw(selector: string) | Resolved(handle: Handle)

  /** `resolveLocator`: a selector string is bound to `context`; a locator is kept as it is. */
  function ResolveLocator(loc: Locator, context: Context): (h: Handle)
    ensures loc.Raw? ==> h == Handle(context, loc.selector)
    ensures loc.Resolved? ==> h == loc.handle
  {
    match loc
    case Raw(selector) => Handle(context, selector)
    case Resolved(handle) => handle
  }

  /**
   * Resolving is idempotent: passing the locator a helper resolved back into a helper,
   * in any context, designates the same element.
   */
  lemma ResolveIsIdempotent(loc: Locator, context: Context, other: Context)
    ensures ResolveLocator(Resolved(ResolveLocator(loc, context)), other)
         == ResolveLocator(loc, context)
  {
  }

  // ---------------------------------------------------------------------------
  // Page state
  // ---------------------------------------------------------------------------

  /**
   * What Playwright reports about the elements a locator designates: how many there are,
   * the four visibility and enabledness checks, whether `focus()` succeeds, what
   * `inputValue()` returns (None: it throws, as on an element that is no input) and what
   * `textContent()` returns (None: null).
   */
  datatype Snapshot = Snapshot(
    count: nat,
    visible: bool, hidden: bool, enabled: bool, disabled: bool,
    focusable: bool,
    value: Option<string>, text: Option<string>)

  /** What a locator that matches nothing reports. */
  const Absent := Snapshot(0, false, true, false, true, false, None, None)

  /** The helper methods, as the alerts and the catch blocks name them. */
  datatype Operation =
    | LocateElement | GetElementText | SendKeys | SendKeyboardKeys(keys: string)
    | ClickElement | ScrollToElement | NavigateTo(url: string)

  /** What `informLog` is given on success. */
  datatype Note =
    | Located | TextRetrieved(text: string) | SentSensitive | Sent(text: string)
    | Clicked | Scrolled | Navigated(url: string)

  /** One line of the log: an `informLog` or an `alertLog` call. */
  datatype LogEntry = Inform(note: Note) | Alert(operation: Operation)

  /** The elements of the page, the element that has focus, the current URL and the log. */
  datatype PageState = PageState(
    elements: map<Handle, Snapshot>, focus: Option<Handle>, url: string, log: seq<LogEntry>)
  {
    function Lookup(h: Handle): Snapshot {
      if h in elements then elements[h] else Absent
    }
  }

  predicate LastIs(log: seq<LogEntry>, entry: LogEntry) {
    |log| > 0 && log[|log| - 1] == entry
  }

  // ---------------------------------------------------------------------------
  // Errors
  // ---------------------------------------------------------------------------

  /**
   * The name of an error Playwright throws: its `expect` assertions throw a plain `Error`;
   * its actions throw `TimeoutError` when their wait runs out and `Error` otherwise.
   */
  datatype ErrorName = PlainError | TimeoutError

  /** The Playwright calls whose failure the helpers catch. */
  datatype Check =
    | CountNotOne | FocusFailed | NotVisible | StillHidden | NotEnabled | StillDisabled
    | FillFailed | TextMismatch | GotoFailed | UrlMismatch
    | ClickFailed | PressFailed | ScrollFailed

  /** The errors the helpers throw with a message of their own. */
  datatype Reason = NoText | NotConfirmed(text: string) | NotAUrl(url: string)

  /**
   * A thrown error: one a Playwright call raised, one a helper raised with its own
   * message, or the one a helper's catch block throws around the error it caught.
   */
  datatype Failure =
    | Failed(check: Check, name: ErrorName)
    | Raised(reason: Reason)
    | Wrapped(catcher: Operation, cause: Failure)

  datatype Outcome<T> = Ok(value: T) | Err(error: Failure)

  /** The outcome of one helper call and the state it leaves behind. */
  datatype Step<T> = Step(result: Outcome<T>, state: PageState)

  /** A catch block: log the alert for `op` and throw its error around the caught one. */
  function Fail<T>(st: PageState, op: Operation, cause: Failure): (r: Step<T>)
    ensures r.result == Err(Wrapped(op, cause))
    ensures r.state.log == st.log + [Alert(op)] && LastIs(r.state.log, Alert(op))
  {
    Step(Err(Wrapped(op, cause)), st.(log := st.log + [Alert(op)]))
  }

  function Informed(st: PageState, note: Note): PageState {
    st.(log := st.log + [Inform(note)])
  }

  // ---------------------------------------------------------------------------
  // The texts
  // ---------------------------------------------------------------------------

  /** The method's `name` property. */
  function Name(op: Operation): string {
    match op
    case LocateElement => "locateElement"
    case GetElementText => "getElementText"
    case SendKeys => "sendKeys"
    case SendKeyboardKeys(_) => "sendKeyboardKeys"
    case ClickElement => "clickElement"
    case ScrollToElement => "scrollToElement"
    case NavigateTo(_) => "navigateTo"
  }

  /** What `alertLog` is given: the method's name followed by the source file's name. */
  function AlertTag(op: Operation): string {
    Name(op) + "common.ts"
  }

  function NoteText(note: Note): string {
    match note
    case Located => "Successfully located element"
    case TextRetrieved(text) => "Text retrieved from element: " + text + " "
    case SentSensitive => "Successfully sent keys to a sensitive field"
    case Sent(text) => "Successfully sent keys: " + text
    case Clicked => "Successfully clicked element"
    case Scrolled => "Successfully scrolled to element"
    case Navigated(url) => "Succesfully navigated to " + url
  }

  /** The text a log line carries. */
  function EntryText(entry: LogEntry): string {
    match entry
    case Inform(note) => NoteText(note)
    case Alert(op) => AlertTag(op)
  }

  /** What a catch block puts in front of the error it caught. */
  function CatchPrefix(op: Operation): string {
    match op
    case LocateElement => "Element not found. Received error: "
    case GetElementText => "Could not retrieve text from element. Received error: "
    case SendKeys => "Keys were not sent. Received error: "
    case SendKeyboardKeys(keys) =>
      "The keys '" + keys + "' wasnt send correct to the element. Received error: "
    case ClickElement => "Element could not be clicked. Received error: "
    case ScrollToElement => "Could not scroll to element. Recieved error: "
    case NavigateTo(url) => "Error navigating to " + url + " Received error: "
  }

  function ReasonText(reason: Reason): string {
    match reason
    case NoText => "Text does not exist"
    case NotConfirmed(text) =>
      "Failed to enter the text: \"" + text
      + "\". Neither inputValue() nor getElementText() confirmed the input."
    case NotAUrl(url) =>
      "Please provide a URL address.It seems right now you give a string that is NOT a URL address: "
      + url + " "
  }

  /** Stand-in texts for the messages of Playwright's own errors, which are not modelled. */
  function CheckText(c: Check): string {
    match c
    case CountNotOne => "toHaveCount(1) failed"
    case FocusFailed => "focus() failed"
    case NotVisible => "toBeVisible() failed"
    case StillHidden => "not.toBeHidden() failed"
    case NotEnabled => "toBeEnabled() failed"
    case StillDisabled => "not.toBeDisabled() failed"
    case FillFailed => "fill() failed"
    case TextMismatch => "toBe() failed"
    case GotoFailed => "goto() failed"
    case UrlMismatch => "toHaveURL() failed"
    case ClickFailed => "click() failed"
    case PressFailed => "press() failed"
    case ScrollFailed => "scrollIntoViewIfNeeded() failed"
  }

  function NameText(name: ErrorName): string {
    match name
    case PlainError => "Error"
    case TimeoutError => "TimeoutError"
  }

  /** `error.name`: what Playwright threw, or `Error` for the errors the helpers throw. */
  function NameOf(f: Failure): ErrorName {
    if f.Failed? then f.name else PlainError
  }

  /** `error.message`. A catch block concatenates its prefix and the caught error. */
  function Message(f: Failure): string
    decreases f, 0
  {
    match f
    case Failed(c, _) => CheckText(c)
    case Raised(reason) => ReasonText(reason)
    case Wrapped(op, cause) => CatchPrefix(op) + Rendered(cause)
  }

  /** `'' + error`: JavaScript renders an Error as its name, a colon, a space and its message. */
  function Rendered(f: Failure): string
    decreases f, 1
  {
    NameText(NameOf(f)) + ": " + Message(f)
  }

  /**
   * The message of an error a catch block threw starts with that block's prefix and goes on
   * with the caught error rendered: "Error: " for the helpers' own errors and Playwright's
   * assertions, "TimeoutError: " for an action whose wait ran out.
   */
  lemma CaughtMessagePrefix(op: Operation, cause: Failure)
    ensures CatchPrefix(op) <= Message(Wrapped(op, cause))
    ensures Message(Wrapped(op, cause))[|CatchPrefix(op)|..]
         == NameText(NameOf(cause)) + ": " + Message(cause)
    ensures !cause.Failed? || cause.name == PlainError ==>
      Message(Wrapped(op, cause))[|CatchPrefix(op)|..] == "Error: " + Message(cause)
    ensures cause.Failed? && cause.name == TimeoutError ==>
      Message(Wrapped(op, cause))[|CatchPrefix(op)|..] == "TimeoutError: " + Message(cause)
  {
    var m := Message(Wrapped(op, cause));
    assert m == CatchPrefix(op) + Rendered(cause);
    assert m[|CatchPrefix(op)|..] == Rendered(cause);
    assert NameText(PlainError) + ": " == "Error: ";
    assert NameText(TimeoutError) + ": " == "TimeoutError: ";
  }

  /** Every navigation error starts with "Error navigating to " and the URL. */
  lemma NavigateErrorPrefix(url: string, cause: Failure)
    ensures "Error navigating to " + url <= Message(Wrapped(NavigateTo(url), cause))
  {
    var m := Message(Wrapped(NavigateTo(url), cause));
    var p := "Error navigating to " + url;
    assert m == p + (" Received error: " + Rendered(cause));
  }

  // ---------------------------------------------------------------------------
  // locateElement
  // ---------------------------------------------------------------------------

  /**
   * Every check `locateElement` makes passes: exactly one match, focus already on it or
   * obtainable, visible, not hidden, enabled, not disabled.
   */
  predicate Locatable(st: PageState, h: Handle) {
    var e := st.Lookup(h);
    e.count == 1 && (st.focus == Some(h) || e.focusable)
    && e.visible && !e.hidden && e.enabled && !e.disabled
  }

  /**
   * `locateElement`. The count is checked first, then focus is moved to the element when
   * it does not have it (a failure to focus is fatal), then the four state checks.
   */
  function LocateStep(st: PageState, loc: Locator, ctx: Context): (r: Step<Handle>)
    ensures r.result.Ok? <==> Locatable(st, ResolveLocator(loc, ctx))
    ensures r.result.Ok? ==> r.result.value == ResolveLocator(loc, ctx)
    ensures r.result.Ok? ==>
      r.state == Informed(st.(focus := Some(ResolveLocator(loc, ctx))), Located)
    ensures r.result.Err? ==>
      r.result.error.Wrapped? && r.result.error.catcher == LocateElement
      && r.state.log == st.log + [Alert(LocateElement)]
      && (r.state.focus == st.focus || r.state.focus == Some(ResolveLocator(loc, ctx)))
    ensures r.state.elements == st.elements && r.state.url == st.url
  {
    var h := ResolveLocator(loc, ctx);
    var e := st.Lookup(h);
    if e.count != 1 then Fail(st, LocateElement, Failed(CountNotOne, PlainError))
    else if st.focus != Some(h) && !e.focusable then
      Fail(st, LocateElement, Failed(FocusFailed, TimeoutError))
    else
      var focused := st.(focus := Some(h));
      if !e.visible then Fail(focused, LocateElement, Failed(NotVisible, PlainError))
      else if e.hidden then Fail(focused, LocateElement, Failed(StillHidden, PlainError))
      else if !e.enabled then Fail(focused, LocateElement, Failed(NotEnabled, PlainError))
      else if e.disabled then Fail(focused, LocateElement, Failed(StillDisabled, PlainError))
      else Step(Ok(h), Informed(focused, Located))
  }

  /** Locating an element again right after locating it succeeds and finds the same element. */
  lemma {:induction false} LocatedStaysLocatable(st: PageState, loc: Locator, ctx: Context, other: Context)
    requires LocateStep(st, loc, ctx).result.Ok?
    ensures var r := LocateStep(st, loc, ctx);
      LocateStep(r.state, Resolved(r.result.value), other).result == r.result
  {
    var r := LocateStep(st, loc, ctx);
    assert Locatable(r.state, r.result.value);
  }

  // ---------------------------------------------------------------------------
  // getElementText
  // ---------------------------------------------------------------------------

  /**
   * The text checks of `getElementText`: the content is neither null nor empty, and equals
   * the expected text unless that is absent or empty.
   */
  predicate TextAccepted(text: Option<string>, expected: Option<string>) {
    text.Some? && text.value != ""
    && (expected == None || expected.value == "" || text.value == expected.value)
  }

  /** `getElementText`: every outcome is as GetTextWith describes, with the text reported. */
  function GetTextStep(st: PageState, loc: Locator, expected: Option<string>, ctx: Context)
    : (r: Step<string>)
    ensures r.result.Ok? ==> LastIs(r.state.log, Inform(TextRetrieved(r.result.value)))
  {
    GetTextWith(st, loc, expected, ctx, true)
  }

  /**
   * `getElementText`, with `report` saying whether the retrieved text is logged (it always
   * is in the source; the corrected `sendKeys` reads back a sensitive field without it).
   */
  function GetTextWith(
    st: PageState, loc: Locator, expected: Option<string>, ctx: Context, report: bool)
    : (r: Step<string>)
    ensures var h := ResolveLocator(loc, ctx);
      r.result.Ok? <==> Locatable(st, h) && TextAccepted(st.Lookup(h).text, expected)
    ensures r.result.Ok? ==> Some(r.result.value) == st.Lookup(ResolveLocator(loc, ctx)).text
    ensures r.result.Ok? ==>
      r.state.log == st.log + [Inform(Located)]
        + (if report then [Inform(TextRetrieved(r.result.value))] else [])
    ensures r.result.Err? ==>
      r.result.error.Wrapped? && r.result.error.catcher == GetElementText
      && (r.state.log == st.log + [Inform(Located), Alert(GetElementText)]
          || r.state.log == st.log + [Alert(LocateElement), Alert(GetElementText)])
    ensures r.state.elements == st.elements && r.state.url == st.url
    ensures r.state.focus == st.focus || r.state.focus == Some(ResolveLocator(loc, ctx))
  {
    var located := LocateStep(st, loc, ctx);
    match located.result
    case Err(e) => Fail(located.state, GetElementText, e)
    case Ok(h) =>
      var text := st.Lookup(h).text;
      if text == None || text == Some("") then
        Fail(located.state, GetElementText, Raised(NoText))
      else if expected.Some? && expected.value != "" && text.value != expected.value then
        Fail(located.state, GetElementText, Failed(TextMismatch, PlainError))
      else if report then
        Step(Ok(text.value), Informed(located.state, TextRetrieved(text.value)))
      else
        Step(Ok(text.value), located.state)
  }

  /** An empty expected text is falsy, so it skips the comparison like an absent one. */
  lemma EmptyExpectedSkipsComparison(st: PageState, loc: Locator, ctx: Context)
    ensures GetTextStep(st, loc, Some(""), ctx) == GetTextStep(st, loc, None, ctx)
  {
  }

  // ---------------------------------------------------------------------------
  // sendKeys
  // ---------------------------------------------------------------------------

  /** What `fill(text)` leaves: it throws, or the element now reports these value and text. */
  datatype FillResult = FillFails(name: ErrorName) | Filled(value: Option<string>, text: Option<string>)

  /**
   * The input is confirmed: `inputValue()` reads back the text, or else the content that
   * `getElementText(locator, text)` reads back passes its checks.
   */
  predicate Confirmed(fill: FillResult, text: string) {
    fill.Filled? && (fill.value == Some(text) || TextAccepted(fill.text, Some(text)))
  }

  function SentNote(text: string, isSensitive: bool): Note {
    if isSensitive then SentSensitive else Sent(text)
  }

  /** The page after `fill`: the element now reports what the fill left. */
  function AfterFill(st: PageState, h: Handle, value: Option<string>, text: Option<string>)
    : (r: PageState)
    requires h in st.elements
    ensures r.Lookup(h) == st.Lookup(h).(value := value, text := text)
    ensures forall other :: other != h ==> r.Lookup(other) == st.Lookup(other)
    ensures r.focus == st.focus && r.url == st.url && r.log == st.log
  {
    st.(elements := st.elements[h := st.elements[h].(value := value, text := text)])
  }

  /**
   * The part of `sendKeys` after the element is located: fill, confirm by `inputValue()`
   * or else by `getElementText`, then log. `redact` keeps a sensitive field's read-back
   * out of the log.
   */
  function FillStep(
    st: PageState, h: Handle, text: string, isSensitive: bool, ctx: Context,
    fill: FillResult, redact: bool): (r: Step<()>)
    requires Locatable(st, h) && st.focus == Some(h)
    ensures r.result.Ok? <==> Confirmed(fill, text)
    ensures r.result.Ok? ==> LastIs(r.state.log, Inform(SentNote(text, isSensitive)))
    ensures r.result.Err? ==>
      r.result.error.Wrapped? && r.result.error.catcher == SendKeys && LastIs(r.state.log, Alert(SendKeys))
    ensures |r.state.log| > |st.log| && r.state.log[..|st.log|] == st.log
    ensures r.state.url == st.url
    ensures fill.Filled? ==> r.state.Lookup(h) == st.Lookup(h).(value := fill.value, text := fill.text)
    ensures forall other :: other != h ==> r.state.Lookup(other) == st.Lookup(other)
  {
    match fill
    case FillFails(name) => Fail(st, SendKeys, Failed(FillFailed, name))
    case Filled(value, content) =>
      var filled := AfterFill(st, h, value, content);
      if value == Some(text) then
        Step(Ok(()), Informed(filled, SentNote(text, isSensitive)))
      else
        var readBack := GetTextWith(filled, Resolved(h), Some(text), ctx, !(redact && isSensitive));
        if readBack.result.Err? then Fail(readBack.state, SendKeys, Raised(NotConfirmed(text)))
        else Step(Ok(()), Informed(readBack.state, SentNote(text, isSensitive)))
  }

  /**
   * `sendKeys`: locate, then fill and confirm. The source does not redact (SendKeysStep);
   * the corrected version does (SendKeysRedactedStep).
   */
  function SendKeysWith(
    st: PageState, loc: Locator, text: string, isSensitive: bool, ctx: Context,
    fill: FillResult, redact: bool): (r: Step<()>)
    ensures r.result.Ok? <==> Locatable(st, ResolveLocator(loc, ctx)) && Confirmed(fill, text)
    ensures r.result.Ok? ==> LastIs(r.state.log, Inform(SentNote(text, isSensitive)))
    ensures r.result.Err? ==>
      r.result.error.Wrapped? && r.result.error.catcher == SendKeys && LastIs(r.state.log, Alert(SendKeys))
    ensures |r.state.log| > |st.log| && r.state.log[..|st.log|] == st.log
    ensures r.state.url == st.url
    ensures forall other :: other != ResolveLocator(loc, ctx) ==> r.state.Lookup(other) == st.Lookup(other)
    ensures r.result.Ok? ==>
      r.state.Lookup(ResolveLocator(loc, ctx)) == st.Lookup(ResolveLocator(loc, ctx)).(value := fill.value, text := fill.text)
  {
    var located := LocateStep(st, loc, ctx);
    if located.result.Err? then Fail(located.state, SendKeys, located.result.error)
    else FillStep(located.state, located.result.value, text, isSensitive, ctx, fill, redact)
  }

  /** `sendKeys` as written. */
  function SendKeysStep(
    st: PageState, loc: Locator, text: string, isSensitive: bool, ctx: Context, fill: FillResult)
    : (r: Step<()>)
    ensures r.result.Ok? <==> Locatable(st, ResolveLocator(loc, ctx)) && Confirmed(fill, text)
  {
    SendKeysWith(st, loc, text, isSensitive, ctx, fill, false)
  }

  /** `sendKeys` with the read-back of a sensitive field kept out of the log. */
  function SendKeysRedactedStep(
    st: PageState, loc: Locator, text: string, isSensitive: bool, ctx: Context, fill: FillResult)
    : (r: Step<()>)
    ensures r.result.Ok? <==> Locatable(st, ResolveLocator(loc, ctx)) && Confirmed(fill, text)
  {
    SendKeysWith(st, loc, text, isSensitive, ctx, fill, true)
  }

  /**
   * With an empty text, the read-back passes for any non-empty content: the empty expected
   * text skips the comparison.
   */
  lemma EmptyTextAcceptsAnyContent(
    st: PageState, loc: Locator, ctx: Context, value: Option<string>, content: string)
    requires Locatable(st, ResolveLocator(loc, ctx)) && content != ""
    ensures SendKeysStep(st, loc, "", false, ctx, Filled(value, Some(content))).result.Ok?
  {
  }

  /**
   * As written, a sensitive field whose value cannot be read back leaves its text in the
   * log: the read-back logs the content it retrieved, which is the text.
   */
  lemma SensitiveTextReachesLog(
    st: PageState, loc: Locator, text: string, ctx: Context, value: Option<string>)
    requires Locatable(st, ResolveLocator(loc, ctx))
    requires text != "" && value != Some(text)
    ensures var r := SendKeysStep(st, loc, text, true, ctx, Filled(value, Some(text)));
      r.result.Ok?
      && r.state.log == st.log + [Inform(Located), Inform(Located), Inform(TextRetrieved(text)), Inform(SentSensitive)]
      && EntryText(r.state.log[|st.log| + 2]) == "Text retrieved from element: " + text + " "
  {
    var h := ResolveLocator(loc, ctx);
    var located := LocateStep(st, loc, ctx);
    var filled := AfterFill(located.state, h, value, Some(text));
    assert Locatable(filled, h);
    var readBack := GetTextWith(filled, Resolved(h), Some(text), ctx, true);
    assert readBack.state.log == filled.log + [Inform(Located), Inform(TextRetrieved(text))];
  }

  /** The entries the corrected `sendKeys` may log for a sensitive field: none holds text. */
  const SensitiveEntries: set<LogEntry> := {
    Inform(Located), Inform(SentSensitive),
    Alert(LocateElement), Alert(GetElementText), Alert(SendKeys)
  }

  /** The texts of those entries: fixed strings, whatever was typed. */
  const SensitiveTexts: set<string> := {
    "Successfully located element", "Successfully sent keys to a sensitive field",
    "locateElementcommon.ts", "getElementTextcommon.ts", "sendKeyscommon.ts"
  }

  /** Corrected: whatever happens, a sensitive field's `sendKeys` logs only fixed messages. */
  lemma RedactedLogsNoText(
    st: PageState, loc: Locator, text: string, ctx: Context, fill: FillResult)
    ensures var r := SendKeysRedactedStep(st, loc, text, true, ctx, fill);
      forall k :: |st.log| <= k < |r.state.log| ==> r.state.log[k] in SensitiveEntries
    ensures var r := SendKeysRedactedStep(st, loc, text, true, ctx, fill);
      forall k :: |st.log| <= k < |r.state.log| ==> EntryText(r.state.log[k]) in SensitiveTexts
  {
    var h := ResolveLocator(loc, ctx);
    var located := LocateStep(st, loc, ctx);
    var r := SendKeysRedactedStep(st, loc, text, true, ctx, fill);
    if located.result.Ok? && fill.Filled? && fill.value != Some(text) {
      var filled := AfterFill(located.state, h, fill.value, fill.text);
      var readBack := GetTextWith(filled, Resolved(h), Some(text), ctx, false);
      if readBack.result.Ok? {
        assert r.state.log == st.log + [Inform(Located), Inform(Located), Inform(SentSensitive)];
      } else {
        assert r.state.log == readBack.state.log + [Alert(SendKeys)];
      }
    }
    forall e | e in SensitiveEntries ensures EntryText(e) in SensitiveTexts {
      assert AlertTag(LocateElement) == "locateElementcommon.ts";
      assert AlertTag(GetElementText) == "getElementTextcommon.ts";
      assert AlertTag(SendKeys) == "sendKeyscommon.ts";
    }
  }

  /** The correction changes nothing for a field that is not sensitive. */
  lemma RedactionOnlyForSensitive(
    st: PageState, loc: Locator, text: string, ctx: Context, fill: FillResult)
    ensures SendKeysRedactedStep(st, loc, text, false, ctx, fill)
         == SendKeysStep(st, loc, text, false, ctx, fill)
  {
  }

  // ---------------------------------------------------------------------------
  // clickElement, sendKeyboardKeys, scrollToElement
  // ---------------------------------------------------------------------------

  /**
   * What Playwright's `click`, `press` or `scrollIntoViewIfNeeded` does: it throws, or it
   * returns with the page showing these elements at this URL (a forced click on a submit
   * button or a link may load another page).
   */
  datatype ActResult = ActFails(name: ErrorName) | Acted(elements: map<Handle, Snapshot>, url: string)

  /**
   * The part of `clickElement`, `sendKeyboardKeys` and `scrollToElement` after the element
   * is located: on success the page is as the action left it and the note, if any, is
   * logged; on failure only the alert is added.
   */
  function ActStep(st: PageState, act: ActResult, op: Operation, failure: Check, success: Option<Note>)
    : (r: Step<()>)
    ensures r.result.Ok? <==> act.Acted?
    ensures r.result.Err? ==>
      r.result == Err(Wrapped(op, Failed(failure, act.name)))
      && r.state == st.(log := st.log + [Alert(op)])
    ensures r.result.Ok? ==>
      r.state == st.(elements := act.elements, url := act.url,
                     log := st.log + (if success.Some? then [Inform(success.value)] else []))
  {
    match act
    case ActFails(name) => Fail(st, op, Failed(failure, name))
    case Acted(elements, url) =>
      var after := st.(elements := elements, url := url);
      if success.Some? then Step(Ok(()), Informed(after, success.value))
      else Step(Ok(()), after)
  }

  /** The shape shared by `clickElement`, `sendKeyboardKeys` and `scrollToElement`. */
  function ActOnElement(
    st: PageState, loc: Locator, ctx: Context, act: ActResult,
    op: Operation, failure: Check, success: Option<Note>): (r: Step<()>)
    ensures r.result.Ok? <==> Locatable(st, ResolveLocator(loc, ctx)) && act.Acted?
    ensures r.result.Err? ==>
      r.result.error.Wrapped? && r.result.error.catcher == op && LastIs(r.state.log, Alert(op))
      && r.state.elements == st.elements && r.state.url == st.url
    ensures r.result.Ok? ==>
      r.state.log == st.log + [Inform(Located)]
        + (if success.Some? then [Inform(success.value)] else [])
      && r.state.elements == act.elements && r.state.url == act.url
  {
    var located := LocateStep(st, loc, ctx);
    if located.result.Err? then Fail(located.state, op, located.result.error)
    else ActStep(located.state, act, op, failure, success)
  }

  /** `clickElement`. */
  function ClickStep(st: PageState, loc: Locator, ctx: Context, click: ActResult): (r: Step<()>)
    ensures r.result.Ok? <==> Locatable(st, ResolveLocator(loc, ctx)) && click.Acted?
    ensures r.result.Ok? ==>
      r.state.log == st.log + [Inform(Located), Inform(Clicked)]
      && r.state.elements == click.elements && r.state.url == click.url
    ensures r.result.Err? ==>
      r.result.error.Wrapped? && r.result.error.catcher == ClickElement
      && r.state.elements == st.elements && r.state.url == st.url
  {
    ActOnElement(st, loc, ctx, click, ClickElement, ClickFailed, Some(Clicked))
  }

  /** `sendKeyboardKeys`: nothing is logged on success. */
  function PressKeysStep(st: PageState, keys: string, loc: Locator, ctx: Context, press: ActResult)
    : (r: Step<()>)
    ensures r.result.Ok? <==> Locatable(st, ResolveLocator(loc, ctx)) && press.Acted?
    ensures r.result.Ok? ==>
      r.state.log == st.log + [Inform(Located)]
      && r.state.elements == press.elements && r.state.url == press.url
    ensures r.result.Err? ==>
      r.result.error.Wrapped? && r.result.error.catcher == SendKeyboardKeys(keys)
      && r.state.elements == st.elements && r.state.url == st.url
  {
    ActOnElement(st, loc, ctx, press, SendKeyboardKeys(keys), PressFailed, None)
  }

  /** `scrollToElement`. */
  function ScrollStep(st: PageState, loc: Locator, ctx: Context, scroll: ActResult): (r: Step<()>)
    ensures r.result.Ok? <==> Locatable(st, ResolveLocator(loc, ctx)) && scroll.Acted?
    ensures r.result.Ok? ==>
      r.state.log == st.log + [Inform(Located), Inform(Scrolled)]
      && r.state.elements == scroll.elements && r.state.url == scroll.url
    ensures r.result.Err? ==>
      r.result.error.Wrapped? && r.result.error.catcher == ScrollToElement
      && r.state.elements == st.elements && r.state.url == st.url
  {
    ActOnElement(st, loc, ctx, scroll, ScrollToElement, ScrollFailed, Some(Scrolled))
  }

  // ---------------------------------------------------------------------------
  // navigateTo
  // ---------------------------------------------------------------------------

  /**
   * What `goto` does: it throws, or it loads a new document, which reports this URL as
   * `page.url()` and shows these elements.
   */
  datatype Landing = GotoFails(name: ErrorName) | Landed(url: string, elements: map<Handle, Snapshot>)

  /**
   * `navigateTo`. A string `isValidUrl` refuses never reaches `goto`; otherwise the page
   * loads the new document, with focus back on its body. `toHaveURL` is taken as exact
   * equality of the landed URL with `url`: Playwright's own normalisation of `url` (a
   * trailing `/`, the host's case, a default port) is not part of this model.
   */
  function NavigateStep(st: PageState, url: string, landing: Landing): (r: Step<()>)
    ensures r.result.Ok? <==> Url.IsValidUrl(url) && landing.Landed? && landing.url == url
    ensures r.result.Ok? ==>
      r.state == Informed(st.(url := url, elements := landing.elements, focus := None), Navigated(url))
    ensures r.result.Err? ==>
      r.result.error.Wrapped? && r.result.error.catcher == NavigateTo(url)
      && r.state.log == st.log + [Alert(NavigateTo(url))]
    ensures !Url.IsValidUrl(url) ==>
      r.result == Err(Wrapped(NavigateTo(url), Raised(NotAUrl(url))))
      && r.state == st.(log := st.log + [Alert(NavigateTo(url))])
    ensures !Url.IsValidUrl(url) || landing.GotoFails? ==>
      r.state == st.(log := st.log + [Alert(NavigateTo(url))])
    ensures Url.IsValidUrl(url) && landing.Landed? ==>
      r.state.url == landing.url && r.state.elements == landing.elements && r.state.focus == None
  {
    if !Url.IsValidUrl(url) then Fail(st, NavigateTo(url), Raised(NotAUrl(url)))
    else
      match landing
      case GotoFails(name) => Fail(st, NavigateTo(url), Failed(GotoFailed, name))
      case Landed(reached, elements) =>
        var moved := st.(url := reached, elements := elements, focus := None);
        if reached != url then Fail(moved, NavigateTo(url), Failed(UrlMismatch, PlainError))
        else Step(Ok(()), Informed(moved, Navigated(url)))
  }

  // ---------------------------------------------------------------------------
  // The class
  // ---------------------------------------------------------------------------

  /** `Common`: the page it drives, with the log the helpers write. */
  class Common {
    var elements: map<Handle, Snapshot>
    var focus: Option<Handle>
    var url: string
    var log: seq<LogEntry>

    function Current(): PageState
      reads this
    {
      PageState(elements, focus, url, log)
    }

    constructor(elements: map<Handle, Snapshot>, url: string)
      ensures Current() == PageState(elements, None, url, [])
    {
      this.elements := elements;
      this.focus := None;
      this.url := url;
      this.log := [];
    }

    /** A catch block: alert, then throw the operation's error around `cause`. */
    method Throw(op: Operation, cause: Failure) returns (error: Failure)
      modifies this
      ensures error == Wrapped(op, cause)
      ensures Current() == old(Current()).(log := old(log) + [Alert(op)])
    {
      log := log + [Alert(op)];
      error := Wrapped(op, cause);
    }

    method LocateElement(loc: Locator, ctx: Context) returns (r: Outcome<Handle>)
      modifies this
      ensures Step(r, Current()) == LocateStep(old(Current()), loc, ctx)
    {
      var h := ResolveLocator(loc, ctx);
      var e := Current().Lookup(h);
      if e.count != 1 {
        var error := Throw(Operation.LocateElement, Failed(CountNotOne, PlainError));
        return Err(error);
      }
      if focus != Some(h) {
        if !e.focusable {
          var error := Throw(Operation.LocateElement, Failed(FocusFailed, TimeoutError));
          return Err(error);
        }
        focus := Some(h);
      }
      var check := if !e.visible then Some(NotVisible)
        else if e.hidden then Some(StillHidden)
        else if !e.enabled then Some(NotEnabled)
        else if e.disabled then Some(StillDisabled)
        else None;
      if check.Some? {
        var error := Throw(Operation.LocateElement, Failed(check.value, PlainError));
        return Err(error);
      }
      log := log + [Inform(Located)];
      return Ok(h);
    }

    method GetElementText(loc: Locator, expected: Option<string>, ctx: Context, report: bool)
      returns (r: Outcome<string>)
      modifies this
      ensures Step(r, Current()) == GetTextWith(old(Current()), loc, expected, ctx, report)
    {
      var located := LocateElement(loc, ctx);
      if located.Err? {
        var error := Throw(Operation.GetElementText, located.error);
        return Err(error);
      }
      var text := Current().Lookup(located.value).text;
      if text == None || text == Some("") {
        var error := Throw(Operation.GetElementText, Raised(NoText));
        return Err(error);
      }
      if expected.Some? && expected.value != "" && text.value != expected.value {
        var error := Throw(Operation.GetElementText, Failed(TextMismatch, PlainError));
        return Err(error);
      }
      if report {
        log := log + [Inform(TextRetrieved(text.value))];
      }
      return Ok(text.value);
    }

    /** Fill the located element `h` and confirm the input, as FillStep describes. */
    method FillAndConfirm(h: Handle, text: string, isSensitive: bool, ctx: Context,
                          fill: FillResult, redact: bool) returns (r: Outcome<()>)
      requires Locatable(Current(), h) && focus == Some(h)
      modifies this
      ensures Step(r, Current())
           == FillStep(old(Current()), h, text, isSensitive, ctx, fill, redact)
    {
      if fill.FillFails? {
        var error := Throw(Operation.SendKeys, Failed(FillFailed, fill.name));
        return Err(error);
      }
      elements := elements[h := elements[h].(value := fill.value, text := fill.text)];
      if fill.value != Some(text) {
        var readBack := GetElementText(Resolved(h), Some(text), ctx, !(redact && isSensitive));
        if readBack.Err? {
          var error := Throw(Operation.SendKeys, Raised(NotConfirmed(text)));
          return Err(error);
        }
      }
      log := log + [Inform(SentNote(text, isSensitive))];
      return Ok(());
    }

    /**
     * `sendKeys`: as written when `redact` is false, corrected when it is true (a sensitive
     * field's read-back then does not log its text).
     */
    method SendKeys(loc: Locator, text: string, isSensitive: bool, ctx: Context, fill: FillResult,
                    redact: bool)
      returns (r: Outcome<()>)
      modifies this
      ensures Step(r, Current()) == SendKeysWith(old(Current()), loc, text, isSensitive, ctx, fill, redact)
      ensures !redact ==> Step(r, Current()) == SendKeysStep(old(Current()), loc, text, isSensitive, ctx, fill)
      ensures redact ==>
        Step(r, Current()) == SendKeysRedactedStep(old(Current()), loc, text, isSensitive, ctx, fill)
    {
      var located := LocateElement(loc, ctx);
      if located.Err? {
        var error := Throw(Operation.SendKeys, located.error);
        return Err(error);
      }
      r := FillAndConfirm(located.value, text, isSensitive, ctx, fill, redact);
    }

    /** The action on a located element, as ActStep describes. */
    method Act(act: ActResult, op: Operation, failure: Check, success: Option<Note>)
      returns (r: Outcome<()>)
      modifies this
      ensures Step(r, Current()) == ActStep(old(Current()), act, op, failure, success)
    {
      if act.ActFails? {
        var error := Throw(op, Failed(failure, act.name));
        return Err(error);
      }
      elements := act.elements;
      url := act.url;
      if success.Some? {
        log := log + [Inform(success.value)];
      }
      return Ok(());
    }

    method ClickElement(loc: Locator, ctx: Context, click: ActResult) returns (r: Outcome<()>)
      modifies this
      ensures Step(r, Current()) == ClickStep(old(Current()), loc, ctx, click)
    {
      var located := LocateElement(loc, ctx);
      if located.Err? {
        var error := Throw(Operation.ClickElement, located.error);
        return Err(error);
      }
      r := Act(click, Operation.ClickElement, ClickFailed, Some(Clicked));
    }

    method SendKeyboardKeys(keys: string, loc: Locator, ctx: Context, press: ActResult)
      returns (r: Outcome<()>)
      modifies this
      ensures Step(r, Current()) == PressKeysStep(old(Current()), keys, loc, ctx, press)
    {
      var located := LocateElement(loc, ctx);
      if located.Err? {
        var error := Throw(Operation.SendKeyboardKeys(keys), located.error);
        return Err(error);
      }
      r := Act(press, Operation.SendKeyboardKeys(keys), PressFailed, None);
    }

    method ScrollToElement(loc: Locator, ctx: Context, scroll: ActResult) returns (r: Outcome<()>)
      modifies this
      ensures Step(r, Current()) == ScrollStep(old(Current()), loc, ctx, scroll)
    {
      var located := LocateElement(loc, ctx);
      if located.Err? {
        var error := Throw(Operation.ScrollToElement, located.error);
        return Err(error);
      }
      r := Act(scroll, Operation.ScrollToElement, ScrollFailed, Some(Scrolled));
    }

    method NavigateTo(target: string, landing: Landing) returns (r: Outcome<()>)
      modifies this
      ensures Step(r, Current()) == NavigateStep(old(Current()), target, landing)
    {
      if !Url.IsValidUrl(target) {
        var error := Throw(Operation.NavigateTo(target), Raised(NotAUrl(target)));
        return Err(error);
      }
      if landing.GotoFails? {
        var error := Throw(Operation.NavigateTo(target), Failed(GotoFailed, landing.name));
        return Err(error);
      }
      url := landing.url;
      elements := landing.elements;
      focus := None;
      if url != target {
        var error := Throw(Operation.NavigateTo(target), Failed(UrlMismatch, PlainError));
        return Err(error);
      }
      log := log + [Inform(Navigated(target))];
      return Ok(());
    }
  }
}
