/**
 * The example page object of src/pages/examples/ExamplePage.ts: a text-box form that is
 * filled in through the `Common` helpers and whose confirmation paragraphs are read back.
 * The page shows each submitted value after a caption and a colon ("Name:John Doe");
 * `verifyTheValue` takes the part after the first colon, trims its end and compares.
 */
module ExamplePage {
  import opened Wrappers
  import opened JsString
  import opened Helpers

  const FullNameTextBox := "//input[@id='userName']"
  const EmailTextBox := "//input[@id='userEmail']"
  const CurrentAddressTextBox := "//textarea[@id='currentAddress']"
  const PermanentAddressTextBox := "//textarea[@id='permanentAddress']"
  const SubmitButton := "//button[@id='submit']"
  const NameValidate := "//p[@id='name']"
  const EmailValidate := "//p[@id='email']"
  const CurrentAddressValidate := "//p[@id='currentAddress']"
  const PermanentAddressValidate := "//p[@id='permanentAddress']"

  // ---------------------------------------------------------------------------
  // verifyTheValue
  // ---------------------------------------------------------------------------

  /**
   * The value `verifyTheValue` compares: what follows the first colon (the whole text when
   * there is none, since `indexOf` then gives -1), without its trailing white space.
   */
  function ExtractValue(actualText: string): (v: string)
    ensures NoTrailingSpace(v) && |v| <= |actualText|
  {
    var colon := IndexOf(actualText, ':');
    TrimEnd(actualText[colon + 1..])
  }

  /** `verifyTheValue`: whether its `expect(...).toEqual(...)` passes. */
  function VerifyTheValue(actualText: string, expectedValue: string): (passed: bool)
    ensures passed ==> NoTrailingSpace(expectedValue)
  {
    ExtractValue(actualText) == expectedValue
  }

  lemma FirstColonAt(caption: string, rest: string)
    requires ':' !in caption
    ensures IndexOf(caption + ":" + rest, ':') == |caption|
  {
    var s := caption + ":" + rest;
    assert s[|caption|] == ':';
    assert s[..|caption|] == caption;
  }

  /** Only the first colon splits: what follows it is kept whole, colons included. */
  lemma ExtractAfterFirstColon(caption: string, rest: string)
    requires ':' !in caption
    ensures ExtractValue(caption + ":" + rest) == TrimEnd(rest)
  {
    FirstColonAt(caption, rest);
    assert (caption + ":" + rest)[|caption| + 1..] == rest;
  }

  /** Without a colon the whole text, trimmed at its end, is the value. */
  lemma ExtractNoColon(s: string)
    requires ':' !in s
    ensures ExtractValue(s) == TrimEnd(s)
  {
    assert s[0..] == s;
  }

  /**
   * The round trip the validation relies on: a caption without a colon, a colon and a value
   * without trailing white space give back the value, leading white space included.
   */
  lemma ExtractRoundTrip(caption: string, v: string)
    requires ':' !in caption && NoTrailingSpace(v)
    ensures ExtractValue(caption + ":" + v) == v
  {
    ExtractAfterFirstColon(caption, v);
    TrimEndKeeps(v);
  }

  /** On a confirmation paragraph, the check passes exactly for the value shown. */
  lemma VerifyReceipt(caption: string, v: string, expectedValue: string)
    requires ':' !in caption && NoTrailingSpace(v)
    ensures VerifyTheValue(caption + ":" + v, expectedValue) <==> expectedValue == v
  {
    ExtractRoundTrip(caption, v);
  }

  // ---------------------------------------------------------------------------
  // fillInTextBox
  // ---------------------------------------------------------------------------

  /**
   * One awaited helper call of a page object, with what Playwright does in it: where `goto`
   * lands, the outcome of `fill`, and what the click leaves on the page.
   */
  datatype Action =
    | Navigate(url: string, landing: Landing)
    | Type(selector: string, text: string, fill: FillResult)
    | Click(selector: string, click: ActResult)

  /** The helper call an Action stands for, on the page itself and with no sensitive field. */
  function Perform(st: PageState, a: Action): Step<()> {
    match a
    case Navigate(url, landing) => NavigateStep(st, url, landing)
    case Type(selector, text, fill) => SendKeysStep(st, Raw(selector), text, false, Page, fill)
    case Click(selector, click) => ClickStep(st, Raw(selector), Page, click)
  }

  /**
   * Awaiting the calls one after the other: the first that throws ends the run with its
   * error. `done` counts the calls that returned before it.
   */
  function Run(perform: (PageState, Action) -> Step<()>, st: PageState, plan: seq<Action>): (r: (Step<()>, nat))
    ensures r.1 <= |plan|
    ensures r.0.result.Ok? <==> r.1 == |plan|
    decreases |plan|
  {
    if plan == [] then (Step(Ok(()), st), 0)
    else
      var first := perform(st, plan[0]);
      if first.result.Err? then (first, 0)
      else
        var rest := Run(perform, first.state, plan[1..]);
        (rest.0, rest.1 + 1)
  }

  /**
   * A run splits after any of the calls that returned: the first `k` calls succeed on
   * their own, and the rest of the plan continues from the state they leave.
   */
  lemma {:induction false} RunSplits(perform: (PageState, Action) -> Step<()>, st: PageState, plan: seq<Action>, k: nat)
    requires k <= Run(perform, st, plan).1
    ensures Run(perform, st, plan[..k]).0.result.Ok?
    ensures Run(perform, st, plan) == (var mid := Run(perform, st, plan[..k]).0.state;
      var tail := Run(perform, mid, plan[k..]); (tail.0, tail.1 + k))
    decreases k
  {
    if k > 0 {
      var first := perform(st, plan[0]);
      RunSplits(perform, first.state, plan[1..], k - 1);
      DropFirst(plan, k);
    } else {
      assert plan[..0] == [];
      assert plan[0..] == plan;
    }
  }

  /** Dropping the first call commutes with cutting the plan at `k`. */
  lemma DropFirst(plan: seq<Action>, k: nat)
    requires 0 < k <= |plan|
    ensures plan[..k][1..] == plan[1..][..k - 1]
    ensures plan[1..][k - 1..] == plan[k..]
  {
  }

  /**
   * A failed run is the successful run of the calls before the failing one, followed by
   * the failing call: nothing after it is made.
   */
  lemma RunStopsAtFirstFailure(perform: (PageState, Action) -> Step<()>, st: PageState, plan: seq<Action>)
    requires Run(perform, st, plan).0.result.Err?
    ensures var done := Run(perform, st, plan).1;
      var before := Run(perform, st, plan[..done]);
      before.0.result.Ok? && perform(before.0.state, plan[done]) == Run(perform, st, plan).0
  {
    RunSplits(perform, st, plan, Run(perform, st, plan).1);
  }

  /**
   * Typing never moves the page, so calls that neither navigate nor click somewhere else
   * leave the page at its URL.
   */
  lemma {:induction false} RunKeepsUrl(st: PageState, plan: seq<Action>)
    requires forall i :: 0 <= i < |plan| ==>
      !plan[i].Navigate? && (plan[i].Click? && plan[i].click.Acted? ==> plan[i].click.url == st.url)
    ensures Run(Perform, st, plan).0.state.url == st.url
    decreases |plan|
  {
    if plan != [] {
      var first := Perform(st, plan[0]);
      if first.result.Ok? {
        RunKeepsUrl(first.state, plan[1..]);
      }
    }
  }

  /** A run that ends with a click leaves the page as that click did. */
  lemma {:induction false} RunEndsWithClick(st: PageState, plan: seq<Action>)
    requires plan != [] && plan[|plan| - 1].Click?
    requires Run(Perform, st, plan).0.result.Ok?
    ensures plan[|plan| - 1].click.Acted?
    ensures Run(Perform, st, plan).0.state.url == plan[|plan| - 1].click.url
    decreases |plan|
  {
    var first := Perform(st, plan[0]);
    if |plan| > 1 {
      assert plan[1..][|plan[1..]| - 1] == plan[|plan| - 1];
      RunEndsWithClick(first.state, plan[1..]);
    }
  }

  /** The calls `fillInTextBox` makes, in the order it awaits them. */
  function FillPlan(
    url: string, fullName: string, email: string, currentAddress: string, permanentAddress: string,
    landing: Landing, fills: seq<FillResult>, submit: ActResult): seq<Action>
    requires |fills| == 4
  {
    [Navigate(url, landing),
     Type(FullNameTextBox, fullName, fills[0]),
     Type(EmailTextBox, email, fills[1]),
     Type(CurrentAddressTextBox, currentAddress, fills[2]),
     Type(PermanentAddressTextBox, permanentAddress, fills[3]),
     Click(SubmitButton, submit)]
  }

  /**
   * `fillInTextBox`: navigate, type the four values, submit. A URL `isValidUrl` refuses
   * stops it at once, with the page and its elements untouched.
   */
  function FillInTextBox(
    st: PageState, url: string, fullName: string, email: string,
    currentAddress: string, permanentAddress: string,
    landing: Landing, fills: seq<FillResult>, submit: ActResult): (r: (Step<()>, nat))
    requires |fills| == 4
    ensures r.0.result.Ok? <==> r.1 == 6
    ensures !Url.IsValidUrl(url) ==>
      r.1 == 0 && r.0.result.Err? && r.0.state.elements == st.elements && r.0.state.url == st.url
  {
    Run(Perform, st, FillPlan(url, fullName, email, currentAddress, permanentAddress, landing, fills, submit))
  }

  /**
   * Nothing is typed before navigation has landed on `url`; the four values are typed on
   * that page, so the submit button is clicked there; and a completed fill leaves the page
   * where that click took it.
   */
  lemma FillInTextBoxNavigatesFirst(
    st: PageState, url: string, fullName: string, email: string,
    currentAddress: string, permanentAddress: string,
    landing: Landing, fills: seq<FillResult>, submit: ActResult)
    requires |fills| == 4
    ensures var plan := FillPlan(url, fullName, email, currentAddress, permanentAddress,
        landing, fills, submit);
      var r := FillInTextBox(st, url, fullName, email, currentAddress, permanentAddress,
        landing, fills, submit);
      (r.1 >= 1 ==> Url.IsValidUrl(url) && landing.Landed? && landing.url == url)
      && (r.1 >= 5 ==> Run(Perform, st, plan[..5]).0.state.url == url)
      && (r.0.result.Ok? ==> submit.Acted? && r.0.state.url == submit.url)
  {
    var plan := FillPlan(url, fullName, email, currentAddress, permanentAddress, landing, fills, submit);
    FillPlanShape(url, fullName, email, currentAddress, permanentAddress, landing, fills, submit);
    if Run(Perform, st, plan).1 >= 1 {
      FirstCallNavigated(st, plan);
    }
    if Run(Perform, st, plan).1 >= 5 {
      TypedWhereNavigated(st, plan);
    }
    if Run(Perform, st, plan).0.result.Ok? {
      RunEndsWithClick(st, plan);
    }
  }

  /** A plan whose opening navigation returned was given a valid URL that `goto` reached. */
  lemma FirstCallNavigated(st: PageState, plan: seq<Action>)
    requires plan != [] && plan[0].Navigate? && Run(Perform, st, plan).1 >= 1
    ensures Url.IsValidUrl(plan[0].url) && plan[0].landing.Landed? && plan[0].landing.url == plan[0].url
  {
    assert Perform(st, plan[0]).result.Ok?;
  }

  /** Calls after a returned navigation that only type stay on the URL navigated to. */
  lemma TypedWhereNavigated(st: PageState, plan: seq<Action>)
    requires |plan| >= 5 && plan[0].Navigate? && Run(Perform, st, plan).1 >= 5
    requires forall i :: 1 <= i < 5 ==> plan[i].Type?
    ensures Run(Perform, st, plan[..5]).0.state.url == plan[0].url
  {
    RunSplits(Perform, st, plan, 5);
    var navigated := Perform(st, plan[0]);
    assert navigated.result.Ok?;
    DropFirst(plan, 5);
    var typed := plan[..5][1..];
    assert forall i :: 0 <= i < |typed| ==> typed[i] == plan[i + 1];
    RunKeepsUrl(navigated.state, typed);
  }

  // ---------------------------------------------------------------------------
  // The order of the calls
  // ---------------------------------------------------------------------------

  /** `entries` appear in `log` in this order, possibly with other entries between them. */
  predicate InOrder(entries: seq<LogEntry>, log: seq<LogEntry>)
    decreases |log|
  {
    if entries == [] then true
    else if log == [] then false
    else if log[|log| - 1] == entries[|entries| - 1]
         && InOrder(entries[..|entries| - 1], log[..|log| - 1]) then true
    else InOrder(entries, log[..|log| - 1])
  }

  /** More log after the entries keeps them in order. */
  lemma {:induction false} InOrderGrows(entries: seq<LogEntry>, x: seq<LogEntry>, y: seq<LogEntry>)
    requires InOrder(entries, x)
    ensures InOrder(entries, x + y)
    decreases |y|
  {
    if y != [] && entries != [] {
      var init := y[..|y| - 1];
      InOrderGrows(entries, x, init);
      assert (x + y)[..|x + y| - 1] == x + init;
      assert InOrder(entries, (x + y)[..|x + y| - 1]);
    } else if y == [] {
      assert x + y == x;
    }
  }

  /** Entries in order in one log, followed by entries in order in the next part, are in order. */
  lemma {:induction false} InOrderConcat(a: seq<LogEntry>, x: seq<LogEntry>, b: seq<LogEntry>, y: seq<LogEntry>)
    requires InOrder(a, x) && InOrder(b, y)
    ensures InOrder(a + b, x + y)
    decreases |y|
  {
    if b == [] {
      assert a + b == a;
      InOrderGrows(a, x, y);
    } else {
      var yInit := y[..|y| - 1];
      assert (x + y)[..|x + y| - 1] == x + yInit;
      assert (x + y)[|x + y| - 1] == y[|y| - 1];
      if y[|y| - 1] == b[|b| - 1] && InOrder(b[..|b| - 1], yInit) {
        InOrderConcat(a, x, b[..|b| - 1], yInit);
        assert (a + b)[..|a + b| - 1] == a + b[..|b| - 1];
      } else {
        InOrderConcat(a, x, b, yInit);
      }
    }
  }

  /** The success message each call logs last. */
  function Reported(a: Action): LogEntry {
    match a
    case Navigate(url, _) => Inform(Navigated(url))
    case Type(_, text, _) => Inform(Sent(text))
    case Click(_, _) => Inform(Clicked)
  }

  function ReportedAll(plan: seq<Action>): (notes: seq<LogEntry>)
    ensures |notes| == |plan|
  {
    seq(|plan|, i requires 0 <= i < |plan| => Reported(plan[i]))
  }

  /** A call that returned only added to the log, and ended with its success message. */
  predicate Reports(st: PageState, a: Action, r: Step<()>) {
    r.result.Ok? ==>
      |r.state.log| > |st.log| && r.state.log[..|st.log|] == st.log
      && r.state.log[|r.state.log| - 1] == Reported(a)
  }

  /** Every helper call of a page object reports that way. */
  lemma PerformReports(st: PageState, a: Action)
    ensures Reports(st, a, Perform(st, a))
  {
  }

  /**
   * A run of calls that each report that way keeps the log it started with and adds each
   * call's success message, in the order of the plan.
   */
  lemma {:induction false} RunReportsInOrder(
    perform: (PageState, Action) -> Step<()>, st: PageState, plan: seq<Action>)
    requires forall s, a :: Reports(s, a, perform(s, a))
    requires Run(perform, st, plan).0.result.Ok?
    ensures var log := Run(perform, st, plan).0.state.log;
      |st.log| <= |log| && log[..|st.log|] == st.log
      && InOrder(ReportedAll(plan), log[|st.log|..])
    decreases |plan|
  {
    var log := Run(perform, st, plan).0.state.log;
    if plan == [] {
      assert ReportedAll(plan) == [];
    } else {
      var first := perform(st, plan[0]);
      assert Reports(st, plan[0], first);
      RunReportsInOrder(perform, first.state, plan[1..]);
      var mid := first.state.log;
      LogExtends(st.log, mid, log);
      EndsWith(Reported(plan[0]), mid[|st.log|..]);
      InOrderConcat([Reported(plan[0])], mid[|st.log|..], ReportedAll(plan[1..]), log[|mid|..]);
      ReportedAllCons(plan);
    }
  }

  /** A log that extends one that extends `start` extends `start`, by both additions. */
  lemma LogExtends(start: seq<LogEntry>, mid: seq<LogEntry>, log: seq<LogEntry>)
    requires |start| <= |mid| <= |log| && mid[..|start|] == start && log[..|mid|] == mid
    ensures log[..|start|] == start && log[|start|..] == mid[|start|..] + log[|mid|..]
  {
    assert log[..|start|] == mid[..|start|];
  }

  /** Additions whose last entry is `e` hold `e`. */
  lemma EndsWith(e: LogEntry, added: seq<LogEntry>)
    requires added != [] && added[|added| - 1] == e
    ensures InOrder([e], added)
  {
    assert [e][..0] == [];
  }

  lemma ReportedAllCons(plan: seq<Action>)
    requires plan != []
    ensures ReportedAll(plan) == [Reported(plan[0])] + ReportedAll(plan[1..])
  {
  }

  /** In a run that succeeds, every value typed was confirmed by its read-back. */
  lemma {:induction false} RunConfirmsTyping(st: PageState, plan: seq<Action>)
    requires Run(Perform, st, plan).0.result.Ok?
    ensures forall i :: 0 <= i < |plan| && plan[i].Type? ==> Confirmed(plan[i].fill, plan[i].text)
    decreases |plan|
  {
    if plan != [] {
      var first := Perform(st, plan[0]);
      RunConfirmsTyping(first.state, plan[1..]);
      forall i | 1 <= i < |plan| && plan[i].Type? ensures Confirmed(plan[i].fill, plan[i].text) {
        assert plan[i] == plan[1..][i - 1];
      }
    }
  }

  /**
   * A completed `fillInTextBox` logged, in this order, the navigation to `url`, each of the
   * four values sent, and the click on submit; each value was confirmed in its own field.
   */
  lemma FillInTextBoxOrder(
    st: PageState, url: string, fullName: string, email: string,
    currentAddress: string, permanentAddress: string,
    landing: Landing, fills: seq<FillResult>, submit: ActResult)
    requires |fills| == 4
    requires FillInTextBox(st, url, fullName, email, currentAddress, permanentAddress,
      landing, fills, submit).0.result.Ok?
    ensures var log := FillInTextBox(st, url, fullName, email, currentAddress, permanentAddress,
        landing, fills, submit).0.state.log;
      |st.log| <= |log| && log[..|st.log|] == st.log
      && InOrder([Inform(Navigated(url)), Inform(Sent(fullName)), Inform(Sent(email)),
                  Inform(Sent(currentAddress)), Inform(Sent(permanentAddress)), Inform(Clicked)],
                 log[|st.log|..])
    ensures Confirmed(fills[0], fullName) && Confirmed(fills[1], email)
      && Confirmed(fills[2], currentAddress) && Confirmed(fills[3], permanentAddress)
  {
    var plan := FillPlan(url, fullName, email, currentAddress, permanentAddress, landing, fills, submit);
    forall s, a ensures Reports(s, a, Perform(s, a)) {
      PerformReports(s, a);
    }
    RunReportsInOrder(Perform, st, plan);
    RunConfirmsTyping(st, plan);
    FillPlanReports(url, fullName, email, currentAddress, permanentAddress, landing, fills, submit);
  }

  /** The success messages of the calls `fillInTextBox` makes, in order. */
  lemma FillPlanReports(
    url: string, fullName: string, email: string, currentAddress: string, permanentAddress: string,
    landing: Landing, fills: seq<FillResult>, submit: ActResult)
    requires |fills| == 4
    ensures var plan := FillPlan(url, fullName, email, currentAddress, permanentAddress, landing, fills, submit);
      ReportedAll(plan)
        == [Inform(Navigated(url)), Inform(Sent(fullName)), Inform(Sent(email)),
            Inform(Sent(currentAddress)), Inform(Sent(permanentAddress)), Inform(Clicked)]
      && plan[1] == Type(FullNameTextBox, fullName, fills[0]) && plan[2] == Type(EmailTextBox, email, fills[1])
      && plan[3] == Type(CurrentAddressTextBox, currentAddress, fills[2])
      && plan[4] == Type(PermanentAddressTextBox, permanentAddress, fills[3])
  {
    var plan := FillPlan(url, fullName, email, currentAddress, permanentAddress, landing, fills, submit);
    var notes := ReportedAll(plan);
    assert notes[0] == Reported(plan[0]) && notes[1] == Reported(plan[1]) && notes[2] == Reported(plan[2]);
    assert notes[3] == Reported(plan[3]) && notes[4] == Reported(plan[4]) && notes[5] == Reported(plan[5]);
  }

  // ---------------------------------------------------------------------------
  // When the form is there, the fill completes
  // ---------------------------------------------------------------------------

  /** Running `a` and then `b` is running `a + b`, when every call of `a` returned. */
  lemma {:induction false} RunAppend(
    perform: (PageState, Action) -> Step<()>, st: PageState, a: seq<Action>, b: seq<Action>)
    requires Run(perform, st, a).0.result.Ok?
    ensures Run(perform, st, a + b).0 == Run(perform, Run(perform, st, a).0.state, b).0
    decreases |a|
  {
    if a == [] {
      assert a + b == b;
    } else {
      var first := perform(st, a[0]);
      RunAppend(perform, first.state, a[1..], b);
      assert (a + b)[0] == a[0] && (a + b)[1..] == a[1..] + b;
    }
  }

  /** The element a selector on the page designates among `elements`. */
  function Find(elements: map<Handle, Snapshot>, selector: string): Snapshot {
    var h := Handle(Page, selector);
    if h in elements then elements[h] else Absent
  }

  /** Typing into a ready element whose input is confirmed returns, and every ready element stays ready. */
  lemma TypeKeepsReady(st: PageState, selector: string, text: string, fill: FillResult)
    requires Ready(Find(st.elements, selector)) && Confirmed(fill, text)
    ensures var r := Perform(st, Type(selector, text, fill));
      r.result.Ok? && r.state.url == st.url
      && forall sel :: Ready(Find(st.elements, sel)) ==> Ready(Find(r.state.elements, sel))
  {
    var r := Perform(st, Type(selector, text, fill));
    forall sel | Ready(Find(st.elements, sel)) ensures Ready(Find(r.state.elements, sel)) {
      assert Find(r.state.elements, sel) == r.state.Lookup(Handle(Page, sel));
      assert Find(st.elements, sel) == st.Lookup(Handle(Page, sel));
    }
  }

  /**
   * Typing into ready elements, each input confirmed, completes; every element that was
   * ready is still ready and the page has not moved.
   */
  lemma {:induction false} TypingCompletes(st: PageState, plan: seq<Action>)
    requires forall i :: 0 <= i < |plan| ==>
      plan[i].Type? && Ready(Find(st.elements, plan[i].selector)) && Confirmed(plan[i].fill, plan[i].text)
    ensures var r := Run(Perform, st, plan).0;
      r.result.Ok? && r.state.url == st.url
      && forall sel :: Ready(Find(st.elements, sel)) ==> Ready(Find(r.state.elements, sel))
    decreases |plan|
  {
    if plan != [] {
      var first := Perform(st, plan[0]);
      TypeKeepsReady(st, plan[0].selector, plan[0].text, plan[0].fill);
      forall i | 0 <= i < |plan[1..]|
        ensures plan[1..][i].Type? && Ready(Find(first.state.elements, plan[1..][i].selector))
          && Confirmed(plan[1..][i].fill, plan[1..][i].text)
      {
        assert plan[1..][i] == plan[i + 1];
      }
      TypingCompletes(first.state, plan[1..]);
    }
  }

  /** The form `fillInTextBox` fills: the four fields and the submit button, each ready. */
  predicate FormReady(elements: map<Handle, Snapshot>) {
    Ready(Find(elements, FullNameTextBox)) && Ready(Find(elements, EmailTextBox))
    && Ready(Find(elements, CurrentAddressTextBox)) && Ready(Find(elements, PermanentAddressTextBox))
    && Ready(Find(elements, SubmitButton))
  }

  /**
   * From any page, a fresh one included: when `goto` lands on `url` and the new document
   * shows the form ready, each input is confirmed and the click returns, `fillInTextBox`
   * completes.
   */
  lemma FillInTextBoxCompletes(
    st: PageState, url: string, fullName: string, email: string,
    currentAddress: string, permanentAddress: string,
    elements: map<Handle, Snapshot>, fills: seq<FillResult>, submit: ActResult)
    requires Url.IsValidUrl(url) && FormReady(elements) && submit.Acted?
    requires |fills| == 4
    requires Confirmed(fills[0], fullName) && Confirmed(fills[1], email)
      && Confirmed(fills[2], currentAddress) && Confirmed(fills[3], permanentAddress)
    ensures FillInTextBox(st, url, fullName, email, currentAddress, permanentAddress,
      Landed(url, elements), fills, submit).0.result.Ok?
  {
    var plan := FillPlan(url, fullName, email, currentAddress, permanentAddress,
      Landed(url, elements), fills, submit);
    var typing := plan[1..5];
    FillPlanShape(url, fullName, email, currentAddress, permanentAddress, Landed(url, elements), fills, submit);
    var navigated := NavigateLands(st, url, elements);
    TypingCompletes(navigated, typing);
    var typed := Run(Perform, navigated, typing).0.state;
    ClickReadyReturns(typed, submit);
    RunAppend(Perform, navigated, typing, [plan[5]]);
    RunAppend(Perform, st, [plan[0]], plan[1..]);
  }

  /** The shape of the plan: a navigation, four typing calls into ready-made fields, a click. */
  lemma FillPlanShape(
    url: string, fullName: string, email: string, currentAddress: string, permanentAddress: string,
    landing: Landing, fills: seq<FillResult>, submit: ActResult)
    requires |fills| == 4
    ensures var plan := FillPlan(url, fullName, email, currentAddress, permanentAddress, landing, fills, submit);
      plan == [plan[0]] + plan[1..] && plan[1..] == plan[1..5] + [plan[5]]
      && plan[0] == Navigate(url, landing) && plan[5] == Click(SubmitButton, submit)
      && plan[1..5] == [Type(FullNameTextBox, fullName, fills[0]), Type(EmailTextBox, email, fills[1]),
                        Type(CurrentAddressTextBox, currentAddress, fills[2]),
                        Type(PermanentAddressTextBox, permanentAddress, fills[3])]
  {
  }

  /** Navigating to a valid URL that `goto` lands on returns, on the new document. */
  lemma NavigateLands(st: PageState, url: string, elements: map<Handle, Snapshot>) returns (next: PageState)
    requires Url.IsValidUrl(url)
    ensures Run(Perform, st, [Navigate(url, Landed(url, elements))]).0 == Step(Ok(()), next)
    ensures next.elements == elements
  {
    next := Perform(st, Navigate(url, Landed(url, elements))).state;
    assert [Navigate(url, Landed(url, elements))][1..] == [];
  }

  /** Clicking a ready submit button whose click returns, returns. */
  lemma ClickReadyReturns(st: PageState, submit: ActResult)
    requires Ready(Find(st.elements, SubmitButton)) && submit.Acted?
    ensures Run(Perform, st, [Click(SubmitButton, submit)]).0.result.Ok?
  {
    assert st.Lookup(Handle(Page, SubmitButton)) == Find(st.elements, SubmitButton);
    assert [Click(SubmitButton, submit)][1..] == [];
  }

  // ---------------------------------------------------------------------------
  // validateFillInTextBox
  // ---------------------------------------------------------------------------

  /** How a validation ends: every value matched, a paragraph could not be read, or a value differed. */
  datatype Verdict =
    | AllMatch
    | Unreadable(selector: string, error: Failure)
    | Differs(selector: string, actualValue: string, expectedValue: string)

  /**
   * Read each paragraph with `getElementText` and check it with `verifyTheValue`, in order;
   * the first failure ends the validation.
   */
  function ValidateAll(st: PageState, checks: seq<(string, string)>): (r: (Verdict, PageState))
    ensures r.1.elements == st.elements && r.1.url == st.url
    decreases |checks|
  {
    if checks == [] then (AllMatch, st)
    else
      var (selector, expected) := checks[0];
      var read := GetTextStep(st, Raw(selector), None, Page);
      match read.result
      case Err(e) => (Unreadable(selector, e), read.state)
      case Ok(text) =>
        if !VerifyTheValue(text, expected) then
          (Differs(selector, ExtractValue(text), expected), read.state)
        else ValidateAll(read.state, checks[1..])
  }

  function ValidationChecks(name: string, email: string, currentAddress: string, permanentAddress: string)
    : seq<(string, string)>
  {
    [(NameValidate, name), (EmailValidate, email),
     (CurrentAddressValidate, currentAddress), (PermanentAddressValidate, permanentAddress)]
  }

  /** `validateFillInTextBox`. */
  function ValidateFillInTextBox(
    st: PageState, name: string, email: string, currentAddress: string, permanentAddress: string)
    : (r: (Verdict, PageState))
    ensures r.1.elements == st.elements
  {
    ValidateAll(st, ValidationChecks(name, email, currentAddress, permanentAddress))
  }

  /** A paragraph `getElementText` can always read: one match, focusable, visible, enabled. */
  predicate Ready(e: Snapshot) {
    e.count == 1 && e.focusable && e.visible && !e.hidden && e.enabled && !e.disabled
  }

  function Shown(st: PageState, selector: string): Option<string> {
    st.Lookup(Handle(Page, selector)).text
  }

  /** A validation that passes read its first paragraph, checked it, and passed on the rest. */
  lemma AllMatchHead(st: PageState, checks: seq<(string, string)>)
    requires checks != [] && ValidateAll(st, checks).0 == AllMatch
    ensures var read := GetTextStep(st, Raw(checks[0].0), None, Page);
      read.result.Ok? && VerifyTheValue(read.result.value, checks[0].1)
      && ValidateAll(read.state, checks[1..]).0 == AllMatch
  {
  }

  /**
   * The same, in terms of what the page shows: the first paragraph holds its value, and the
   * rest of the validation passes from a state with the same elements.
   */
  lemma AllMatchFirstShown(st: PageState, checks: seq<(string, string)>) returns (next: PageState)
    requires checks != [] && ValidateAll(st, checks).0 == AllMatch
    ensures next.elements == st.elements
    ensures Shown(st, checks[0].0).Some? && ExtractValue(Shown(st, checks[0].0).value) == checks[0].1
    ensures ValidateAll(next, checks[1..]).0 == AllMatch
  {
    var read := GetTextStep(st, Raw(checks[0].0), None, Page);
    AllMatchHead(st, checks);
    assert Some(read.result.value) == Shown(st, checks[0].0);
    next := read.state;
  }

  /** Validation passes only if each paragraph's text holds the expected value. */
  lemma {:induction false} AllMatchMeansEveryValueShown(st: PageState, checks: seq<(string, string)>)
    requires ValidateAll(st, checks).0 == AllMatch
    ensures forall i :: 0 <= i < |checks| ==>
      Shown(st, checks[i].0).Some? && ExtractValue(Shown(st, checks[i].0).value) == checks[i].1
    decreases |checks|
  {
    if checks != [] {
      var next := AllMatchFirstShown(st, checks);
      AllMatchMeansEveryValueShown(next, checks[1..]);
      forall i | 1 <= i < |checks|
        ensures Shown(st, checks[i].0).Some? && ExtractValue(Shown(st, checks[i].0).value) == checks[i].1
      {
        assert checks[i] == checks[1..][i - 1];
        assert Shown(next, checks[i].0) == Shown(st, checks[i].0);
      }
    }
  }

  /**
   * And it does pass when every paragraph is ready and shows a colon-free caption, a colon
   * and the expected value without trailing white space, as the form's page does.
   */
  lemma {:induction false} ShownValuesAllMatch(st: PageState, checks: seq<(string, string)>, captions: seq<string>)
    requires |captions| == |checks|
    requires forall i :: 0 <= i < |checks| ==>
      Ready(st.Lookup(Handle(Page, checks[i].0)))
      && ':' !in captions[i] && NoTrailingSpace(checks[i].1)
      && Shown(st, checks[i].0) == Some(captions[i] + ":" + checks[i].1)
    ensures ValidateAll(st, checks).0 == AllMatch
    decreases |checks|
  {
    if checks != [] {
      var h := Handle(Page, checks[0].0);
      var read := GetTextStep(st, Raw(checks[0].0), None, Page);
      assert Ready(st.Lookup(h));
      VerifyReceipt(captions[0], checks[0].1, checks[0].1);
      assert read.result == Ok(captions[0] + ":" + checks[0].1);
      forall i | 0 <= i < |checks| - 1
        ensures Ready(read.state.Lookup(Handle(Page, checks[1..][i].0)))
          && ':' !in captions[1..][i] && NoTrailingSpace(checks[1..][i].1)
          && Shown(read.state, checks[1..][i].0) == Some(captions[1..][i] + ":" + checks[1..][i].1)
      {
        assert checks[1..][i] == checks[i + 1];
      }
      ShownValuesAllMatch(read.state, checks[1..], captions[1..]);
    }
  }
}
