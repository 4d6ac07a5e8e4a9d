/** The test page of `TestPage.js`: free navigation between questions, answers recorded on
    click, and one countdown for the whole test that submits when it runs out. */
module CountdownPage {
  import opened Wrappers
  import opened Decimal
  import opened Clock
  import opened Domain
  import AnswerSheet
  import TestAssembly

  /** The page state after `/test/start` answered. `captured` is the answer list of the render
      in which the clock last changed: the running interval was created there, and the
      `handleSubmit` it calls sends that list. */
  datatype Page = Page(
    questionCount: nat,
    answers: seq<int>,
    index: nat,
    selected: Option<int>,
    remaining: int,
    loading: bool,
    captured: seq<int>)

  /** One answer slot per question, a current question that exists, and a clock that is not negative. */
  predicate Valid(p: Page) {
    && !p.loading
    && p.questionCount > 0
    && |p.answers| == p.questionCount
    && p.index < p.questionCount
    && p.remaining >= 0
    && AnswerSheet.Valid(p.answers)
    && |p.captured| == p.questionCount
    && AnswerSheet.Valid(p.captured)
  }

  /** The start effect: without a configuration the page leaves and no test is started;
      otherwise the answers are all `-1` and the clock is the test's duration in seconds. */
  function Start(config: Option<TestConfig>, response: TestAssembly.StartResponse): (p: Option<Page>)
    ensures p.None? <==> config.None?
    ensures p.Some? ==>
      && p.value.questionCount == |response.questions|
      && p.value.answers == AnswerSheet.Blank(|response.questions|)
      && p.value.remaining == response.durationMinutes * 60
      && p.value.index == 0 && p.value.selected.None?
      && p.value.captured == p.value.answers
      && (|response.questions| > 0 ==> Valid(p.value))
  {
    if config.None? then None
    else
      var n := |response.questions|;
      Some(Page(n, AnswerSheet.Blank(n), 0, None, response.durationMinutes * 60, false, AnswerSheet.Blank(n)))
  }

  /** `handleAnswerSelect`: highlight the option and record it for the current question only. */
  function AnswerSelect(p: Page, option: nat): (q: Page)
    requires Valid(p)
    ensures Valid(q)
    ensures q.selected == Some(option as int)
    ensures q.index == p.index && q.remaining == p.remaining && q.captured == p.captured
    ensures |q.answers| == |p.answers| && q.answers[p.index] == option
    ensures forall j :: 0 <= j < |p.answers| && j != p.index ==> q.answers[j] == p.answers[j]
  {
    p.(selected := Some(option as int), answers := AnswerSheet.Record(p.answers, p.index, option))
  }

  /** `handleNext`: move forward unless at the last question, showing that question's stored answer. */
  function Next(p: Page): (q: Page)
    requires Valid(p)
    ensures Valid(q) && q.answers == p.answers && q.remaining == p.remaining && q.captured == p.captured
    ensures p.index < p.questionCount - 1 ==> q.index == p.index + 1 && q.selected == Some(p.answers[q.index])
    ensures p.index == p.questionCount - 1 ==> q == p
  {
    if p.index < p.questionCount - 1 then
      p.(index := p.index + 1, selected := Some(p.answers[p.index + 1]))
    else p
  }

  /** `handlePrevious`: move back unless at the first question, showing that question's stored answer. */
  function Previous(p: Page): (q: Page)
    requires Valid(p)
    ensures Valid(q) && q.answers == p.answers && q.remaining == p.remaining && q.captured == p.captured
    ensures p.index > 0 ==> q.index == p.index - 1 && q.selected == Some(p.answers[q.index])
    ensures p.index == 0 ==> q == p
  {
    if p.index > 0 then p.(index := p.index - 1, selected := Some(p.answers[p.index - 1])) else p
  }

  /** One second of the countdown. It does not run while loading or once at zero. Each second
      re-renders the page with the current answers, and the interval created in that render
      holds them; at the last second it submits that list and stops at zero. */
  function Tick(p: Page): (r: (Page, Option<seq<int>>))
    ensures r.0.answers == p.answers && r.0.index == p.index && r.0.loading == p.loading
    ensures p.loading || p.remaining <= 0 ==> r == (p, None)
    ensures !p.loading && p.remaining > 0 ==>
      && r.0.remaining == p.remaining - 1
      && (r.1.Some? <==> p.remaining == 1)
    ensures !p.loading && p.remaining > 1 ==> r.0.captured == p.answers
    ensures r.1.Some? ==> r.1.value == p.captured
    ensures Valid(p) ==> Valid(r.0)
  {
    if p.loading || p.remaining <= 0 then (p, None)
    else if p.remaining <= 1 then (p.(remaining := 0), Some(p.captured))
    else (p.(remaining := p.remaining - 1, captured := p.answers), None)
  }

  /** The countdown as the page evidently means it: the last second submits the answers on
      screen, including a choice made during that second. */
  function IntendedTick(p: Page): (r: (Page, Option<seq<int>>))
    ensures r.0 == Tick(p).0 && r.1.Some? == Tick(p).1.Some?
    ensures r.1.Some? ==> r.1.value == p.answers
  {
    var (q, submitted) := Tick(p);
    (q, if submitted.Some? then Some(p.answers) else None)
  }

  /** A choice made in the last second is lost: from two seconds left, one tick, a choice, and
      the timeout submits the answers as they were before the choice. */
  lemma LastSecondChoiceLost(p: Page, option: nat)
    requires Valid(p) && p.remaining == 2 && p.answers[p.index] != option as int
    ensures var chosen := AnswerSelect(Tick(p).0, option);
      && chosen.answers[p.index] == option as int
      && Tick(chosen).1 == Some(p.answers)
      && Tick(chosen).1.value[p.index] != chosen.answers[p.index]
  {
  }

  /** With the intended countdown the same choice reaches the server. */
  lemma IntendedLastSecondChoiceKept(p: Page, option: nat)
    requires Valid(p) && p.remaining == 2
    ensures var chosen := AnswerSelect(Tick(p).0, option);
      && IntendedTick(chosen).1 == Some(chosen.answers)
      && IntendedTick(chosen).1.value[p.index] == option as int
  {
  }

  /** The "Submit Test" button, shown only at the last question. */
  function SubmitButton(p: Page): (r: Option<seq<int>>)
    requires Valid(p)
    ensures r.Some? <==> p.index == p.questionCount - 1
    ensures r.Some? ==> r.value == p.answers
  {
    if p.index == p.questionCount - 1 then Some(p.answers) else None
  }

  /** Everything the user or the clock can do on the page. */
  datatype Action = Choose(option: nat) | GoNext | GoPrevious | Second

  function Apply(p: Page, a: Action): Page
    requires Valid(p)
  {
    match a
    case Choose(option) => AnswerSelect(p, option)
    case GoNext => Next(p)
    case GoPrevious => Previous(p)
    case Second => Tick(p).0
  }

  /** The page after a sequence of actions. */
  function Run(p: Page, actions: seq<Action>): (q: Page)
    requires Valid(p)
    ensures Valid(q)
    ensures |q.answers| == |p.answers|
    decreases |actions|
  {
    if |actions| == 0 then p else Run(Apply(p, actions[0]), actions[1..])
  }

  /** Whatever happens, the current question stays in range and the clock never goes below zero. */
  lemma RunKeepsIndexAndClockInRange(p: Page, actions: seq<Action>)
    requires Valid(p)
    ensures 0 <= Run(p, actions).index < |p.answers|
    ensures Run(p, actions).remaining >= 0
  {
  }

  /** The state after `k` seconds and the number of submissions the countdown made. */
  function Ticks(p: Page, k: nat): (Page, nat)
    decreases k
  {
    if k == 0 then (p, 0)
    else
      var (q, submitted) := Tick(p);
      var (last, count) := Ticks(q, k - 1);
      (last, count + (if submitted.Some? then 1 else 0))
  }

  /** Once started, the countdown reaches zero after `remaining` seconds having submitted exactly
      once, and any further second changes nothing. */
  lemma {:induction false} CountdownSubmitsOnce(p: Page, k: nat)
    requires !p.loading && p.remaining >= 0 && k >= p.remaining
    ensures Ticks(p, k) ==
      (p.(remaining := 0, captured := if p.remaining > 1 then p.answers else p.captured),
       if p.remaining > 0 then 1 else 0)
    decreases k
  {
    if k > 0 {
      var (q, _) := Tick(p);
      CountdownSubmitsOnce(q, k - 1);
    }
  }

  /** `padStart(2, "0")`. */
  function PadTwo(s: string): (r: string)
    ensures |s| >= 2 ==> r == s
    ensures |s| < 2 ==> |r| == 2 && r[2 - |s|..] == s && forall i :: 0 <= i < 2 - |s| ==> r[i] == '0'
  {
    if |s| >= 2 then s else seq(2 - |s|, _ => '0') + s
  }

  /** `formatTime`: whole minutes, a colon, and the seconds padded to two digits. */
  function FormatClock(seconds: int): (text: string)
    ensures seconds >= 0 ==>
      && |text| >= 4
      && text[|text| - 3] == ':'
      && IsDigit(text[|text| - 2]) && IsDigit(text[|text| - 1])
  {
    var (mins, secs) := SplitMinutes(seconds);
    var text := IntToString(mins) + ":" + PadTwo(IntToString(secs));
    assert seconds >= 0 ==> text[|text| - 2..] == PadTwo(NatToString(secs));
    text
  }

  /** Reads `m:ss` back into seconds. */
  function ParseClock(text: string): Option<nat> {
    if |text| >= 4 && text[|text| - 3] == ':' then
      match (ParseNat(text[..|text| - 3]), ParseNat(text[|text| - 2..]))
      case (Some(mins), Some(secs)) => if secs < 60 then Some(mins * 60 + secs) else None
      case _ => None
    else None
  }

  /** A padded seconds field reads back as the seconds it shows. */
  lemma PaddedSecondsValue(secs: nat)
    requires secs < 60
    ensures ParseNat(PadTwo(NatToString(secs))) == Some(secs)
  {
    var s := NatToString(secs);
    ParseNatToString(secs);
    if |s| < 2 {
      assert PadTwo(s) == "0" + s;
      LeadingZeroValue(s);
    }
  }

  lemma FormatClockShape(seconds: nat)
    ensures FormatClock(seconds) == IntToString(SplitMinutes(seconds).0) + ":" + PadTwo(IntToString(SplitMinutes(seconds).1))
  {
  }

  /** Minutes, a colon and two seconds digits read back as the seconds they stand for. */
  lemma ParseJoinedClock(m: string, ss: string, mins: nat, secs: nat)
    requires ParseNat(m) == Some(mins) && ParseNat(ss) == Some(secs) && |ss| == 2 && secs < 60
    ensures ParseClock(m + ":" + ss) == Some(mins * 60 + secs)
  {
    var text := m + ":" + ss;
    assert text[..|text| - 3] == m;
    assert text[|text| - 2..] == ss;
  }

  /** The clock text of a non-negative number of seconds reads back as that number. */
  lemma ParseFormatClock(seconds: nat)
    ensures ParseClock(FormatClock(seconds)) == Some(seconds)
  {
    var split := SplitMinutes(seconds);
    var mins: nat := split.0;
    var secs: nat := split.1;
    var m := NatToString(mins);
    var ss := PadTwo(NatToString(secs));
    var text := FormatClock(seconds);
    assert text == m + ":" + ss by {
      FormatClockShape(seconds);
    }
    assert ParseClock(m + ":" + ss) == Some(seconds) by {
      ParseNatToString(mins);
      PaddedSecondsValue(secs);
      ParseJoinedClock(m, ss, mins, secs);
    }
  }
}
