/** The test page of `TestPage.jsx`: one question at a time, a 60-second timer per question,
    no way back, and submission when the last question is left. */
module QuestionTimerPage {
  import opened Wrappers
  import opened Domain
  import AnswerSheet
  import Landing

  /** Seconds allowed per question. */
  const QuestionSeconds: int := 60

  /** The configuration used when the page is opened without one. */
  const DefaultConfig: TestConfig := TestConfig("medium", ["all"], "medium")

  /** `location.state?.config || default`: an absent configuration is replaced by the one
      the landing page would send if the user changed nothing. */
  function EffectiveConfig(passed: Option<TestConfig>): (c: TestConfig)
    ensures passed.Some? ==> c == passed.value
    ensures passed.None? ==> c == Landing.StartConfig(Landing.Initial())
  {
    passed.GetOr(DefaultConfig)
  }

  /** The page state once the questions have loaded. */
  datatype Page = Page(
    questionCount: nat,
    answers: seq<int>,
    index: nat,
    selected: Option<nat>,
    timeLeft: int,
    submitting: bool)

  /** A transition's new state and the answer list it submits, if it submits one. */
  datatype Step = Step(page: Page, submission: Option<seq<int>>)

  /** One answer slot per question, a current question that exists, and a running timer. */
  predicate Valid(p: Page) {
    && p.questionCount > 0
    && |p.answers| == p.questionCount
    && p.index < p.questionCount
    && 1 <= p.timeLeft <= QuestionSeconds
    && AnswerSheet.Valid(p.answers)
  }

  /** The state right after `startTest` received `questionCount` questions. */
  function Loaded(questionCount: nat): (p: Page)
    ensures |p.answers| == questionCount
    ensures forall i :: 0 <= i < questionCount ==> p.answers[i] == AnswerSheet.NoAnswer
    ensures p.questionCount == questionCount && p.timeLeft == QuestionSeconds
    ensures p.index == 0 && p.selected.None? && !p.submitting
    ensures questionCount > 0 ==> Valid(p)
  {
    Page(questionCount, AnswerSheet.Blank(questionCount), 0, None, QuestionSeconds, false)
  }

  /** Clicking option `option` only highlights it; nothing is recorded yet. */
  function SelectOption(p: Page, option: nat): (q: Page)
    ensures q.selected == Some(option)
    ensures q.answers == p.answers && q.index == p.index && q.timeLeft == p.timeLeft
    ensures Valid(p) ==> Valid(q)
  {
    p.(selected := Some(option))
  }

  /** `handleNextQuestion`: record the selection (or `-1`), then move on or submit. */
  function NextQuestion(p: Page): (s: Step)
    requires Valid(p)
    ensures Valid(s.page)
    ensures |s.page.answers| == |p.answers|
    ensures s.page.answers[p.index] == (if p.selected.Some? then p.selected.value else AnswerSheet.NoAnswer)
    ensures forall j :: 0 <= j < |p.answers| && j != p.index ==> s.page.answers[j] == p.answers[j]
    ensures p.index < p.questionCount - 1 ==>
      && s.page.index == p.index + 1
      && s.page.selected.None?
      && s.page.timeLeft == QuestionSeconds
      && s.submission.None?
    ensures p.index == p.questionCount - 1 ==>
      && s.page.index == p.index
      && s.page.submitting
      && s.submission == Some(s.page.answers)
  {
    var answer := if p.selected.Some? then p.selected.value else AnswerSheet.NoAnswer;
    var recorded := AnswerSheet.Record(p.answers, p.index, answer);
    if p.index < p.questionCount - 1 then
      Step(p.(answers := recorded, index := p.index + 1, selected := None, timeLeft := QuestionSeconds), None)
    else
      Step(p.(answers := recorded, submitting := true), Some(recorded))
  }

  /** The "Next Question" / "Submit Test" button: disabled while nothing is selected or
      a submission is in flight. */
  function ManualNext(p: Page): (s: Option<Step>)
    requires Valid(p)
    ensures s.None? <==> p.selected.None? || p.submitting
    ensures s.Some? ==> s.value == NextQuestion(p)
  {
    if p.selected.None? || p.submitting then None else Some(NextQuestion(p))
  }

  /** One second of the per-question timer. At the last second the question is left through
      the `handleNextQuestion` the interval captured when the question opened; in that render
      nothing was selected yet, so `-1` is recorded whatever is highlighted now. The timer
      restarts, and a highlight on the last question stays on screen. */
  function Tick(p: Page): (s: Step)
    requires Valid(p)
    ensures Valid(s.page)
    ensures p.timeLeft > 1 ==>
      s == Step(p.(timeLeft := p.timeLeft - 1), None)
    ensures p.timeLeft <= 1 ==>
      var next := NextQuestion(p.(selected := None));
      && s.submission == next.submission
      && s.page.answers == next.page.answers
      && s.page.index == next.page.index
      && s.page.submitting == next.page.submitting
      && s.page.timeLeft == QuestionSeconds
      && s.page.selected == (if next.submission.Some? then p.selected else None)
    ensures p.timeLeft <= 1 ==> s.page.answers[p.index] == AnswerSheet.NoAnswer
  {
    if p.timeLeft <= 1 then
      var stale := NextQuestion(p.(selected := None));
      var shown := if stale.submission.Some? then p.selected else None;
      Step(stale.page.(timeLeft := QuestionSeconds, selected := shown), stale.submission)
    else
      Step(p.(timeLeft := p.timeLeft - 1), None)
  }

  /** The timer as the page evidently means it: at the last second the question is left as if
      "next" were pressed, recording the highlighted option or `-1`. */
  function IntendedTick(p: Page): (s: Step)
    requires Valid(p)
    ensures Valid(s.page)
    ensures p.timeLeft > 1 ==> s == Tick(p)
    ensures p.timeLeft <= 1 ==>
      s == Step(NextQuestion(p).page.(timeLeft := QuestionSeconds), NextQuestion(p).submission)
    ensures p.timeLeft <= 1 ==>
      s.page.answers[p.index] == (if p.selected.Some? then p.selected.value else AnswerSheet.NoAnswer)
  {
    if p.timeLeft <= 1 then
      var next := NextQuestion(p);
      Step(next.page.(timeLeft := QuestionSeconds), next.submission)
    else
      Tick(p)
  }

  /** The state after `k` timer ticks, and how many submissions they made. */
  function Ticks(p: Page, k: nat): (r: (Page, nat))
    requires Valid(p)
    ensures Valid(r.0)
    ensures |r.0.answers| == |p.answers|
    decreases k
  {
    if k == 0 then (p, 0)
    else
      var s := Tick(p);
      var rest := Ticks(s.page, k - 1);
      (rest.0, rest.1 + (if s.submission.Some? then 1 else 0))
  }

  /** Left alone, a question stays current until its timer runs down to one second ... */
  lemma {:induction false} TimerCountsDown(p: Page, k: nat)
    requires Valid(p) && k < p.timeLeft
    ensures Ticks(p, k) == (p.(timeLeft := p.timeLeft - k), 0)
    decreases k
  {
    if k > 0 {
      var s := Tick(p);
      TimerCountsDown(s.page, k - 1);
    }
  }

  /** ... and when it runs out the page has moved on as "next" would with nothing selected:
      `-1` is recorded for the question, and the timer is back at 60 seconds. */
  lemma {:induction false} TimeoutActsAsNext(p: Page)
    requires Valid(p)
    ensures var r := Ticks(p, p.timeLeft as nat);
      var next := NextQuestion(p.(selected := None));
      && r.0.answers == next.page.answers
      && r.0.index == next.page.index
      && r.0.timeLeft == QuestionSeconds
      && r.0.answers[p.index] == AnswerSheet.NoAnswer
      && r.1 == (if next.submission.Some? then 1 else 0)
    decreases p.timeLeft
  {
    var q := Tick(p).page;
    if p.timeLeft > 1 {
      TimeoutActsAsNext(q);
      SameStepWhateverTheTimer(p.(selected := None), q.(selected := None));
    }
  }

  /** The timeout and the "next" button disagree: with an option highlighted when the time
      runs out, the timeout records `-1` where the button would have recorded the option. */
  lemma TimeoutDiscardsHighlight(p: Page)
    requires Valid(p) && p.selected.Some? && !p.submitting
    ensures ManualNext(p).Some?
    ensures Ticks(p, p.timeLeft as nat).0.answers[p.index] == AnswerSheet.NoAnswer
    ensures ManualNext(p).value.page.answers[p.index] == p.selected.value
    ensures Ticks(p, p.timeLeft as nat).0.answers[p.index] != ManualNext(p).value.page.answers[p.index]
  {
    TimeoutActsAsNext(p);
  }

  /** With the intended timer, the last second leaves the question exactly as "next" would,
      keeping the highlighted option. */
  lemma {:induction false} IntendedTimeoutActsAsNext(p: Page)
    requires Valid(p)
    ensures var last := Ticks(p, (p.timeLeft - 1) as nat);
      && last.1 == 0
      && IntendedTick(last.0) == Step(NextQuestion(p).page.(timeLeft := QuestionSeconds), NextQuestion(p).submission)
    decreases p.timeLeft
  {
    if p.timeLeft > 1 {
      var q := Tick(p).page;
      IntendedTimeoutActsAsNext(q);
      SameStepWhateverTheTimer(p, q);
    }
  }

  /** The timer value does not influence what "next" records or where it goes. */
  lemma SameStepWhateverTheTimer(p: Page, q: Page)
    requires Valid(p) && Valid(q) && q == p.(timeLeft := q.timeLeft)
    ensures NextQuestion(q).page.(timeLeft := QuestionSeconds) == NextQuestion(p).page.(timeLeft := QuestionSeconds)
    ensures NextQuestion(q).submission == NextQuestion(p).submission
  {
  }

  /** `k` presses of "next" from the current question, with the submissions they made. */
  function Advance(p: Page, k: nat): (r: (Page, seq<seq<int>>))
    requires Valid(p)
    ensures Valid(r.0)
    decreases k
  {
    if k == 0 then (p, [])
    else
      var s := NextQuestion(p);
      var rest := Advance(s.page, k - 1);
      (rest.0, (if s.submission.Some? then [s.submission.value] else []) + rest.1)
  }

  /** Going through the remaining questions submits exactly once, at the last question, and
      the submitted list has one entry per question. */
  lemma {:induction false} AdvanceSubmitsOnceAtEnd(p: Page)
    requires Valid(p)
    ensures var r := Advance(p, p.questionCount - p.index);
      && r.0.index == p.questionCount - 1
      && |r.1| == 1
      && |r.1[0]| == p.questionCount
    decreases p.questionCount - p.index
  {
    var s := NextQuestion(p);
    if p.index < p.questionCount - 1 {
      AdvanceSubmitsOnceAtEnd(s.page);
      assert p.questionCount - p.index - 1 == s.page.questionCount - s.page.index;
    }
  }
}
