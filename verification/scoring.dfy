/** `POST /test/submit`: count the correct answers of a stored test and estimate an IQ. */
module Scoring {
  import opened Wrappers
  import opened Domain
  import TestAssembly
  import AnswerSheet

  /** Answer `i` was submitted, belongs to a stored question, and matches its key. */
  predicate IsCorrect(questions: seq<Question>, answers: seq<int>, i: int) {
    0 <= i < |answers| && i < |questions| && answers[i] == questions[i].correctAnswer
  }

  /** The positions that score a point. */
  function CorrectPositions(questions: seq<Question>, answers: seq<int>): set<int> {
    set i | 0 <= i < |answers| && IsCorrect(questions, answers, i)
  }

  /** The number of correct answers, accumulated over the submitted list in order. */
  function CorrectCount(questions: seq<Question>, answers: seq<int>): (c: nat)
    ensures c <= |answers| && c <= |questions|
    decreases |answers|
  {
    if |answers| == 0 then 0
    else
      var last := |answers| - 1;
      CorrectCount(questions, answers[..last]) + (if IsCorrect(questions, answers, last) then 1 else 0)
  }

  /** The accumulated count is the number of scoring positions. */
  lemma {:induction false} CorrectCountIsCardinality(questions: seq<Question>, answers: seq<int>)
    ensures CorrectCount(questions, answers) == |CorrectPositions(questions, answers)|
    decreases |answers|
  {
    if |answers| > 0 {
      var last := |answers| - 1;
      var init := answers[..last];
      CorrectCountIsCardinality(questions, init);
      assert forall i :: 0 <= i < last ==> (IsCorrect(questions, init, i) <==> IsCorrect(questions, answers, i));
      if IsCorrect(questions, answers, last) {
        assert CorrectPositions(questions, answers) == CorrectPositions(questions, init) + {last};
      } else {
        assert CorrectPositions(questions, answers) == CorrectPositions(questions, init);
      }
    }
  }

  /** The scoring loop of `submit_test`. */
  method CountCorrect(questions: seq<Question>, answers: seq<int>) returns (count: nat)
    ensures count == |CorrectPositions(questions, answers)|
    ensures count <= |questions|
  {
    count := 0;
    var i := 0;
    while i < |answers|
      invariant 0 <= i <= |answers|
      invariant count == CorrectCount(questions, answers[..i])
    {
      assert answers[..i + 1][..i] == answers[..i];
      if i < |questions| && answers[i] == questions[i].correctAnswer {
        count := count + 1;
      }
      i := i + 1;
    }
    assert answers[..|answers|] == answers;
    CorrectCountIsCardinality(questions, answers);
  }

  /** Answers beyond the last stored question are ignored. */
  lemma AnswersPastEndIgnored(questions: seq<Question>, answers: seq<int>, extra: seq<int>)
    requires |answers| >= |questions|
    ensures CorrectPositions(questions, answers + extra) == CorrectPositions(questions, answers)
  {
  }

  /** The unanswered sentinel never scores against a well-formed question. */
  lemma UnansweredNeverCounts(questions: seq<Question>, answers: seq<int>, i: int)
    requires 0 <= i < |answers| && answers[i] == AnswerSheet.NoAnswer
    requires i < |questions| ==> WellFormed(questions[i])
    ensures i !in CorrectPositions(questions, answers)
  {
  }

  /** Python's `int()` on a float: truncation toward zero. */
  function Truncate(x: real): (r: int)
    ensures x >= 0.0 ==> r as real <= x < r as real + 1.0
    ensures x < 0.0 ==> r as real - 1.0 < x <= r as real
  {
    if x >= 0.0 then x.Floor else -((-x).Floor)
  }

  function Clamp(lo: int, hi: int, x: int): (r: int)
    requires lo <= hi
    ensures lo <= r <= hi
    ensures lo <= x <= hi ==> r == x
  {
    if x < lo then lo else if x > hi then hi else x
  }

  /** Score as a percentage; a test with no questions scores 0. */
  function Percentage(correct: nat, total: nat): (p: real)
    ensures total == 0 ==> p == 0.0
    ensures correct <= total ==> 0.0 <= p <= 100.0
  {
    if total > 0 then (correct as real / total as real) * 100.0 else 0.0
  }

  const BaseIq: int := 100
  const MinIq: int := 80
  const MaxIq: int := 140

  /** The estimate: 100 at 50%, 0.6 points per percentage point, clamped to [80, 140]. */
  function Iq(correct: nat, total: nat): (iq: int)
    ensures MinIq <= iq <= MaxIq
  {
    var variation := (Percentage(correct, total) - 50.0) * 0.6;
    Clamp(MinIq, MaxIq, Truncate(BaseIq as real + variation))
  }

  /** Real division of non-negative integers rounds down to integer division. */
  lemma FloorOfQuotient(x: int, t: int)
    requires x >= 0 && t > 0
    ensures (x as real / t as real).Floor == x / t
  {
    var q := x / t;
    var r := x % t;
    assert x == q * t + r && 0 <= r < t;
    assert (x as real) == (q as real) * (t as real) + (r as real);
    assert (x as real / t as real) == (q as real) + (r as real / t as real);
    assert 0.0 <= r as real / t as real < 1.0;
  }

  /** Before clamping, the estimate is the integer `(70 t + 60 c) div t`; with no questions it is 70. */
  lemma UnclampedIq(correct: nat, total: nat)
    ensures var raw := Truncate(BaseIq as real + (Percentage(correct, total) - 50.0) * 0.6);
      && (total == 0 ==> raw == 70)
      && (total > 0 ==> raw == (70 * total + 60 * correct) / total)
  {
    if total > 0 {
      var c := correct as real;
      var t := total as real;
      var q := c / t;
      assert q * t == c;
      var x := (70 * total + 60 * correct) as real;
      var quotient := x / t;
      assert quotient * t == x;
      assert (70.0 + 60.0 * q) * t == x;
      var d := 70.0 + 60.0 * q - quotient;
      assert d * t == 0.0;
      assert d == (d * t) / t;
      assert BaseIq as real + (q * 100.0 - 50.0) * 0.6 == quotient;
      FloorOfQuotient(70 * total + 60 * correct, total);
    }
  }

  /** The percentage grows with the number of correct answers. */
  lemma PercentageMonotone(c1: nat, c2: nat, total: nat)
    requires c1 <= c2
    ensures Percentage(c1, total) <= Percentage(c2, total)
  {
    if total > 0 {
      var t := total as real;
      assert c2 as real / t - c1 as real / t == (c2 - c1) as real / t;
    }
  }

  /** More correct answers never lower the estimate. */
  lemma IqMonotone(c1: nat, c2: nat, total: nat)
    requires c1 <= c2
    ensures Iq(c1, total) <= Iq(c2, total)
  {
    PercentageMonotone(c1, c2, total);
  }

  /** A perfect sheet scores 130, a sheet with nothing right scores the floor 80,
      and so does a test with no questions at all. */
  lemma IqExtremes(total: nat)
    ensures total > 0 ==> Iq(total, total) == 130
    ensures Iq(0, total) == MinIq
  {
    if total > 0 {
      assert total as real / total as real == 1.0;
      assert Percentage(total, total) == 100.0;
    }
  }

  /** With no more correct answers than questions the estimate never exceeds 130. */
  lemma IqAtMost130(correct: nat, total: nat)
    requires correct <= total
    ensures Iq(correct, total) <= 130
  {
    IqMonotone(correct, total, total);
    IqExtremes(total);
  }

  /** The estimate reaches 130 only for a sheet with every question right. */
  lemma {:induction false} Iq130OnlyWhenPerfect(correct: nat, total: nat)
    requires correct <= total
    ensures Iq(correct, total) >= 130 ==> total > 0 && correct == total
  {
    if total == 0 {
      IqExtremes(total);
    } else if correct < total {
      IqMonotone(correct, total - 1, total);
      UnclampedIq(total - 1, total);
      var x := 70 * total + 60 * (total - 1);
      var q := x / total;
      assert q * total <= x;
      assert q < 130;
    }
  }

  datatype SubmitRequest = SubmitRequest(testId: string, answers: seq<int>)

  /** The stored and returned result of a submission. */
  datatype TestResult = TestResult(testId: string, correctAnswers: nat, totalQuestions: nat, iqScore: int)

  datatype SubmitError = SessionNotFound

  /** Scores a submission against the stored test; `sessions` stands for the session collection. */
  method SubmitTest(sessions: map<string, TestAssembly.TestSession>, request: SubmitRequest)
    returns (r: Result<TestResult, SubmitError>)
    ensures r.Failure? <==> request.testId !in sessions
    ensures r.Success? ==>
      var questions := sessions[request.testId].questions;
      && r.value.testId == request.testId
      && r.value.totalQuestions == |questions|
      && r.value.correctAnswers == |CorrectPositions(questions, request.answers)|
      && r.value.correctAnswers <= r.value.totalQuestions
      && r.value.iqScore == Iq(r.value.correctAnswers, r.value.totalQuestions)
  {
    if request.testId !in sessions {
      return Failure(SessionNotFound);
    }
    var questions := sessions[request.testId].questions;
    var correct := CountCorrect(questions, request.answers);
    r := Success(TestResult(request.testId, correct, |questions|, Iq(correct, |questions|)));
  }

  /** A sheet left entirely blank (every question timed out) scores nothing and gets the floor IQ. */
  lemma BlankSheetScoresFloor(questions: seq<Question>)
    requires forall i :: 0 <= i < |questions| ==> WellFormed(questions[i])
    ensures CorrectPositions(questions, AnswerSheet.Blank(|questions|)) == {}
    ensures Iq(|CorrectPositions(questions, AnswerSheet.Blank(|questions|))|, |questions|) == MinIq
  {
    var blank := AnswerSheet.Blank(|questions|);
    forall i | 0 <= i < |blank| ensures i !in CorrectPositions(questions, blank) {
      UnansweredNeverCounts(questions, blank, i);
    }
    IqExtremes(|questions|);
  }
}
