/** The client's answer array: one entry per question, `-1` for "not answered". */
module AnswerSheet {

  /** The sentinel for a question left unanswered or timed out. */
  const NoAnswer: int := -1

  /** A fresh sheet: `new Array(n).fill(-1)`. */
  function Blank(n: nat): (sheet: seq<int>)
    ensures |sheet| == n
    ensures forall i :: 0 <= i < n ==> sheet[i] == NoAnswer
  {
    if n == 0 then [] else Blank(n - 1) + [NoAnswer]
  }

  /** Copy the sheet and overwrite the entry of question `i`. */
  function Record(sheet: seq<int>, i: nat, answer: int): (r: seq<int>)
    requires i < |sheet|
    ensures |r| == |sheet| && r[i] == answer
    ensures forall j :: 0 <= j < |sheet| && j != i ==> r[j] == sheet[j]
  {
    sheet[..i] + [answer] + sheet[i + 1..]
  }

  /** Every entry is an option index or the sentinel. */
  predicate Valid(sheet: seq<int>) {
    forall i :: 0 <= i < |sheet| ==> sheet[i] >= NoAnswer
  }
}
