/** The static question bank served by `/test/start`. */
module QuestionBank {
  import opened Domain
  import Seqs

  /** The questions in bank order. */
  const Q01: Question := Question("What number comes next in the sequence: 2, 4, 8, 16, ?", ["24", "32", "20", "18"], 1, "math", "easy")
  const Q02: Question := Question("If all roses are flowers and some flowers fade quickly, can we conclude that some roses fade quickly?", ["Yes", "No", "Cannot be determined", "Only in summer"], 2, "verbal", "medium")
  const Q03: Question := Question("Which number doesn't belong: 2, 3, 5, 7, 9, 11?", ["2", "9", "7", "11"], 1, "pattern", "medium")
  const Q04: Question := Question("What is 15% of 200?", ["30", "25", "35", "20"], 0, "math", "easy")
  const Q05: Question := Question("Book is to Reading as Fork is to ?", ["Drawing", "Writing", "Eating", "Stirring"], 2, "verbal", "easy")
  const Q06: Question := Question("Complete the pattern: 1, 1, 2, 3, 5, 8, ?", ["11", "13", "12", "15"], 1, "pattern", "medium")
  const Q07: Question := Question("If 5x + 3 = 18, what is x?", ["3", "4", "5", "2"], 0, "math", "medium")
  const Q08: Question := Question("What comes next: A, C, E, G, ?", ["H", "I", "J", "K"], 1, "pattern", "easy")
  const Q09: Question := Question("Which word is the odd one out: Dog, Cat, Lion, Table, Tiger?", ["Dog", "Table", "Lion", "Tiger"], 1, "verbal", "easy")
  const Q10: Question := Question("What is the square root of 144?", ["11", "12", "13", "14"], 1, "math", "easy")
  const Q11: Question := Question("Complete: 3, 6, 12, 24, ?", ["36", "48", "42", "30"], 1, "pattern", "medium")
  const Q12: Question := Question("If you rearrange the letters 'CIFAIPC' you would have the name of a(n):", ["City", "Animal", "Ocean", "Country"], 2, "verbal", "hard")
  const Q13: Question := Question("What is 7 x 8?", ["54", "56", "58", "52"], 1, "math", "easy")
  const Q14: Question := Question("What comes next: 100, 50, 25, 12.5, ?", ["6.25", "6", "7", "5"], 0, "pattern", "medium")
  const Q15: Question := Question("Pen is to Writer as Brush is to ?", ["Paper", "Painter", "Color", "Canvas"], 1, "verbal", "easy")
  const Q16: Question := Question("If 3x - 7 = 11, what is x?", ["5", "6", "7", "8"], 1, "math", "medium")
  const Q17: Question := Question("Complete the sequence: 2, 6, 12, 20, 30, ?", ["40", "42", "44", "38"], 1, "pattern", "hard")
  const Q18: Question := Question("Which word means the opposite of 'Ancient'?", ["Old", "Modern", "Historic", "Antique"], 1, "verbal", "easy")
  const Q19: Question := Question("What is 25% of 80?", ["15", "20", "25", "30"], 1, "math", "easy")
  const Q20: Question := Question("Find the next number: 1, 4, 9, 16, 25, ?", ["30", "35", "36", "49"], 2, "pattern", "medium")

  const Bank: seq<Question> := [
    Q01, Q02, Q03, Q04, Q05, Q06, Q07, Q08, Q09, Q10, Q11, Q12, Q13, Q14, Q15, Q16, Q17, Q18, Q19, Q20
  ]

  /** Every bank entry's answer key indexes one of its options. */
  lemma BankWellFormed()
    ensures forall i :: 0 <= i < |Bank| ==> WellFormed(Bank[i])
  {
  }

  /** The bank lists twenty questions over three difficulty levels. */
  lemma BankShape()
    ensures |Bank| == 20
    ensures Bank[0].difficulty == "easy" && Bank[1].difficulty == "medium"
    ensures forall i :: 0 <= i < |Bank| ==> Bank[i].difficulty in {"easy", "medium", "hard"}
  {
  }

  /** No question appears twice in the bank. */
  lemma BankNoDuplicates()
    ensures Seqs.NoDuplicates(Bank)
  {
    BankPairwiseDistinct();
    Seqs.PairwiseDistinctHasNoDuplicates(Bank);
  }

  lemma BankPairwiseDistinct()
    ensures Seqs.PairwiseDistinct(Bank)
  {
    FirstHalfDistinct();
    SecondHalfDistinct();
    HalvesDistinct();
  }

  lemma FirstHalfDistinct()
    ensures forall i, j :: 0 <= i < j < 10 ==> Bank[i] != Bank[j]
  {
  }

  lemma SecondHalfDistinct()
    ensures forall i, j :: 10 <= i < j < 20 ==> Bank[i] != Bank[j]
  {
  }

  lemma HalvesDistinct()
    ensures forall i, j :: 0 <= i < 10 <= j < 20 ==> Bank[i] != Bank[j]
  {
  }
}
