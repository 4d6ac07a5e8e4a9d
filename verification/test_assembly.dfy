/** `POST /test/start`: choose the questions of a new test and build the client's view of them. */
module TestAssembly {
  import opened Wrappers
  import opened Seqs
  import opened Decimal
  import opened Domain
  import QuestionBank

  /** The category sentinel that disables category filtering. */
  const AllTypes: string := "all"

  /** Number of questions for a duration class; an unknown class falls back to ten. */
  function QuestionCount(duration: string): (n: nat)
    ensures n == 5 <==> duration == "short"
    ensures n == 20 <==> duration == "long"
    ensures n == 10 <==> duration != "short" && duration != "long"
  {
    var table := map["short" := 5, "medium" := 10, "long" := 20];
    if duration in table then table[duration] else 10
  }

  /** A question passes the category filter when "all" is requested or its category is. */
  predicate PassesCategory(types: seq<string>, q: Question) {
    AllTypes in types || q.category in types
  }

  predicate MatchesConfig(config: TestConfig, q: Question) {
    q.difficulty == config.difficulty && PassesCategory(config.questionTypes, q)
  }

  /** First pass: bank questions of the requested difficulty and categories, in bank order. */
  function DifficultyFilter(bank: seq<Question>, config: TestConfig): (r: seq<Question>)
    ensures forall q :: q in r <==> q in bank && q.difficulty == config.difficulty
                                    && PassesCategory(config.questionTypes, q)
    ensures multiset(r) <= multiset(bank)
  {
    Filter(bank, q => MatchesConfig(config, q))
  }

  /** Fallback pass: bank questions of the requested categories, whatever their difficulty. */
  function CategoryFilter(bank: seq<Question>, config: TestConfig): (r: seq<Question>)
    ensures forall q :: q in r <==> q in bank && PassesCategory(config.questionTypes, q)
    ensures multiset(r) <= multiset(bank)
  {
    Filter(bank, q => PassesCategory(config.questionTypes, q))
  }

  /** The candidates the test is drawn from: the first pass, or the fallback when it is too short. */
  function Pool(bank: seq<Question>, config: TestConfig): (r: seq<Question>)
    ensures multiset(r) <= multiset(bank)
    ensures forall q :: q in r ==> q in bank && PassesCategory(config.questionTypes, q)
  {
    var first := DifficultyFilter(bank, config);
    if |first| < QuestionCount(config.duration) then CategoryFilter(bank, config) else first
  }

  /** With enough matches, the pool is exactly the questions of the requested difficulty and categories. */
  lemma PoolWhenEnoughMatch(bank: seq<Question>, config: TestConfig)
    requires |DifficultyFilter(bank, config)| >= QuestionCount(config.duration)
    ensures forall q :: q in Pool(bank, config) <==>
      q in bank && q.difficulty == config.difficulty && PassesCategory(config.questionTypes, q)
  {
  }

  /** With too few matches, difficulty is ignored and only the category filter applies. */
  lemma PoolFallback(bank: seq<Question>, config: TestConfig)
    requires |DifficultyFilter(bank, config)| < QuestionCount(config.duration)
    ensures forall q :: q in Pool(bank, config) <==> q in bank && PassesCategory(config.questionTypes, q)
  {
  }

  /** A test that needs every bank question cannot meet it from one difficulty level
      when the bank mixes levels, so it always ignores the requested difficulty. */
  lemma {:induction false} FullBankTestIgnoresDifficulty(bank: seq<Question>, config: TestConfig, i: nat, j: nat)
    requires QuestionCount(config.duration) >= |bank|
    requires i < |bank| && j < |bank| && bank[i].difficulty != bank[j].difficulty
    ensures Pool(bank, config) == CategoryFilter(bank, config)
  {
    if |DifficultyFilter(bank, config)| >= QuestionCount(config.duration) {
      FilterKeepsAllOnlyIfAllPass(bank, q => MatchesConfig(config, q));
      assert false;
    }
  }

  /** On the real bank a long test (twenty questions) always ignores the requested difficulty. */
  lemma LongTestIgnoresDifficulty(config: TestConfig)
    requires config.duration == "long"
    ensures Pool(QuestionBank.Bank, config) == CategoryFilter(QuestionBank.Bank, config)
  {
    QuestionBank.BankShape();
    FullBankTestIgnoresDifficulty(QuestionBank.Bank, config, 0, 1);
  }

  /** `random.shuffle` is modelled as any reordering of the pool. */
  predicate IsShuffleOf(shuffled: seq<Question>, s: seq<Question>) {
    multiset(shuffled) == multiset(s)
  }

  /** The client view: positional ids "0", "1", ... and no answer key or difficulty. */
  function ClientView(selected: seq<Question>): (r: seq<ClientQuestion>)
    ensures |r| == |selected|
    ensures forall i :: 0 <= i < |r| ==>
      && r[i].id == NatToString(i)
      && r[i].text == selected[i].text
      && r[i].options == selected[i].options
      && r[i].category == selected[i].category
  {
    seq(|selected|, i requires 0 <= i < |selected| =>
      ClientQuestion(NatToString(i), selected[i].text, selected[i].options, selected[i].category))
  }

  /** Every client id reads back as its own position, so ids are distinct. */
  lemma ClientIdsArePositions(selected: seq<Question>)
    ensures forall i :: 0 <= i < |selected| ==> ParseNat(ClientView(selected)[i].id) == Some(i)
    ensures forall i, j :: 0 <= i < j < |selected| ==> ClientView(selected)[i].id != ClientView(selected)[j].id
  {
    var view := ClientView(selected);
    forall i | 0 <= i < |selected| ensures ParseNat(view[i].id) == Some(i) {
      ParseNatToString(i);
    }
  }

  /** What the server keeps for a test: the selected questions with their answer keys. */
  datatype TestSession = TestSession(testId: string, questions: seq<Question>, config: TestConfig)

  /** What `/test/start` returns to the client. */
  datatype StartResponse = StartResponse(testId: string, questions: seq<ClientQuestion>, durationMinutes: nat)

  datatype Started = Started(session: TestSession, response: StartResponse)

  /** Builds a new test from `bank`. `shuffled` is the pool after the random shuffle and
      `testId` the freshly generated identifier. */
  function StartTest(bank: seq<Question>, config: TestConfig, shuffled: seq<Question>, testId: string): (r: Started)
    requires IsShuffleOf(shuffled, Pool(bank, config))
    ensures |r.session.questions| == Min(QuestionCount(config.duration), |Pool(bank, config)|)
    ensures multiset(r.session.questions) <= multiset(Pool(bank, config))
    ensures forall q :: q in r.session.questions ==> q in bank && PassesCategory(config.questionTypes, q)
    ensures r.session.testId == testId && r.response.testId == testId && r.session.config == config
    ensures r.response.questions == ClientView(r.session.questions)
    ensures r.response.durationMinutes == QuestionCount(config.duration)
  {
    var n := QuestionCount(config.duration);
    var selected := shuffled[..Min(n, |shuffled|)];
    PrefixMultiset(shuffled, Min(n, |shuffled|));
    assert forall q :: q in selected ==> q in multiset(shuffled);
    Started(TestSession(testId, selected, config), StartResponse(testId, ClientView(selected), n))
  }

  /** Drawn from a bank of distinct, well-formed questions, a test never asks the same
      question twice and every answer key it stores is usable. */
  lemma StartTestSound(bank: seq<Question>, config: TestConfig, shuffled: seq<Question>, testId: string)
    requires IsShuffleOf(shuffled, Pool(bank, config))
    requires NoDuplicates(bank)
    requires forall i :: 0 <= i < |bank| ==> WellFormed(bank[i])
    ensures var qs := StartTest(bank, config, shuffled, testId).session.questions;
      NoDuplicates(qs) && forall i :: 0 <= i < |qs| ==> WellFormed(qs[i])
  {
    var qs := StartTest(bank, config, shuffled, testId).session.questions;
    SubMultisetNoDuplicates(qs, bank);
    forall i | 0 <= i < |qs| ensures WellFormed(qs[i]) {
      assert qs[i] in bank;
    }
  }
}
