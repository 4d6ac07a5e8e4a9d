/** The landing page's configuration form: duration, question types and difficulty.
    `LandingPage.jsx` and `LandingPage.js` carry the same state and handlers, modelled once here. */
module Landing {
  import opened Seqs
  import opened Domain

  /** The type entry meaning "every category"; it is never combined with specific types. */
  const All: string := "all"

  datatype LandingState = LandingState(duration: string, questionTypes: seq<string>, difficulty: string)

  /** The form as first rendered. */
  function Initial(): (st: LandingState)
    ensures st.duration == "medium" && st.difficulty == "medium"
    ensures st.questionTypes == [All] && ValidTypes(st.questionTypes)
  {
    LandingState("medium", [All], "medium")
  }

  /** The type list behaves as a non-empty set in which "all" stands alone. */
  ghost predicate ValidTypes(types: seq<string>) {
    && |types| > 0
    && NoDuplicates(types)
    && (All in types ==> types == [All])
  }

  /** `toggleQuestionType`: the handler behind the four type buttons. */
  function Toggle(types: seq<string>, t: string): (r: seq<string>)
    ensures t == All ==> r == [All]
    ensures t != All && All in types ==> r == [t]
    ensures t != All && All !in types && t in types ==>
      && t !in r
      && (r == [All] <==> forall i :: 0 <= i < |types| ==> types[i] == t)
      && (r != [All] ==> r == Filter(types, x => x != t))
    ensures t != All && All !in types && t !in types ==> r == types + [t]
  {
    if t == All then [All]
    else if All in types then [t]
    else if t in types then
      var remaining := Filter(types, x => x != t);
      FilterEmptyIffAllEqual(types, t);
      if |remaining| == 0 then [All] else remaining
    else types + [t]
  }

  lemma {:induction false} FilterEmptyIffAllEqual(types: seq<string>, t: string)
    ensures |Filter(types, x => x != t)| == 0 <==> forall i :: 0 <= i < |types| ==> types[i] == t
  {
    var remaining := Filter(types, x => x != t);
    if |remaining| > 0 {
      assert remaining[0] in remaining;
    } else {
      forall i | 0 <= i < |types| ensures types[i] == t {
        assert types[i] in types;
      }
    }
  }

  /** Every toggle keeps the list non-empty, duplicate-free and with "all" alone. */
  lemma TogglePreservesValid(types: seq<string>, t: string)
    requires ValidTypes(types)
    ensures ValidTypes(Toggle(types, t))
  {
    var r := Toggle(types, t);
    if t != All && All !in types {
      if t in types {
        var remaining := Filter(types, x => x != t);
        if |remaining| > 0 {
          SubMultisetNoDuplicates(remaining, types);
        }
      } else {
        assert multiset(r) == multiset(types) + multiset{t};
        assert NoDuplicates(r) by {
          forall x ensures multiset(r)[x] <= 1 {
            if x == t {
              assert multiset(types)[t] == 0;
            }
          }
        }
      }
    }
  }

  /** Toggling a type that is not selected and then toggling it again gives back the same list. */
  lemma ToggleTwiceExact(types: seq<string>, t: string)
    requires ValidTypes(types) && t != All && All !in types && t !in types
    ensures Toggle(Toggle(types, t), t) == types
  {
    var once := types + [t];
    assert Toggle(types, t) == once;
    assert Filter(once, x => x != t) == types by {
      FilterConcat(types, [t], x => x != t);
      assert Filter([t], x => x != t) == [];
      FilterAllPass(types, x => x != t);
    }
  }

  lemma AllEqualCount(types: seq<string>, t: string)
    requires forall i :: 0 <= i < |types| ==> types[i] == t
    ensures multiset(types)[t] == |types|
  {
    if |types| > 0 {
      assert types == [types[0]] + types[1..];
      AllEqualCount(types[1..], t);
    }
  }

  /** Toggling a specific type twice restores the selected set of types. */
  lemma ToggleTwiceRestoresSet(types: seq<string>, t: string)
    requires ValidTypes(types) && t != All
    ensures forall x :: x in Toggle(Toggle(types, t), t) <==> x in types
  {
    if All in types {
      assert types == [All];
    } else if t in types {
      var remaining := Filter(types, x => x != t);
      FilterEmptyIffAllEqual(types, t);
      if |remaining| == 0 {
        AllEqualCount(types, t);
        assert |types| == 1;
        assert types == [t];
      }
    } else {
      ToggleTwiceExact(types, t);
    }
  }

  /** The configuration `handleStartTest` sends to the test page. */
  function StartConfig(s: LandingState): (c: TestConfig)
    ensures c.duration == s.duration && c.questionTypes == s.questionTypes && c.difficulty == s.difficulty
  {
    TestConfig(s.duration, s.questionTypes, s.difficulty)
  }

  /** The user's interactions with the form. */
  datatype Action = ChooseDuration(duration: string) | ToggleType(t: string) | ChooseDifficulty(difficulty: string)

  function Apply(s: LandingState, a: Action): LandingState {
    match a
    case ChooseDuration(d) => s.(duration := d)
    case ToggleType(t) => s.(questionTypes := Toggle(s.questionTypes, t))
    case ChooseDifficulty(d) => s.(difficulty := d)
  }

  /** The form after a sequence of interactions, starting from the initial state. */
  function Run(actions: seq<Action>): LandingState
    decreases |actions|
  {
    if |actions| == 0 then Initial() else Apply(Run(actions[..|actions| - 1]), actions[|actions| - 1])
  }

  /** Whatever the user clicks, the configuration sent on start has a valid type list. */
  lemma {:induction false} StartConfigAlwaysValid(actions: seq<Action>)
    ensures ValidTypes(StartConfig(Run(actions)).questionTypes)
    decreases |actions|
  {
    if |actions| == 0 {
      assert multiset([All])[All] == 1;
    } else {
      StartConfigAlwaysValid(actions[..|actions| - 1]);
      var last := actions[|actions| - 1];
      if last.ToggleType? {
        TogglePreservesValid(Run(actions[..|actions| - 1]).questionTypes, last.t);
      }
    }
  }
}
