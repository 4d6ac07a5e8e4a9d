/** The results page of `ResultsPage.jsx`: the score description, the colour of the
    performance-level badge, and the legend of score ranges under them. */
module ResultsReport {
  import opened Wrappers
  import opened Text

  /** The five levels the page distinguishes, from the top. */
  datatype Level = Superior | AboveAverage | HighAverage | Average | BelowAverage

  /** Position of a level, the bottom level first. */
  function Rank(l: Level): nat {
    match l
    case BelowAverage => 0
    case Average => 1
    case HighAverage => 2
    case AboveAverage => 3
    case Superior => 4
  }

  /** The level whose description `getIQDescription` shows for a score. */
  function DescriptionLevel(iq: int): (l: Level)
    ensures l == Superior <==> iq >= 130
    ensures l == AboveAverage <==> 120 <= iq < 130
    ensures l == HighAverage <==> 110 <= iq < 120
    ensures l == Average <==> 90 <= iq < 110
    ensures l == BelowAverage <==> iq < 90
  {
    if iq >= 130 then Superior
    else if iq >= 120 then AboveAverage
    else if iq >= 110 then HighAverage
    else if iq >= 90 then Average
    else BelowAverage
  }

  /** A higher score never gets a lower description. */
  lemma DescriptionMonotone(iq1: int, iq2: int)
    requires iq1 <= iq2
    ensures Rank(DescriptionLevel(iq1)) <= Rank(DescriptionLevel(iq2))
  {
  }

  /** `getIQDescription`. */
  function Description(iq: int): string {
    match DescriptionLevel(iq)
    case Superior => "Your score indicates superior intellectual ability. You excel at complex problem-solving and abstract reasoning."
    case AboveAverage => "Your score shows above-average intelligence. You demonstrate strong analytical and logical thinking skills."
    case HighAverage => "Your score reflects high-average intelligence with good problem-solving capabilities."
    case Average => "Your score indicates average intelligence with solid cognitive abilities."
    case BelowAverage => "Your score suggests room for improvement in logical reasoning and pattern recognition."
  }

  /** The badge classes of one colour family. */
  function Palette(color: string): string {
    "bg-" + color + "-100 text-" + color + "-700 border-" + color + "-200"
  }

  /** The four coloured badges differ from the neutral one. */
  lemma ColorsDiffer()
    ensures Palette("purple") != Palette("gray") && Palette("green") != Palette("gray")
    ensures Palette("blue") != Palette("gray") && Palette("orange") != Palette("gray")
  {
    assert Palette("purple")[3] != Palette("gray")[3];
    assert Palette("green")[5] != Palette("gray")[5];
    assert Palette("blue")[3] != Palette("gray")[3];
    assert Palette("orange")[3] != Palette("gray")[3];
  }

  /** `getPerformanceColor`: the performance level is compared lower-cased; an absent or
      unknown level gets the neutral palette. */
  function PerformanceColor(level: Option<string>): (classes: string)
    ensures level.None? ==> classes == Palette("gray")
    ensures classes == Palette("gray") <==>
      level.None? || !KnownLevel(ToLower(level.value)) || ToLower(level.value) == "average"
  {
    if level.None? then Palette("gray")
    else
      ColorsDiffer();
      var key := ToLower(level.value);
      if key == "superior" then Palette("purple")
      else if key == "above average" then Palette("green")
      else if key == "high average" then Palette("blue")
      else if key == "average" then Palette("gray")
      else if key == "below average" then Palette("orange")
      else Palette("gray")
  }

  /** The five level names the colour switch knows. */
  predicate KnownLevel(key: string) {
    key == "superior" || key == "above average" || key == "high average" || key == "average" || key == "below average"
  }

  /** Only the letter case of the level matters. */
  lemma ColorIgnoresCase(level: string)
    ensures PerformanceColor(Some(level)) == PerformanceColor(Some(ToLower(level)))
  {
    ToLowerIdempotent(level);
  }

  /** An absent level and any level the switch does not know look like "average". */
  lemma UnknownLevelLooksAverage(level: Option<string>)
    requires level.Some? ==> !KnownLevel(ToLower(level.value))
    ensures PerformanceColor(level) == PerformanceColor(Some("average"))
  {
    assert ToLower("average") == "average";
  }

  /** One box of the score legend: its range, its level name and its colour family. */
  datatype LegendEntry = LegendEntry(low: int, high: Option<int>, name: string, color: string)

  /** The legend under the results, top box first. */
  const Legend: seq<LegendEntry> := [
    LegendEntry(130, None, "Superior", "purple"),
    LegendEntry(120, Some(129), "Above Average", "green"),
    LegendEntry(110, Some(119), "High Average", "blue"),
    LegendEntry(90, Some(109), "Average", "gray"),
    LegendEntry(80, Some(89), "Below Average", "orange")
  ]

  /** The level of each legend box, top box first. */
  function LegendLevel(i: nat): Level
    requires i < 5
  {
    [Superior, AboveAverage, HighAverage, Average, BelowAverage][i]
  }

  predicate InLegendRange(e: LegendEntry, iq: int) {
    e.low <= iq && (e.high.None? || iq <= e.high.value)
  }

  /** Every score a legend box covers gets that box's description. */
  lemma LegendMatchesDescription(i: nat, iq: int)
    requires i < |Legend| && InLegendRange(Legend[i], iq)
    ensures DescriptionLevel(iq) == LegendLevel(i)
  {
  }

  /** The legend's boxes do not overlap and leave no gap from 80 upwards. */
  lemma LegendCoversFrom80(iq: int)
    ensures iq >= 80 <==> exists i :: 0 <= i < |Legend| && InLegendRange(Legend[i], iq)
    ensures forall i, j :: 0 <= i < j < |Legend| ==> !(InLegendRange(Legend[i], iq) && InLegendRange(Legend[j], iq))
  {
    if iq >= 80 {
      var i := if iq >= 130 then 0 else if iq >= 120 then 1 else if iq >= 110 then 2 else if iq >= 90 then 3 else 4;
      assert InLegendRange(Legend[i], iq);
    }
  }

  /** A badge showing a legend box's name gets that box's colour. */
  lemma LegendColorsMatchBadge(i: nat)
    requires i < |Legend|
    ensures PerformanceColor(Some(Legend[i].name)) == Palette(Legend[i].color)
  {
    var name := Legend[i].name;
    LowerLegendName(i);
    assert ToLower(name) == LowerName(i);
  }

  /** The legend's names lower-cased, as the colour switch spells them. */
  function LowerName(i: nat): string
    requires i < 5
  {
    ["superior", "above average", "high average", "average", "below average"][i]
  }

  lemma LowerLegendName(i: nat)
    requires i < |Legend|
    ensures ToLower(Legend[i].name) == LowerName(i)
  {
    if i == 0 {
      LowerSuperior();
    } else if i == 1 {
      LowerAboveAverage();
    } else if i == 2 {
      LowerHighAverage();
    } else if i == 3 {
      LowerAverage();
    } else {
      LowerBelowAverage();
    }
  }

  lemma LowerSuperior()
    ensures ToLower("Superior") == "superior"
  {
  }

  lemma LowerAboveAverage()
    ensures ToLower("Above Average") == "above average"
  {
  }

  lemma LowerHighAverage()
    ensures ToLower("High Average") == "high average"
  {
  }

  lemma LowerAverage()
    ensures ToLower("Average") == "average"
  {
  }

  lemma LowerBelowAverage()
    ensures ToLower("Below Average") == "below average"
  {
  }
}
