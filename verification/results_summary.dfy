/** The results page of `ResultsPage.js`: the IQ category badge, the performance message,
    and the time statistics. */
module ResultsSummary {
  import opened Wrappers
  import opened Decimal
  import opened Clock
  import Scoring

  /** The seven bands of the category badge, from the top. */
  datatype IqCategory = Genius | VerySuperior | Superior | HighAverage | Average | LowAverage | BelowAverage

  /** `getIQCategory`: the first band whose threshold the score reaches. */
  function CategoryOf(iq: int): (c: IqCategory)
    ensures InBand(iq, c)
  {
    if iq >= 145 then Genius
    else if iq >= 130 then VerySuperior
    else if iq >= 120 then Superior
    else if iq >= 110 then HighAverage
    else if iq >= 90 then Average
    else if iq >= 80 then LowAverage
    else BelowAverage
  }

  /** Lowest score of each band; the bottom band has none. */
  function Floor(c: IqCategory): Option<int> {
    match c
    case Genius => Some(145)
    case VerySuperior => Some(130)
    case Superior => Some(120)
    case HighAverage => Some(110)
    case Average => Some(90)
    case LowAverage => Some(80)
    case BelowAverage => None
  }

  /** Position of a band, the bottom band first. */
  function Rank(c: IqCategory): nat {
    match c
    case BelowAverage => 0
    case LowAverage => 1
    case Average => 2
    case HighAverage => 3
    case Superior => 4
    case VerySuperior => 5
    case Genius => 6
  }

  /** The band above `c`, if any. */
  function Above(c: IqCategory): Option<IqCategory> {
    match c
    case BelowAverage => Some(LowAverage)
    case LowAverage => Some(Average)
    case Average => Some(HighAverage)
    case HighAverage => Some(Superior)
    case Superior => Some(VerySuperior)
    case VerySuperior => Some(Genius)
    case Genius => None
  }

  /** `iq` lies between the floor of band `c` and the floor of the band above it. */
  predicate InBand(iq: int, c: IqCategory) {
    && (Floor(c).None? || Floor(c).value <= iq)
    && (Above(c).None? || Floor(Above(c).value).None? || iq < Floor(Above(c).value).value)
  }

  /** The bands do not overlap: the badge shown is the only band the score lies in. */
  lemma CategoryIsTheBand(iq: int, c: IqCategory)
    ensures InBand(iq, c) <==> c == CategoryOf(iq)
  {
  }

  /** A higher score never shows a lower band. */
  lemma CategoryMonotone(iq1: int, iq2: int)
    requires iq1 <= iq2
    ensures Rank(CategoryOf(iq1)) <= Rank(CategoryOf(iq2))
  {
  }

  /** Badge text of each band. */
  function Label(c: IqCategory): string {
    match c
    case Genius => "Genius"
    case VerySuperior => "Very Superior"
    case Superior => "Superior"
    case HighAverage => "High Average"
    case Average => "Average"
    case LowAverage => "Low Average"
    case BelowAverage => "Below Average"
  }

  /** Badge colour of each band. */
  function Color(c: IqCategory): string {
    match c
    case Genius => "#9333ea"
    case VerySuperior => "#7c3aed"
    case Superior => "#8b5cf6"
    case HighAverage => "#a78bfa"
    case Average => "#60a5fa"
    case LowAverage => "#93c5fd"
    case BelowAverage => "#bfdbfe"
  }

  /** Every band has its own label and its own colour. */
  lemma BadgesDistinct(c1: IqCategory, c2: IqCategory)
    requires c1 != c2
    ensures Label(c1) != Label(c2) && Color(c1) != Color(c2)
  {
  }

  /** The texts `getPerformanceMessage` chooses from, top band first. */
  const GeniusMessage: string := "Exceptional cognitive abilities! You're in the top 0.1% of the population."
  const VerySuperiorMessage: string := "Outstanding performance! You qualify for high-IQ societies like Mensa."
  const SuperiorMessage: string := "Excellent cognitive abilities! You're in the top 10%."
  const HighAverageMessage: string := "Above average intelligence. Strong problem-solving capabilities."
  const AverageMessage: string := "Average cognitive performance. Good baseline abilities."
  const LowAverageMessage: string := "Below average but within normal range. Room for improvement."
  const BelowAverageMessage: string := "Consider retaking the test in a focused environment."

  /** `getPerformanceMessage`, with its own chain of thresholds. */
  function PerformanceMessage(iq: int): (m: string)
    ensures m == GeniusMessage <==> iq >= 145
    ensures m == VerySuperiorMessage <==> 130 <= iq < 145
    ensures m == SuperiorMessage <==> 120 <= iq < 130
    ensures m == HighAverageMessage <==> 110 <= iq < 120
    ensures m == AverageMessage <==> 90 <= iq < 110
    ensures m == LowAverageMessage <==> 80 <= iq < 90
    ensures m == BelowAverageMessage <==> iq < 80
  {
    if iq >= 145 then GeniusMessage
    else if iq >= 130 then VerySuperiorMessage
    else if iq >= 120 then SuperiorMessage
    else if iq >= 110 then HighAverageMessage
    else if iq >= 90 then AverageMessage
    else if iq >= 80 then LowAverageMessage
    else BelowAverageMessage
  }

  /** The message that belongs to each band of the badge. */
  function MessageOf(c: IqCategory): string {
    match c
    case Genius => GeniusMessage
    case VerySuperior => VerySuperiorMessage
    case Superior => SuperiorMessage
    case HighAverage => HighAverageMessage
    case Average => AverageMessage
    case LowAverage => LowAverageMessage
    case BelowAverage => BelowAverageMessage
  }

  /** The message's thresholds are the badge's: the message is the one of the score's band. */
  lemma MessageMatchesCategory(iq: int)
    ensures PerformanceMessage(iq) == MessageOf(CategoryOf(iq))
  {
  }

  /** No two bands share a message. */
  lemma MessagesDistinct(c1: IqCategory, c2: IqCategory)
    requires c1 != c2
    ensures MessageOf(c1) != MessageOf(c2)
  {
  }

  /** Two scores get the same message exactly when they get the same badge. */
  lemma MessageFollowsCategory(iq1: int, iq2: int)
    ensures PerformanceMessage(iq1) == PerformanceMessage(iq2) <==> CategoryOf(iq1) == CategoryOf(iq2)
  {
    MessageMatchesCategory(iq1);
    MessageMatchesCategory(iq2);
    if CategoryOf(iq1) != CategoryOf(iq2) {
      MessagesDistinct(CategoryOf(iq1), CategoryOf(iq2));
    }
  }

  /** Scores computed by the server lie in 80..130, so the top band and the bottom band never
      show, and "Very Superior" only for a perfect score. */
  lemma ServerScoresCategories(correct: nat, total: nat)
    requires correct <= total
    ensures CategoryOf(Scoring.Iq(correct, total)) != Genius
    ensures CategoryOf(Scoring.Iq(correct, total)) != BelowAverage
    ensures CategoryOf(Scoring.Iq(correct, total)) == VerySuperior <==> total > 0 && correct == total
  {
    Scoring.IqAtMost130(correct, total);
    Scoring.Iq130OnlyWhenPerfect(correct, total);
    Scoring.IqExtremes(total);
  }

  /** `Math.floor(time_taken / total_questions)`; with no questions JavaScript produces a
      non-finite value (`Infinity` or `NaN`), modelled as `None`. */
  function AverageTime(timeTaken: int, total: nat): (avg: Option<int>)
    ensures avg.None? <==> total == 0
    ensures avg.Some? ==> avg.value * total <= timeTaken < (avg.value + 1) * total
  {
    if total == 0 then None else Some(timeTaken / total)
  }

  /** `formatTime`: `"<minutes>m <seconds>s"`. */
  function FormatDuration(seconds: int): (text: string)
    ensures seconds >= 0 ==> |text| >= 4 && text[|text| - 1] == 's'
  {
    var (mins, secs) := SplitMinutes(seconds);
    IntToString(mins) + "m " + IntToString(secs) + "s"
  }

  /** Position of the first `c` at or after `from`. */
  function IndexOf(text: string, c: char, from: nat): (r: Option<nat>)
    requires from <= |text|
    ensures r.Some? ==> from <= r.value < |text| && text[r.value] == c
    ensures r.Some? ==> forall j :: from <= j < r.value ==> text[j] != c
    ensures r.None? ==> forall j :: from <= j < |text| ==> text[j] != c
    decreases |text| - from
  {
    if from == |text| then None else if text[from] == c then Some(from) else IndexOf(text, c, from + 1)
  }

  /** Reads `"<minutes>m <seconds>s"` back into seconds. */
  function ParseDuration(text: string): Option<nat> {
    match IndexOf(text, 'm', 0)
    case None => None
    case Some(k) =>
      if k + 2 < |text| && text[k + 1] == ' ' && text[|text| - 1] == 's' then
        match (ParseNat(text[..k]), ParseNat(text[k + 2..|text| - 1]))
        case (Some(mins), Some(secs)) => if secs < 60 then Some(mins * 60 + secs) else None
        case _ => None
      else None
  }

  /** The duration text of a non-negative number of seconds reads back as that number. */
  lemma ParseFormatDuration(seconds: nat)
    ensures ParseDuration(FormatDuration(seconds)) == Some(seconds)
  {
    var (mins, secs) := SplitMinutes(seconds);
    var m := NatToString(mins);
    var s := NatToString(secs);
    assert FormatDuration(seconds) == m + "m " + s + "s";
    ParseNatToString(mins);
    ParseNatToString(secs);
    ParseJoinedDuration(m, s, mins, secs);
  }

  /** Digits, `"m "`, digits and `"s"` read back as the seconds they stand for. */
  lemma ParseJoinedDuration(m: string, s: string, mins: nat, secs: nat)
    requires ParseNat(m) == Some(mins) && ParseNat(s) == Some(secs) && secs < 60
    ensures ParseDuration(m + "m " + s + "s") == Some(mins * 60 + secs)
  {
    var text := m + "m " + s + "s";
    var k := |m|;
    assert text[k] == 'm';
    forall j | 0 <= j < k ensures text[j] != 'm' {
      assert text[j] == m[j];
      assert IsDigit(m[j]);
    }
    assert IndexOf(text, 'm', 0) == Some(k);
    assert text[..k] == m;
    assert text[k + 2..|text| - 1] == s;
  }
}
