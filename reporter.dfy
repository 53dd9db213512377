/**
 * The daily report of src/reporter.js: the label totals and the overall score, the
 * five-way mood, the percentage bars of the breakdown, and the trend, channel and member
 * sections with their fallbacks.
 *
 * Numbers printed with `toFixed(3)` and the date header are not rendered; a section line
 * keeps the values it shows, and the three-way indicator in front of it is the label the
 * thresholds of `Sentiment.Classify` give its average.
 */
module Reporter {
  import opened Wrappers
  import opened Text
  import opened Sentiment
  import opened Grouping
  import opened Database

  // ---------------------------------------------------------------- totals

  /** The count the totals loop keeps for `label`: the count of the last summary row of
      that label, 0 when there is none (each matching row overwrites the variable). */
  function LabelCount(summary: seq<Stat<Label>>, polarity: Label): nat
  {
    if summary == [] then 0
    else if summary[|summary| - 1].key == polarity then summary[|summary| - 1].count
    else LabelCount(summary[..|summary| - 1], polarity)
  }

  lemma {:induction false} WeightedSumSnoc<K>(s: seq<Stat<K>>, x: Stat<K>)
    ensures WeightedSum(s + [x]) == WeightedSum(s) + Weight(x)
  {
    if s != [] {
      assert (s + [x])[1..] == s[1..] + [x];
      WeightedSumSnoc(s[1..], x);
    } else {
      assert [x][1..] == [];
    }
  }

  lemma {:induction false} CountSumSnoc<K>(s: seq<Stat<K>>, x: Stat<K>)
    ensures CountSum(s + [x]) == CountSum(s) + x.count
  {
    if s != [] {
      assert (s + [x])[1..] == s[1..] + [x];
      CountSumSnoc(s[1..], x);
    } else {
      assert [x][1..] == [];
    }
  }

  /** The totals loop over the summary rows: each label's count, last row wins, and the
      sum of AVG(score) * COUNT(*). */
  method Tally(summary: seq<Stat<Label>>) returns (positive: nat, negative: nat, neutral: nat, totalScore: real)
    ensures positive == LabelCount(summary, Positive)
    ensures negative == LabelCount(summary, Negative)
    ensures neutral == LabelCount(summary, Neutral)
    ensures totalScore == WeightedSum(summary)
  {
    positive, negative, neutral, totalScore := 0, 0, 0, 0.0;
    for i := 0 to |summary|
      invariant positive == LabelCount(summary[..i], Positive)
      invariant negative == LabelCount(summary[..i], Negative)
      invariant neutral == LabelCount(summary[..i], Neutral)
      invariant totalScore == WeightedSum(summary[..i])
    {
      var row := summary[i];
      assert summary[..i + 1][..i] == summary[..i];
      if row.key == Positive { positive := row.count; }
      if row.key == Negative { negative := row.count; }
      if row.key == Neutral { neutral := row.count; }
      WeightedSumSnoc(summary[..i], row);
      assert summary[..i + 1] == summary[..i] + [row];
      totalScore := totalScore + row.avgScore * (row.count as real);
    }
    assert summary[..|summary|] == summary;
  }

  /** With one row per label, the loop's count for a label is that row's count. */
  lemma {:induction false} LabelCountFound(s: seq<Stat<Label>>, i: nat, polarity: Label)
    requires i < |s| && s[i].key == polarity
    requires forall a, b :: 0 <= a < b < |s| ==> s[a].key != s[b].key
    ensures LabelCount(s, polarity) == s[i].count
  {
    var n := |s| - 1;
    if i < n {
      assert s[n].key != polarity;
      LabelCountFound(s[..n], i, polarity);
    }
  }

  /** No row of the label: the loop leaves 0. */
  lemma {:induction false} LabelCountAbsent(s: seq<Stat<Label>>, polarity: Label)
    requires forall i :: 0 <= i < |s| ==> s[i].key != polarity
    ensures LabelCount(s, polarity) == 0
  {
    if s != [] {
      LabelCountAbsent(s[..|s| - 1], polarity);
    }
  }

  /** On the summary the totals of a label are the number of window rows with it. */
  lemma LabelCountIsMatching(rows: seq<Row>, now: int, days: nat, polarity: Label)
    ensures LabelCount(GetSummary(rows, now, days), polarity)
      == |Matching(Window(rows, now, days), LabelOf, polarity)|
  {
    var s := GetSummary(rows, now, days);
    var w := Window(rows, now, days);
    SummarySpec(rows, now, days);
    if i :| 0 <= i < |s| && s[i].key == polarity {
      LabelCountFound(s, i, polarity);
    } else {
      LabelCountAbsent(s, polarity);
      forall i | 0 <= i < |w| ensures LabelOf(w[i]) != polarity {
        assert w[i] in w;
      }
      MatchingNone(w, LabelOf, polarity);
    }
  }

  /** `count > 0 ? totalScore / count : 0`. */
  function Overall(totalScore: real, count: nat): (o: real)
    ensures count == 0 ==> o == 0.0
    ensures count > 0 ==> o * (count as real) == totalScore
  {
    if count > 0 then totalScore / (count as real) else 0.0
  }

  // ------------------------------------------------------------------ mood

  datatype Mood = VeryPositiveMood | PositiveMood | VeryNegativeMood | NegativeMood | NeutralMood

  /** The title's mood: above 0.1, above 0.02, below -0.1, below -0.02, else neutral. */
  function MoodOf(score: real): (m: Mood)
    ensures m == VeryPositiveMood <==> score > 0.1
    ensures m == PositiveMood <==> 0.02 < score <= 0.1
    ensures m == VeryNegativeMood <==> score < -0.1
    ensures m == NegativeMood <==> -0.1 <= score < -0.02
    ensures m == NeutralMood <==> -0.02 <= score <= 0.02
  {
    if score > 0.1 then VeryPositiveMood
    else if score > 0.02 then PositiveMood
    else if score < -0.1 then VeryNegativeMood
    else if score < -0.02 then NegativeMood
    else NeutralMood
  }

  /** The words of the title. */
  function MoodName(m: Mood): string {
    match m
    case VeryPositiveMood => "Very Positive"
    case PositiveMood => "Positive"
    case VeryNegativeMood => "Very Negative"
    case NegativeMood => "Negative"
    case NeutralMood => "Neutral"
  }

  /** Moods from worst to best. */
  function MoodRank(m: Mood): (n: nat)
    ensures n <= 4
  {
    match m
    case VeryNegativeMood => 0
    case NegativeMood => 1
    case NeutralMood => 2
    case PositiveMood => 3
    case VeryPositiveMood => 4
  }

  /** A higher overall score never gets a worse mood. */
  lemma MoodMonotone(x: real, y: real)
    requires x <= y
    ensures MoodRank(MoodOf(x)) <= MoodRank(MoodOf(y))
  {
  }

  // ------------------------------------------------------------------- bars

  /** `Math.round(value / total * 100)` on whole numbers: the percentage rounded to the
      nearest integer, halves up. */
  function Percent(value: nat, total: nat): (pct: nat)
    requires total > 0
    ensures 2 * total * pct <= 200 * value + total < 2 * total * (pct + 1)
    ensures value <= total ==> pct <= 100
  {
    var n := 200 * value + total;
    var d := 2 * total;
    var q := n / d;
    assert d * q <= n < d * (q + 1) by { QuotientBounds(n, d); }
    assert value <= total ==> q <= 100 by {
      if value <= total {
        PercentCap(value, total);
      }
    }
    q
  }

  lemma QuotientBounds(n: nat, d: nat)
    requires d > 0
    ensures d * (n / d) <= n < d * (n / d + 1)
  {
  }

  /** A share of at most the whole rounds to at most 100 per cent. */
  lemma PercentCap(value: nat, total: nat)
    requires total > 0 && value <= total
    ensures (200 * value + total) / (2 * total) <= 100
  {
    assert 200 * value + total < 2 * total * 101;
    QuotientBelow(200 * value + total, 2 * total, 100);
  }

  lemma QuotientBelow(n: nat, d: nat, k: nat)
    requires d > 0 && n < d * (k + 1)
    ensures n / d <= k
  {
    var q := n / d;
    assert d * q <= n;
    MulLessCancel(d, q, k + 1);
  }

  lemma MulLessCancel(d: nat, a: nat, b: nat)
    requires d > 0 && d * a < d * b
    ensures a < b
  {
  }

  /** The percentage is within half a point of the exact share. */
  lemma PercentNearest(value: nat, total: nat)
    requires total > 0
    ensures var pct := Percent(value, total) as real; var exact := 100.0 * (value as real) / (total as real);
      pct - 0.5 <= exact < pct + 0.5
  {
    var pct := Percent(value, total);
    var t := total as real;
    var p := pct as real;
    var v := value as real;
    assert 2.0 * t * p <= 200.0 * v + t < 2.0 * t * (p + 1.0);
    var exact := 100.0 * v / t;
    assert exact * t == 100.0 * v;
    assert (p - 0.5) * t == p * t - 0.5 * t;
    assert (p + 0.5) * t == p * t + 0.5 * t;
    RealCancel(p - 0.5, exact, t);
    RealCancelStrict(exact, p + 0.5, t);
  }

  lemma RealCancel(x: real, y: real, t: real)
    requires t > 0.0 && x * t <= y * t
    ensures x <= y
  {
  }

  lemma RealCancelStrict(x: real, y: real, t: real)
    requires t > 0.0 && x * t < y * t
    ensures x < y
  {
  }

  /** `Math.round(pct / 5)`: the number of filled blocks, halves up. */
  function Filled(pct: nat): (f: nat)
    ensures 10 * f <= 2 * pct + 5 < 10 * f + 10
    ensures f > 20 <==> pct >= 103
  {
    (2 * pct + 5) / 10
  }

  const FullBlock: char := '█'
  const LightBlock: char := '░'

  /** Twenty blocks, the first `filled` of them full. */
  function Blocks(filled: nat): (b: string)
    requires filled <= 20
    ensures |b| == 20
    ensures forall i :: 0 <= i < 20 ==> b[i] == if i < filled then FullBlock else LightBlock
  {
    Repeat(FullBlock, filled) + Repeat(LightBlock, 20 - filled)
  }

  /** `buildBar`: the empty string when the total is 0; otherwise the mark, the blocks,
      the percentage and the value. `"░".repeat(20 - filled)` throws a RangeError when
      more than twenty blocks would be filled, which is `None` here. */
  function BuildBar(value: nat, total: nat, mark: string): (r: Option<string>)
    ensures total == 0 ==> r == Some("")
    ensures r.None? <==> total > 0 && Filled(Percent(value, total)) > 20
    ensures r.Some? && total > 0 ==> |r.value| > |mark| + 21 && r.value[..|mark|] == mark
  {
    if total == 0 then Some("")
    else
      var pct := Percent(value, total);
      var filled := Filled(pct);
      if filled > 20 then None
      else Some(mark + " " + Blocks(filled) + " " + NatToString(pct) + "% (" + NatToString(value) + ")")
  }

  /** A value within the total draws a bar of exactly twenty blocks, the nearest fifth of
      its percentage of them full, and prints the percentage and the value. */
  lemma BarBlocks(value: nat, total: nat, mark: string)
    requires 0 < total && value <= total
    ensures var r := BuildBar(value, total, mark); var pct := Percent(value, total);
      && r.Some?
      && pct <= 100 && Filled(pct) <= 20
      && r.value[|mark|] == ' '
      && Occurrences(r.value[|mark| + 1..|mark| + 21], FullBlock) == Filled(pct)
      && Occurrences(r.value[|mark| + 1..|mark| + 21], LightBlock) == 20 - Filled(pct)
      && r.value[|mark| + 21..] == " " + NatToString(pct) + "% (" + NatToString(value) + ")"
  {
    var pct := Percent(value, total);
    var f := Filled(pct);
    var b := Blocks(f);
    var tail := " " + NatToString(pct) + "% (" + NatToString(value) + ")";
    var r := BuildBar(value, total, mark).value;
    assert r == mark + " " + b + tail;
    assert r[|mark| + 1..|mark| + 21] == b;
    assert r[|mark| + 21..] == tail;
    assert b == Repeat(FullBlock, f) + Repeat(LightBlock, 20 - f);
    OccurrencesAppend(Repeat(FullBlock, f), Repeat(LightBlock, 20 - f), FullBlock);
    OccurrencesAppend(Repeat(FullBlock, f), Repeat(LightBlock, 20 - f), LightBlock);
    OccurrencesRepeat(FullBlock, f, FullBlock);
    OccurrencesRepeat(FullBlock, f, LightBlock);
    OccurrencesRepeat(LightBlock, 20 - f, FullBlock);
    OccurrencesRepeat(LightBlock, 20 - f, LightBlock);
  }

  const GreenMark: string := "\U{1F7E2}"
  const YellowMark: string := "\U{1F7E1}"
  const RedMark: string := "\U{1F534}"
  const NoMessagesText: string := "No messages tracked today."

  /** The breakdown: the fixed text when nothing was counted, otherwise the positive,
      neutral and negative bars on three lines. */
  function Breakdown(positive: nat, neutral: nat, negative: nat, count: nat): (r: Option<string>)
    ensures count == 0 ==> r == Some(NoMessagesText)
    ensures count > 0 && positive <= count && neutral <= count && negative <= count ==> r.Some?
  {
    if count == 0 then Some(NoMessagesText)
    else
      var p := BuildBar(positive, count, GreenMark);
      var u := BuildBar(neutral, count, YellowMark);
      var n := BuildBar(negative, count, RedMark);
      if p.None? || u.None? || n.None? then None
      else Some(p.value + "\n" + u.value + "\n" + n.value)
  }

  /** A bar is one line when its mark is. */
  lemma BarOneLine(value: nat, total: nat, mark: string)
    requires '\n' !in mark
    ensures BuildBar(value, total, mark).Some? ==> '\n' !in BuildBar(value, total, mark).value
  {
    if total > 0 && BuildBar(value, total, mark).Some? {
      var pct := Percent(value, total);
      var b := Blocks(Filled(pct));
      assert forall i :: 0 <= i < |b| ==> b[i] != '\n';
      var p := NatToString(pct);
      var v := NatToString(value);
      assert forall i :: 0 <= i < |p| ==> p[i] != '\n';
      assert forall i :: 0 <= i < |v| ==> v[i] != '\n';
      assert BuildBar(value, total, mark).value == mark + " " + b + " " + p + "% (" + v + ")";
    }
  }

  /** A drawn breakdown is three lines: the positive, neutral and negative bars, in that
      order. */
  lemma BreakdownLines(positive: nat, neutral: nat, negative: nat, count: nat)
    requires 0 < count && positive <= count && neutral <= count && negative <= count
    ensures Split(Breakdown(positive, neutral, negative, count).value, '\n')
      == [BuildBar(positive, count, GreenMark).value, BuildBar(neutral, count, YellowMark).value,
          BuildBar(negative, count, RedMark).value]
  {
    var p := BuildBar(positive, count, GreenMark).value;
    var u := BuildBar(neutral, count, YellowMark).value;
    var n := BuildBar(negative, count, RedMark).value;
    BarOneLine(positive, count, GreenMark);
    BarOneLine(neutral, count, YellowMark);
    BarOneLine(negative, count, RedMark);
    assert Breakdown(positive, neutral, negative, count).value == p + "\n" + u + "\n" + n;
    SplitThree(p, u, n, '\n');
  }

  /** The breakdown is the fixed text exactly when nothing was counted: a drawn breakdown
      starts with the green mark. */
  lemma BreakdownFallback(positive: nat, neutral: nat, negative: nat, count: nat)
    requires positive <= count && neutral <= count && negative <= count
    ensures Breakdown(positive, neutral, negative, count) == Some(NoMessagesText) <==> count == 0
  {
    if count > 0 {
      var r := Breakdown(positive, neutral, negative, count).value;
      var p := BuildBar(positive, count, GreenMark).value;
      assert r[0] == p[0] == GreenMark[0];
      assert NoMessagesText[0] == 'N';
    }
  }

  // --------------------------------------------------------------- sections

  /** A section of the report: one line per result row, or its fixed text. */
  datatype Section<L> = Lines(lines: seq<L>) | Fallback(text: string)

  /** A trend line: the arrow (up, down or flat by the three-way thresholds), the day,
      whether the score is shown with a leading plus, the average and the count. */
  datatype TrendLine = TrendLine(arrow: Label, date: int, plus: bool, avgScore: real, count: nat)

  /** A channel line: its indicator, name, average and count. */
  datatype ChannelLine = ChannelLine(indicator: Label, channel: string, avgScore: real, count: nat)

  /** A member line: its indicator, name, average and count. */
  datatype UserLine = UserLine(indicator: Label, username: string, avgScore: real, count: nat)

  const NoTrendText: string := "Not enough data yet."
  const NoChannelText: string := "No channel data available."
  const NoUserText: string := "Not enough user data yet (min. 3 messages required)."

  function TrendLineOf(s: Stat<int>): TrendLine {
    TrendLine(Classify(s.avgScore), s.key, s.avgScore > 0.0, s.avgScore, s.count)
  }

  function ChannelLineOf(s: Stat<string>): ChannelLine {
    ChannelLine(Classify(s.avgScore), s.key, s.avgScore, s.count)
  }

  function UserLineOf(u: UserStat): UserLine {
    UserLine(Classify(u.avgScore), u.username, u.avgScore, u.count)
  }

  /** The trend section: one line per day, in the query's order, or the fixed text. */
  function TrendSection(trend: seq<Stat<int>>): (sec: Section<TrendLine>)
    ensures sec.Fallback? <==> trend == []
    ensures sec.Fallback? ==> sec.text == NoTrendText
    ensures sec.Lines? ==> (|sec.lines| == |trend| > 0
      && forall i :: 0 <= i < |trend| ==> sec.lines[i] == TrendLineOf(trend[i]))
  {
    if trend == [] then Fallback(NoTrendText)
    else Lines(seq(|trend|, i requires 0 <= i < |trend| => TrendLineOf(trend[i])))
  }

  /** The channel section: one line per channel row, or the fixed text. */
  function ChannelSection(channels: seq<Stat<string>>): (sec: Section<ChannelLine>)
    ensures sec.Fallback? <==> channels == []
    ensures sec.Fallback? ==> sec.text == NoChannelText
    ensures sec.Lines? ==> (|sec.lines| == |channels| > 0
      && forall i :: 0 <= i < |channels| ==> sec.lines[i] == ChannelLineOf(channels[i]))
  {
    if channels == [] then Fallback(NoChannelText)
    else Lines(seq(|channels|, i requires 0 <= i < |channels| => ChannelLineOf(channels[i])))
  }

  /** The member section: a line for each of the first three users, or the fixed text. */
  function UserSection(users: seq<UserStat>): (sec: Section<UserLine>)
    ensures sec.Fallback? <==> users == []
    ensures sec.Fallback? ==> sec.text == NoUserText
    ensures sec.Lines? ==> (0 < |sec.lines| <= 3 && |sec.lines| == Min(|users|, 3)
      && forall i :: 0 <= i < |sec.lines| ==> sec.lines[i] == UserLineOf(users[i]))
  {
    if users == [] then Fallback(NoUserText)
    else
      var top := Limit(users, 3);
      Lines(seq(|top|, i requires 0 <= i < |top| => UserLineOf(top[i])))
  }

  function Min(a: nat, b: nat): nat {
    if a <= b then a else b
  }

  /** The trend loop: `+=` one line per day, or the fixed text when there is none. */
  method TrendText(trend: seq<Stat<int>>) returns (sec: Section<TrendLine>)
    ensures sec == TrendSection(trend)
  {
    if |trend| > 0 {
      var lines: seq<TrendLine> := [];
      for i := 0 to |trend|
        invariant |lines| == i
        invariant forall j :: 0 <= j < i ==> lines[j] == TrendLineOf(trend[j])
      {
        lines := lines + [TrendLineOf(trend[i])];
      }
      sec := Lines(lines);
    } else {
      sec := Fallback(NoTrendText);
    }
  }

  /** The channel loop. */
  method ChannelText(channels: seq<Stat<string>>) returns (sec: Section<ChannelLine>)
    ensures sec == ChannelSection(channels)
  {
    if |channels| > 0 {
      var lines: seq<ChannelLine> := [];
      for i := 0 to |channels|
        invariant |lines| == i
        invariant forall j :: 0 <= j < i ==> lines[j] == ChannelLineOf(channels[j])
      {
        lines := lines + [ChannelLineOf(channels[i])];
      }
      sec := Lines(lines);
    } else {
      sec := Fallback(NoChannelText);
    }
  }

  /** The member loop over `topUsers.slice(0, 3)`. */
  method UsersText(users: seq<UserStat>) returns (sec: Section<UserLine>)
    ensures sec == UserSection(users)
  {
    if |users| > 0 {
      var top := users[..Min(|users|, 3)];
      var lines: seq<UserLine> := [];
      for i := 0 to |top|
        invariant |lines| == i
        invariant forall j :: 0 <= j < i ==> lines[j] == UserLineOf(top[j])
      {
        lines := lines + [UserLineOf(top[i])];
      }
      sec := Lines(lines);
    } else {
      sec := Fallback(NoUserText);
    }
  }

  // ----------------------------------------------------------------- report

  datatype Report = Report(mood: Mood, overall: real, count: nat,
                           positive: nat, neutral: nat, negative: nat,
                           breakdown: Option<string>,
                           trend: Section<TrendLine>, channels: Section<ChannelLine>,
                           users: Section<UserLine>)

  /** What `buildDailyReport` computes from the table at time `now`: the summary, channels
      and members of the last day, the trend of the last seven days, and the count of
      the last day. */
  function DailyReport(rows: seq<Row>, now: int): (r: Report)
    ensures r.count == |Window(rows, now, 1)|
    ensures r.positive + r.neutral + r.negative == r.count
  {
    LabelCountIsMatching(rows, now, 1, Positive);
    LabelCountIsMatching(rows, now, 1, Neutral);
    LabelCountIsMatching(rows, now, 1, Negative);
    LabelsPartition(Window(rows, now, 1));
    var summary := GetSummary(rows, now, 1);
    var count := GetTodayCount(rows, now);
    var positive := LabelCount(summary, Positive);
    var neutral := LabelCount(summary, Neutral);
    var negative := LabelCount(summary, Negative);
    var overall := Overall(WeightedSum(summary), count);
    Report(MoodOf(overall), overall, count, positive, neutral, negative,
           Breakdown(positive, neutral, negative, count),
           TrendSection(GetTrend(rows, now, 7)),
           ChannelSection(GetChannelBreakdown(rows, now, 1)),
           UserSection(GetTopUsers(rows, now, 1)))
  }

  /** `buildDailyReport`: reads the store and builds the report with the loops above. */
  method BuildDailyReport(store: EventStore, now: int) returns (r: Report)
    ensures r == DailyReport(store.rows, now)
  {
    var summary := GetSummary(store.rows, now, 1);
    var trend := GetTrend(store.rows, now, 7);
    var channels := GetChannelBreakdown(store.rows, now, 1);
    var topUsers := GetTopUsers(store.rows, now, 1);
    var count := GetTodayCount(store.rows, now);
    var positive, negative, neutral, totalScore := Tally(summary);
    var overall := Overall(totalScore, count);
    var trendSec := TrendText(trend);
    var channelSec := ChannelText(channels);
    var userSec := UsersText(topUsers);
    r := Report(MoodOf(overall), overall, count, positive, neutral, negative,
                Breakdown(positive, neutral, negative, count), trendSec, channelSec, userSec);
  }

  /** The totals are the day's label counts, they add up to the count, and the overall
      score is the mean score of the day's rows. */
  lemma ReportTotals(rows: seq<Row>, now: int)
    ensures var r := DailyReport(rows, now); var w := Window(rows, now, 1);
      && r.count == |w|
      && r.positive == |Matching(w, LabelOf, Positive)|
      && r.neutral == |Matching(w, LabelOf, Neutral)|
      && r.negative == |Matching(w, LabelOf, Negative)|
      && r.positive + r.neutral + r.negative == r.count
      && r.overall == Mean(w, ScoreOf)
  {
    var w := Window(rows, now, 1);
    LabelCountIsMatching(rows, now, 1, Positive);
    LabelCountIsMatching(rows, now, 1, Neutral);
    LabelCountIsMatching(rows, now, 1, Negative);
    LabelsPartition(w);
    SummarySpec(rows, now, 1);
    OverallIsMean(w, WeightedSum(GetSummary(rows, now, 1)));
  }

  lemma OverallIsMean(w: seq<Row>, total: real)
    requires total == ScoreSum(w, ScoreOf)
    ensures Overall(total, |w|) == Mean(w, ScoreOf)
  {
  }

  /** Every row has exactly one of the three labels. */
  lemma {:induction false} LabelsPartition(w: seq<Row>)
    ensures |Matching(w, LabelOf, Positive)| + |Matching(w, LabelOf, Neutral)|
      + |Matching(w, LabelOf, Negative)| == |w|
  {
    if w != [] {
      LabelsPartition(w[1..]);
      assert |Matching(w, LabelOf, Positive)|
        == (if w[0].polarity == Positive then 1 else 0) + |Matching(w[1..], LabelOf, Positive)|;
      assert |Matching(w, LabelOf, Neutral)|
        == (if w[0].polarity == Neutral then 1 else 0) + |Matching(w[1..], LabelOf, Neutral)|;
      assert |Matching(w, LabelOf, Negative)|
        == (if w[0].polarity == Negative then 1 else 0) + |Matching(w[1..], LabelOf, Negative)|;
    }
  }

  /** The breakdown never hits the RangeError: it is the fixed text exactly when there
      are no rows today, and three bars otherwise. */
  lemma ReportBreakdown(rows: seq<Row>, now: int)
    ensures var r := DailyReport(rows, now);
      && r.breakdown.Some?
      && (r.breakdown == Some(NoMessagesText) <==> Window(rows, now, 1) == [])
  {
    ReportTotals(rows, now);
    var r := DailyReport(rows, now);
    BreakdownFallback(r.positive, r.neutral, r.negative, r.count);
  }

  /** With no rows in the last seven days every section shows its fixed text, the overall
      score is 0 and the mood neutral. */
  lemma EmptyReport(rows: seq<Row>, now: int)
    requires Window(rows, now, 7) == []
    ensures var r := DailyReport(rows, now);
      && r.count == 0 && r.overall == 0.0 && r.mood == NeutralMood
      && r.breakdown == Some(NoMessagesText)
      && r.trend == Fallback(NoTrendText)
      && r.channels == Fallback(NoChannelText)
      && r.users == Fallback(NoUserText)
  {
    WindowWiden(rows, now, 1, 7);
    TrendSpec(rows, now, 7);
    ChannelBreakdownSpec(rows, now, 1);
    TopUsersRows(rows, now, 1);
  }

  /** The sections carry what the queries promise: trend days strictly ascending with
      counts adding up to the week's rows, at most ten channels busiest first, and at
      most three members, each with three rows or more today, best average first. */
  lemma ReportTrend(rows: seq<Row>, now: int)
    ensures var r := DailyReport(rows, now);
      r.trend.Lines? ==>
        && (forall i, j :: 0 <= i < j < |r.trend.lines| ==> r.trend.lines[i].date < r.trend.lines[j].date)
        && LineCount(r.trend.lines) == |Window(rows, now, 7)|
  {
    var t := GetTrend(rows, now, 7);
    TrendSpec(rows, now, 7);
    TrendLineCount(t);
  }

  lemma ReportChannels(rows: seq<Row>, now: int)
    ensures var r := DailyReport(rows, now);
      r.channels.Lines? ==>
        && |r.channels.lines| <= 10
        && forall i, j :: 0 <= i < j < |r.channels.lines| ==> r.channels.lines[i].count >= r.channels.lines[j].count
  {
    ChannelBreakdownSpec(rows, now, 1);
  }

  lemma ReportUsers(rows: seq<Row>, now: int)
    ensures var r := DailyReport(rows, now);
      r.users.Lines? ==>
        && (forall i :: 0 <= i < |r.users.lines| ==> r.users.lines[i].count >= 3)
        && forall i, j :: 0 <= i < j < |r.users.lines| ==> r.users.lines[i].avgScore >= r.users.lines[j].avgScore
  {
    ReportUsersSection(rows, now);
    TopUsersSection(rows, now);
  }

  lemma ReportUsersSection(rows: seq<Row>, now: int)
    ensures DailyReport(rows, now).users == UserSection(GetTopUsers(rows, now, 1))
  {
  }

  lemma TopUsersSection(rows: seq<Row>, now: int)
    ensures var sec := UserSection(GetTopUsers(rows, now, 1));
      sec.Lines? ==>
        && (forall i :: 0 <= i < |sec.lines| ==> sec.lines[i].count >= 3)
        && forall i, j :: 0 <= i < j < |sec.lines| ==> sec.lines[i].avgScore >= sec.lines[j].avgScore
  {
    TopUsersOrdered(rows, now, 1);
    UserSectionKeeps(GetTopUsers(rows, now, 1));
  }

  /** The user section shows the users in the order given, with their counts. */
  lemma UserSectionKeeps(users: seq<UserStat>)
    requires forall i :: 0 <= i < |users| ==> users[i].count >= 3
    requires forall i, j :: 0 <= i < j < |users| ==> users[i].avgScore >= users[j].avgScore
    ensures var sec := UserSection(users);
      sec.Lines? ==>
        && (forall i :: 0 <= i < |sec.lines| ==> sec.lines[i].count >= 3)
        && forall i, j :: 0 <= i < j < |sec.lines| ==> sec.lines[i].avgScore >= sec.lines[j].avgScore
  {
  }

  /** The sum of the counts shown on trend lines. */
  function LineCount(lines: seq<TrendLine>): nat {
    if lines == [] then 0 else lines[0].count + LineCount(lines[1..])
  }

  lemma {:induction false} TrendLineCount(t: seq<Stat<int>>)
    ensures t != [] ==> LineCount(TrendSection(t).lines) == CountSum(t)
  {
    if |t| > 1 {
      TrendLineCount(t[1..]);
      assert TrendSection(t).lines[1..] == TrendSection(t[1..]).lines;
    }
  }

  /** Three messages today scoring 0.2, -0.3 and 0.01 average -0.03, which is a
      negative mood although the middle band of the labeler would call it neutral. */
  lemma ThreeMessageScenario(rows: seq<Row>, now: int)
    requires |rows| == 3
    requires forall i :: 0 <= i < 3 ==> rows[i].timestamp >= now - SecondsPerDay
    requires rows[0].score == 0.2 && rows[1].score == -0.3 && rows[2].score == 0.01
    ensures DailyReport(rows, now).overall == -0.03
    ensures DailyReport(rows, now).mood == NegativeMood
    ensures Classify(DailyReport(rows, now).overall) == Neutral
  {
    KeepWhereAll(rows, Recent(now, 1));
    ReportTotals(rows, now);
    ScoreSumThree(rows);
    var m := Mean(rows, ScoreOf);
    assert m * 3.0 == -0.09;
  }

  lemma ScoreSumThree(rows: seq<Row>)
    requires |rows| == 3
    ensures ScoreSum(rows, ScoreOf) == rows[0].score + rows[1].score + rows[2].score
  {
    assert rows[1..][1..] == rows[2..];
    assert rows[2..][1..] == [];
    assert ScoreSum(rows[2..], ScoreOf) == ScoreOf(rows[2]) + ScoreSum([], ScoreOf);
    assert ScoreSum(rows[1..], ScoreOf) == ScoreOf(rows[1]) + ScoreSum(rows[2..], ScoreOf);
    assert ScoreSum(rows, ScoreOf) == ScoreOf(rows[0]) + ScoreSum(rows[1..], ScoreOf);
  }
}
