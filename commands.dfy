/**
 * The computations inside the `/sentiment` and `/channels` slash commands of
 * src/commands.js: the days option and its default, the empty-result reply, the
 * count-weighted fold over the summary, the embed colour and the title's plural.
 *
 * The interaction calls (deferring, editing the reply) are not modelled; a command
 * returns the reply it would send. `/report` only calls `buildDailyReport`, which
 * `Reporter` models.
 */
module Commands {
  import opened Wrappers
  import opened Text
  import opened Sentiment
  import opened Grouping
  import opened Database
  import opened Reporter

  /** `interaction.options.getInteger("days") || fallback`: an absent option, or 0,
      gives the default. The platform only accepts 1 to 30 for the option. */
  function DaysOrDefault(option: Option<int>, fallback: nat): (days: nat)
    requires option.Some? ==> 1 <= option.value <= 30
    ensures option.None? ==> days == fallback
    ensures option.Some? ==> days == option.value
  {
    if option.Some? && option.value != 0 then option.value else fallback
  }

  const SentimentDefaultDays: nat := 7
  const ChannelsDefaultDays: nat := 1

  /** "Last N Day" with an "s" for more than one day. */
  function Title(days: nat): (t: string)
    ensures |t| > 5 && t[..5] == "Last "
    ensures t[|t| - 1] == 's' <==> days > 1
  {
    "Last " + NatToString(days) + " Day" + (if days > 1 then "s" else "")
  }

  datatype Colour = Green | Red | Orange

  /** The `/sentiment` embed colour: green above 0.05, red below -0.05, else orange. */
  function ColourOf(overall: real): (c: Colour)
    ensures c == Green <==> overall > 0.05
    ensures c == Red <==> overall < -0.05
    ensures c == Orange <==> -0.05 <= overall <= 0.05
  {
    if overall > 0.05 then Green else if overall < -0.05 then Red else Orange
  }

  /** The colour follows the labeler's thresholds. */
  lemma ColourIsLabel(overall: real)
    ensures ColourOf(overall) == Green <==> Classify(overall) == Positive
    ensures ColourOf(overall) == Red <==> Classify(overall) == Negative
    ensures ColourOf(overall) == Orange <==> Classify(overall) == Neutral
  {
  }

  /** A breakdown line: the label (which picks the mark), its count and average. */
  datatype SummaryLine = SummaryLine(polarity: Label, count: nat, avgScore: real)

  /** A trend line of `/sentiment`: arrow, day, average and count. */
  datatype DayLine = DayLine(arrow: Label, date: int, avgScore: real, count: nat)

  const NoTrendData: string := "No data"

  datatype SentimentReply =
    | NoSentimentData
    | SentimentEmbed(title: string, colour: Colour, breakdown: seq<SummaryLine>,
                     trend: Section<DayLine>, totalMsgs: nat, overall: real)

  function SummaryLineOf(s: Stat<Label>): SummaryLine {
    SummaryLine(s.key, s.count, s.avgScore)
  }

  function DayLineOf(s: Stat<int>): DayLine {
    DayLine(Classify(s.avgScore), s.key, s.avgScore, s.count)
  }

  /** What `/sentiment` replies for `days`: nothing when the summary is empty; otherwise
      a line per summary row, the summed count, the count-weighted average and its
      colour, and a line per day or "No data". */
  function SentimentReplyOf(rows: seq<Row>, now: int, days: nat): (r: SentimentReply)
    ensures r.NoSentimentData? <==> Window(rows, now, days) == []
    ensures r.SentimentEmbed? ==> r.totalMsgs == |Window(rows, now, days)| && r.title == Title(days)
  {
    SentimentReplyFrom(days, GetSummary(rows, now, days), GetTrend(rows, now, days))
  }

  function SentimentReplyFrom(days: nat, summary: seq<Stat<Label>>, trend: seq<Stat<int>>): SentimentReply {
    if summary == [] then NoSentimentData
    else
      var overall := Overall(WeightedSum(summary), CountSum(summary));
      SentimentEmbed(Title(days), ColourOf(overall), SummaryLines(summary), TrendField(trend),
                     CountSum(summary), overall)
  }

  function SummaryLines(summary: seq<Stat<Label>>): (lines: seq<SummaryLine>)
    ensures |lines| == |summary|
    ensures forall i :: 0 <= i < |summary| ==> lines[i] == SummaryLineOf(summary[i])
  {
    seq(|summary|, i requires 0 <= i < |summary| => SummaryLineOf(summary[i]))
  }

  /** `trendText || "No data"`. */
  function TrendField(trend: seq<Stat<int>>): (f: Section<DayLine>)
    ensures f.Fallback? <==> trend == []
    ensures f.Fallback? ==> f.text == NoTrendData
    ensures f.Lines? ==> (|f.lines| == |trend|
      && forall i :: 0 <= i < |trend| ==> f.lines[i] == DayLineOf(trend[i]))
  {
    if trend == [] then Fallback(NoTrendData)
    else Lines(seq(|trend|, i requires 0 <= i < |trend| => DayLineOf(trend[i])))
  }

  /** The fold over the summary: the summed counts, the summed weighted scores and a
      line per row. */
  method FoldSummary(summary: seq<Stat<Label>>) returns (totalMsgs: nat, weightedScore: real, lines: seq<SummaryLine>)
    ensures totalMsgs == CountSum(summary)
    ensures weightedScore == WeightedSum(summary)
    ensures lines == SummaryLines(summary)
  {
    totalMsgs, weightedScore, lines := 0, 0.0, [];
    for i := 0 to |summary|
      invariant totalMsgs == CountSum(summary[..i])
      invariant weightedScore == WeightedSum(summary[..i])
      invariant |lines| == i && forall j :: 0 <= j < i ==> lines[j] == SummaryLineOf(summary[j])
    {
      var row := summary[i];
      assert summary[..i + 1] == summary[..i] + [row];
      CountSumSnoc(summary[..i], row);
      WeightedSumSnoc(summary[..i], row);
      lines := lines + [SummaryLineOf(row)];
      totalMsgs := totalMsgs + row.count;
      weightedScore := weightedScore + row.avgScore * (row.count as real);
    }
    assert summary[..|summary|] == summary;
  }

  /** The trend loop of `/sentiment`, then the "No data" default. */
  method TrendLoop(trend: seq<Stat<int>>) returns (f: Section<DayLine>)
    ensures f == TrendField(trend)
  {
    var dayLines: seq<DayLine> := [];
    for i := 0 to |trend|
      invariant |dayLines| == i && forall j :: 0 <= j < i ==> dayLines[j] == DayLineOf(trend[j])
    {
      dayLines := dayLines + [DayLineOf(trend[i])];
    }
    f := if |dayLines| == 0 then Fallback(NoTrendData) else Lines(dayLines);
  }

  /** The `/sentiment` command. */
  method SentimentCommand(store: EventStore, option: Option<int>, now: int) returns (reply: SentimentReply)
    requires option.Some? ==> 1 <= option.value <= 30
    ensures reply == SentimentReplyOf(store.rows, now, DaysOrDefault(option, SentimentDefaultDays))
  {
    var days := DaysOrDefault(option, SentimentDefaultDays);
    var summary := GetSummary(store.rows, now, days);
    var trend := GetTrend(store.rows, now, days);
    if |summary| == 0 {
      return NoSentimentData;
    }
    var totalMsgs, weightedScore, lines := FoldSummary(summary);
    var overall := if totalMsgs > 0 then weightedScore / (totalMsgs as real) else 0.0;
    var trendField := TrendLoop(trend);
    reply := SentimentEmbed(Title(days), ColourOf(overall), lines, trendField, totalMsgs, overall);
  }

  /** `/sentiment` answers "no data" exactly when the window is empty; otherwise its
      total is the number of rows in the window, its overall score their mean, it has
      a line per label present, and its trend a line per day or "No data". */
  lemma SentimentReplySpec(rows: seq<Row>, now: int, days: nat)
    ensures var reply := SentimentReplyOf(rows, now, days); var w := Window(rows, now, days);
      && (reply.NoSentimentData? <==> w == [])
      && (reply.SentimentEmbed? ==>
            && reply.totalMsgs == |w|
            && reply.overall == Mean(w, ScoreOf)
            && reply.colour == ColourOf(Mean(w, ScoreOf))
            && |reply.breakdown| == |GetSummary(rows, now, days)|
            && (reply.trend.Fallback? <==> GetTrend(rows, now, days) == []))
  {
    var w := Window(rows, now, days);
    var s := GetSummary(rows, now, days);
    SummarySpec(rows, now, days);
    OverallIsMean(w, WeightedSum(s));
    SummaryEmptyIff(rows, now, days);
  }

  /** The summary is empty exactly when the window is. */
  lemma SummaryEmptyIff(rows: seq<Row>, now: int, days: nat)
    ensures GetSummary(rows, now, days) == [] <==> Window(rows, now, days) == []
  {
    SummarySpec(rows, now, days);
  }

  datatype ChannelsReply = NoChannelData | ChannelsEmbed(title: string, lines: seq<ChannelLine>)

  /** What `/channels` replies for `days`: nothing when the breakdown is empty, otherwise
      a line per channel row. */
  function ChannelsReplyOf(rows: seq<Row>, now: int, days: nat): (r: ChannelsReply)
    ensures r.NoChannelData? <==> Window(rows, now, days) == []
    ensures r.ChannelsEmbed? ==> 0 < |r.lines| <= 10 && r.title == Title(days)
  {
    ChannelsEmptyIff(rows, now, days);
    ChannelsReplyFrom(days, GetChannelBreakdown(rows, now, days))
  }

  function ChannelsReplyFrom(days: nat, breakdown: seq<Stat<string>>): ChannelsReply {
    if breakdown == [] then NoChannelData else ChannelsEmbed(Title(days), ChannelSection(breakdown).lines)
  }

  /** The `/channels` command: a line per channel row, added in a loop. */
  method ChannelsCommand(store: EventStore, option: Option<int>, now: int) returns (reply: ChannelsReply)
    requires option.Some? ==> 1 <= option.value <= 30
    ensures reply == ChannelsReplyOf(store.rows, now, DaysOrDefault(option, ChannelsDefaultDays))
  {
    var days := DaysOrDefault(option, ChannelsDefaultDays);
    var breakdown := GetChannelBreakdown(store.rows, now, days);
    if |breakdown| == 0 {
      return NoChannelData;
    }
    var sec := ChannelText(breakdown);
    reply := ChannelsEmbed(Title(days), sec.lines);
  }

  /** The channel breakdown is empty exactly when the window is. */
  lemma ChannelsEmptyIff(rows: seq<Row>, now: int, days: nat)
    ensures GetChannelBreakdown(rows, now, days) == [] <==> Window(rows, now, days) == []
  {
    var w := Window(rows, now, days);
    ChannelBreakdownSpec(rows, now, days);
    if w != [] {
      assert w[0] in w;
    }
  }

  /** `/channels` answers "no data" exactly when the window is empty; otherwise it shows
      at most ten channels, busiest first, with the indicator of each average. */
  lemma ChannelsReplySpec(rows: seq<Row>, now: int, days: nat)
    ensures var reply := ChannelsReplyOf(rows, now, days);
      && (reply.NoChannelData? <==> Window(rows, now, days) == [])
      && (reply.ChannelsEmbed? ==>
            && 0 < |reply.lines| <= 10
            && (forall i, j :: 0 <= i < j < |reply.lines| ==> reply.lines[i].count >= reply.lines[j].count)
            && forall i :: 0 <= i < |reply.lines| ==> reply.lines[i].indicator == Classify(reply.lines[i].avgScore))
  {
    ChannelBreakdownSpec(rows, now, days);
    ChannelsEmptyIff(rows, now, days);
  }
}
