/**
 * The event store of src/database.js: the `sentiment` table as a sequence of rows, the
 * insert that appends to it, and the five read queries as functions over it.
 *
 * Timestamps are whole seconds on one clock. "The last N days" is every row stamped at
 * or after `now - N * 86400`, and `DATE(timestamp)` is the number of the day the second
 * falls in.
 */
module Database {
  import opened Sentiment
  import opened Grouping

  /** What the bot hands to `insertSentiment`. */
  datatype Sample = Sample(userId: string, username: string, channelId: string,
                           channelName: string, score: real, polarity: Label)

  /** One row of the `sentiment` table (the autoincrement id is not modelled). */
  datatype Row = Row(userId: string, username: string, channelId: string,
                     channelName: string, score: real, polarity: Label, timestamp: int)

  const SecondsPerDay: int := 86400

  /** The row `insertSentiment` writes: the sample's fields, stamped with the time. */
  function Stamp(s: Sample, now: int): (r: Row)
    ensures Sample(r.userId, r.username, r.channelId, r.channelName, r.score, r.polarity) == s
    ensures forall days: nat :: InWindow(r, now, days)
  {
    Row(s.userId, s.username, s.channelId, s.channelName, s.score, s.polarity, now)
  }

  class EventStore {
    var rows: seq<Row>

    constructor ()
      ensures rows == []
    {
      rows := [];
    }

    /** `insertSentiment`: exactly one new row, last, stamped `now`; the rows already
        there are untouched. */
    method InsertSentiment(data: Sample, now: int)
      modifies this
      ensures rows == old(rows) + [Stamp(data, now)]
    {
      rows := rows + [Stamp(data, now)];
    }
  }

  /** `WHERE timestamp >= datetime('now', '-N days')`. */
  predicate InWindow(r: Row, now: int, days: nat) {
    r.timestamp >= now - days * SecondsPerDay
  }

  /** The rows every query reads: those stamped within the last `days` days, the lower
      bound included. */
  function Window(rows: seq<Row>, now: int, days: nat): (w: seq<Row>)
    ensures |w| <= |rows|
    ensures forall r :: r in w <==> r in rows && r.timestamp >= now - days * SecondsPerDay
    ensures forall r :: multiset(w)[r] == if r.timestamp >= now - days * SecondsPerDay then multiset(rows)[r] else 0
  {
    KeepWhereMultiset(rows, Recent(now, days));
    KeepWhere(rows, Recent(now, days))
  }

  /** A longer window holds at least as many rows. */
  lemma WindowWiden(rows: seq<Row>, now: int, d1: nat, d2: nat)
    requires d1 <= d2
    ensures |Window(rows, now, d1)| <= |Window(rows, now, d2)|
  {
    assert d1 * SecondsPerDay <= d2 * SecondsPerDay;
    KeepWhereWeaker(rows, Recent(now, d1), Recent(now, d2));
  }

  function Recent(now: int, days: nat): Row -> bool {
    r => InWindow(r, now, days)
  }

  function LabelOf(r: Row): Label { r.polarity }
  function ScoreOf(r: Row): real { r.score }
  function ChannelNameOf(r: Row): string { r.channelName }
  function UserIdOf(r: Row): string { r.userId }

  /** `DATE(timestamp)`: the day a timestamp falls in (division rounds down). */
  function DateOf(r: Row): int { r.timestamp / SecondsPerDay }

  /** `ORDER BY count DESC`: a group ranks by the number of its rows. */
  function ByCount<K(==)>(w: seq<Row>, key: Row -> K): K -> real {
    k => |Matching(w, key, k)| as real
  }

  /** `ORDER BY date ASC`: a later day ranks lower. */
  function ByDate(d: int): real {
    -(d as real)
  }

  /** `ORDER BY avg_score DESC` over users. */
  function ByMean(w: seq<Row>): string -> real {
    id => Mean(Matching(w, UserIdOf, id), ScoreOf)
  }

  /** `HAVING message_count >= 3`. */
  function HasThree(w: seq<Row>): string -> bool {
    id => |Matching(w, UserIdOf, id)| >= 3
  }

  /** `getSummary`: label, COUNT(*) and AVG(score) per label, most frequent first. */
  function GetSummary(rows: seq<Row>, now: int, days: nat): (s: seq<Stat<Label>>)
    ensures CountSum(s) == |Window(rows, now, days)|
    ensures forall i :: 0 <= i < |s| ==> s[i].count > 0
  {
    var w := Window(rows, now, days);
    GroupBySpec(w, LabelOf, ScoreOf, ByCount(w, LabelOf));
    GroupBy(w, LabelOf, ScoreOf, ByCount(w, LabelOf))
  }

  /** `getTrend`: date, AVG(score) and COUNT(*) per day, earliest first. */
  function GetTrend(rows: seq<Row>, now: int, days: nat): (t: seq<Stat<int>>)
    ensures CountSum(t) == |Window(rows, now, days)|
    ensures forall i :: 0 <= i < |t| ==> t[i].count > 0
  {
    var w := Window(rows, now, days);
    GroupBySpec(w, DateOf, ScoreOf, ByDate);
    GroupBy(w, DateOf, ScoreOf, ByDate)
  }

  /** `getChannelBreakdown`: channel name, AVG(score) and COUNT(*) per channel name,
      busiest first, at most ten. */
  function GetChannelBreakdown(rows: seq<Row>, now: int, days: nat): (c: seq<Stat<string>>)
    ensures |c| <= 10
  {
    var w := Window(rows, now, days);
    Limit(GroupBy(w, ChannelNameOf, ScoreOf, ByCount(w, ChannelNameOf)), 10)
  }

  /** One row of `getTopUsers`. */
  datatype UserStat = UserStat(username: string, avgScore: real, count: nat,
                               positives: nat, negatives: nat)

  /** The aggregate of one user id. `username` is a bare column beside `GROUP BY
      user_id`, so SQL may take it from any row of the group; this takes the first. */
  function UserStatOf(w: seq<Row>, id: string): UserStat {
    var m := Matching(w, UserIdOf, id);
    UserStat(if m == [] then "" else m[0].username, Mean(m, ScoreOf), |m|,
             |Matching(m, LabelOf, Positive)|, |Matching(m, LabelOf, Negative)|)
  }

  /** The users with at least three rows in the window. */
  function ActiveUsers(w: seq<Row>): seq<string> {
    KeepWhere(KeysOf(w, UserIdOf), HasThree(w))
  }

  /** `ORDER BY avg_score DESC LIMIT 5` over the active users. */
  function TopUserIds(w: seq<Row>): seq<string> {
    Limit(SortBy(ActiveUsers(w), ByMean(w)), 5)
  }

  /** `getTopUsers`. */
  function GetTopUsers(rows: seq<Row>, now: int, days: nat): (u: seq<UserStat>)
    ensures |u| <= 5
    ensures forall i :: 0 <= i < |u| ==> u[i].count >= 3 && u[i].positives + u[i].negatives <= u[i].count
  {
    TopUsers(Window(rows, now, days))
  }

  function TopUsers(w: seq<Row>): (u: seq<UserStat>)
    ensures |u| <= 5
    ensures forall i :: 0 <= i < |u| ==> u[i].count >= 3 && u[i].positives + u[i].negatives <= u[i].count
  {
    var ids := TopUserIds(w);
    ActiveStats(w);
    seq(|ids|, i requires 0 <= i < |ids| => UserStatOf(w, ids[i]))
  }

  /** Every user among the top ids has three rows or more, and positives and negatives
      that fit in the count. */
  lemma ActiveStats(w: seq<Row>)
    ensures var ids := TopUserIds(w);
      && |ids| <= 5
      && forall i :: 0 <= i < |ids| ==>
           (UserStatOf(w, ids[i]).count >= 3
            && UserStatOf(w, ids[i]).positives + UserStatOf(w, ids[i]).negatives <= UserStatOf(w, ids[i]).count)
  {
    var ids := TopUserIds(w);
    TopUserIdsSpec(w);
    forall i | 0 <= i < |ids| ensures UserStatOf(w, ids[i]).count >= 3
      && UserStatOf(w, ids[i]).positives + UserStatOf(w, ids[i]).negatives <= UserStatOf(w, ids[i]).count
    {
      UserStatSpec(w, ids[i]);
    }
  }

  /** `getTodayCount`: the rows of the last day. */
  function GetTodayCount(rows: seq<Row>, now: int): (n: nat)
    ensures n <= |rows|
    ensures n == CountSum(GetSummary(rows, now, 1))
  {
    |Window(rows, now, 1)|
  }

  /** One summary row per label present in the window and no other, each with the
      COUNT and AVG of its label, most frequent first; the counts add up to the window. */
  lemma SummarySpec(rows: seq<Row>, now: int, days: nat)
    ensures var s := GetSummary(rows, now, days); var w := Window(rows, now, days);
      && (forall i, j :: 0 <= i < j < |s| ==> s[i].key != s[j].key)
      && (forall i :: 0 <= i < |s| ==> s[i] == StatOf(w, LabelOf, ScoreOf, s[i].key) && s[i].count > 0)
      && (forall r :: r in w ==> exists i :: 0 <= i < |s| && s[i].key == r.polarity)
      && (forall i, j :: 0 <= i < j < |s| ==> s[i].count >= s[j].count)
      && CountSum(s) == |w|
      && WeightedSum(s) == ScoreSum(w, ScoreOf)
  {
    var w := Window(rows, now, days);
    GroupBySpec(w, LabelOf, ScoreOf, ByCount(w, LabelOf));
  }

  /** One trend row per day with a row in the window, in strictly ascending date order,
      with the COUNT and AVG of that day; the counts add up to the window. */
  lemma TrendSpec(rows: seq<Row>, now: int, days: nat)
    ensures var t := GetTrend(rows, now, days); var w := Window(rows, now, days);
      && (forall i, j :: 0 <= i < j < |t| ==> t[i].key < t[j].key)
      && (forall i :: 0 <= i < |t| ==> t[i] == StatOf(w, DateOf, ScoreOf, t[i].key) && t[i].count > 0)
      && (forall r :: r in w ==> exists i :: 0 <= i < |t| && t[i].key == DateOf(r))
      && CountSum(t) == |w|
  {
    var w := Window(rows, now, days);
    var rank := ByDate;
    var t := GroupBy(w, DateOf, ScoreOf, rank);
    GroupBySpec(w, DateOf, ScoreOf, rank);
    forall i, j | 0 <= i < j < |t| ensures t[i].key < t[j].key {
      assert rank(t[i].key) >= rank(t[j].key);
      assert t[i].key != t[j].key;
    }
  }

  /** At most ten channel rows, one per channel name, busiest first, each with the COUNT
      and AVG of that name; a channel of the window that is missing had no more rows
      than any listed one. */
  lemma ChannelBreakdownSpec(rows: seq<Row>, now: int, days: nat)
    ensures var c := GetChannelBreakdown(rows, now, days); var w := Window(rows, now, days);
      && |c| <= 10
      && (forall i, j :: 0 <= i < j < |c| ==> c[i].key != c[j].key)
      && (forall i :: 0 <= i < |c| ==> c[i] == StatOf(w, ChannelNameOf, ScoreOf, c[i].key) && c[i].count > 0)
      && (forall i, j :: 0 <= i < j < |c| ==> c[i].count >= c[j].count)
      && (forall r :: r in w ==>
            (exists i :: 0 <= i < |c| && c[i].key == r.channelName)
            || (|c| == 10 && forall i :: 0 <= i < |c| ==> c[i].count >= |Matching(w, ChannelNameOf, r.channelName)|))
  {
    var w := Window(rows, now, days);
    var rank := ByCount(w, ChannelNameOf);
    var c := GetChannelBreakdown(rows, now, days);
    GroupBySpec(w, ChannelNameOf, ScoreOf, rank);
    GroupByLimit(w, ChannelNameOf, ScoreOf, rank, 10);
    assert forall i :: 0 <= i < |c| ==> c[i] == GroupBy(w, ChannelNameOf, ScoreOf, rank)[i];
  }

  /** A user's row: COUNT(*), AVG(score), the positive and negative counts (which never
      exceed the count together) and the name of one of the user's rows. */
  lemma UserStatSpec(w: seq<Row>, id: string)
    ensures var u := UserStatOf(w, id); var m := Matching(w, UserIdOf, id);
      && u.count == |m| && u.avgScore == Mean(m, ScoreOf)
      && u.positives == |Matching(m, LabelOf, Positive)|
      && u.negatives == |Matching(m, LabelOf, Negative)|
      && u.positives + u.negatives <= u.count
      && (u.count > 0 ==> exists r :: r in w && r.userId == id && r.username == u.username)
  {
    var m := Matching(w, UserIdOf, id);
    TwoKeys(m, LabelOf, Positive, Negative);
    if m != [] {
      assert m[0] in m;
    }
  }

  /** The ids behind `getTopUsers`: at most five distinct users with three rows or more,
      best average first; an active user left out averages no better than any listed. */
  lemma TopUserIdsSpec(w: seq<Row>)
    ensures var ids := TopUserIds(w);
      && |ids| <= 5
      && Distinct(ids)
      && (forall i :: 0 <= i < |ids| ==> |Matching(w, UserIdOf, ids[i])| >= 3)
      && (forall i, j :: 0 <= i < j < |ids| ==> ByMean(w)(ids[i]) >= ByMean(w)(ids[j]))
  {
    var ids := TopUserIds(w);
    KeepWhereDistinct(KeysOf(w, UserIdOf), HasThree(w));
    SortLimit(ActiveUsers(w), ByMean(w), 5);
    forall i | 0 <= i < |ids| ensures |Matching(w, UserIdOf, ids[i])| >= 3 {
      assert ids[i] in ids;
    }
  }

  lemma TopUserIdsComplete(w: seq<Row>, r: Row)
    requires r in w && |Matching(w, UserIdOf, r.userId)| >= 3
    ensures var ids := TopUserIds(w);
      r.userId in ids || (|ids| == 5 && forall i :: 0 <= i < 5 ==> ByMean(w)(ids[i]) >= ByMean(w)(r.userId))
  {
    assert UserIdOf(r) in KeysOf(w, UserIdOf);
    assert r.userId in ActiveUsers(w);
    SortLimitOne(ActiveUsers(w), ByMean(w), 5, r.userId);
  }

  /** At most five user rows, one per user, each of a user with three rows or more in
      the window, whose positives and negatives never exceed the count. */
  lemma TopUsersRows(rows: seq<Row>, now: int, days: nat)
    ensures var u := GetTopUsers(rows, now, days); var w := Window(rows, now, days);
      var ids := TopUserIds(w);
      && |u| == |ids| <= 5
      && Distinct(ids)
      && (forall i :: 0 <= i < |u| ==> u[i] == UserStatOf(w, ids[i]))
      && (forall i :: 0 <= i < |u| ==> u[i].count >= 3 && u[i].positives + u[i].negatives <= u[i].count)
  {
    var w := Window(rows, now, days);
    var ids := TopUserIds(w);
    TopUserIdsSpec(w);
    forall i | 0 <= i < |ids| ensures UserStatOf(w, ids[i]).count >= 3
      && UserStatOf(w, ids[i]).positives + UserStatOf(w, ids[i]).negatives <= UserStatOf(w, ids[i]).count
    {
      UserStatSpec(w, ids[i]);
    }
  }

  /** The user rows come best average first. */
  lemma TopUsersOrdered(rows: seq<Row>, now: int, days: nat)
    ensures var u := GetTopUsers(rows, now, days);
      forall i, j :: 0 <= i < j < |u| ==> u[i].avgScore >= u[j].avgScore
  {
    var w := Window(rows, now, days);
    var ids := TopUserIds(w);
    TopUserIdsSpec(w);
    forall i | 0 <= i < |ids| ensures UserStatOf(w, ids[i]).avgScore == ByMean(w)(ids[i]) {
      UserStatSpec(w, ids[i]);
    }
  }

  /** A user with three rows or more in the window who is not listed averages no better
      than any listed user, and then all five places are taken. */
  lemma TopUsersComplete(w: seq<Row>, r: Row)
    requires r in w && |Matching(w, UserIdOf, r.userId)| >= 3
    ensures var u := TopUsers(w);
      r.userId in TopUserIds(w)
      || (|u| == 5 && forall i :: 0 <= i < 5 ==> u[i].avgScore >= UserStatOf(w, r.userId).avgScore)
  {
    TopUserIdsComplete(w, r);
    TopUsersMeans(w);
    UserMean(w, r.userId);
  }

  lemma TopUsersMeans(w: seq<Row>)
    ensures var u := TopUsers(w); var ids := TopUserIds(w);
      |u| == |ids| && forall i :: 0 <= i < |u| ==> u[i].avgScore == ByMean(w)(ids[i])
  {
  }

  lemma UserMean(w: seq<Row>, id: string)
    ensures UserStatOf(w, id).avgScore == ByMean(w)(id)
  {
  }

  /** `getTodayCount` is the sum of the counts `getSummary(1)` returns at the same time. */
  lemma TodayCountIsSummaryTotal(rows: seq<Row>, now: int)
    ensures GetTodayCount(rows, now) == CountSum(GetSummary(rows, now, 1))
  {
    SummarySpec(rows, now, 1);
  }

  /** A row inserted now is counted today: the count grows by exactly one. */
  lemma InsertCountedToday(rows: seq<Row>, data: Sample, now: int)
    ensures GetTodayCount(rows + [Stamp(data, now)], now) == GetTodayCount(rows, now) + 1
  {
    KeepWhereAppend(rows, Stamp(data, now), Recent(now, 1));
  }
}
