# Sentiment community bot — a verified model of its message pipeline

The bot listens to chat messages and decides which of them to score. It stores one
sentiment row per scored message. From those rows it builds the daily report and the
replies to the `/sentiment` and `/channels` commands. This project models that pipeline
in Dafny and proves its properties. It has nine modules, one per concern:

- `Wrappers` (`wrappers.dfy`): the `Option` type for a setting or a name that may be
  missing.
- `Text` (`text.dfy`): the JavaScript string built-ins the pipeline uses. These are
  `trim` over the full `\s` whitespace set, `split` and `join` on one character,
  `repeat`, and the decimal rendering of a whole number.
- `Sentiment` (`sentiment.dfy`): the three-way labeler over the analyzer's
  `comparative` score.
- `Patterns` (`patterns.dfy`): the three global `replace` calls of the admission filter.
  - It covers user mentions `<@!?\d+>`, custom emojis `<:\w+:\d+>` and URLs
    `https?://\S+`.
  - Each is a left-to-right scanner. On a match it deletes the match and goes on after
    it. With no match it keeps one character and moves one on.
  - It proves when the scanners remove exactly the tokens of a message and keep
    everything else.
- `Grouping` (`grouping.dfy`): the SQL semantics the queries rely on. These are
  `GROUP BY` with `COUNT(*)`/`AVG(score)`, `ORDER BY … DESC` as a stable sort by a rank,
  `HAVING` as a filter, and `LIMIT`.
- `Database` (`database.dfy`):
  - the table is a class `EventStore` holding a sequence of rows, and `insertSentiment`
    appends one row to it;
  - the five read queries are functions over that sequence, for the window of the last
    `days` days before `now`.
- `Bot` (`bot.dfy`):
  - the comma-separated ignored-channel setting;
  - the admission filter of the `messageCreate` handler;
  - the row built from an admitted message, and the handler itself, which scores the
    text and appends the row.
- `Reporter` (`reporter.dfy`): `buildDailyReport`. That is:
  - the label totals (a loop), the overall score and the five-way mood;
  - the percentage bars;
  - the trend, channel and member sections with their fallbacks (three loops).
- `Commands` (`commands.dfy`): the computations inside `/sentiment` and `/channels`.
  That is the `days` default, the empty-result reply, the count and weighted-score fold
  (a loop), the colour threshold, the pluralised title and the per-row lines.

Other modelling choices:

- Timestamps are whole seconds. A query's window holds exactly the rows whose timestamp
  is at least `now - days * 86400`; the bound is inclusive. `DATE(timestamp)` is the
  timestamp divided by 86400.
- Scores and averages are `real`.
- The analyzer that produces `comparative` is a parameter of the handler.

Some of the code's behaviour is easy to misread. The model follows the code:

- The three strip passes are not independent of each other, and not idempotent either.
  - `Patterns.MentionInsideUrl`: a mention right after a bare scheme is removed by the
    mention pass before the URL pass runs. So `https://<@1>` becomes `https://`, and
    that text is admitted (`Bot.SchemeBeforeMentionAdmitted`).
  - `Patterns.NestedMention`: one mention pass over `<@<@1>2>` leaves the new mention
    `<@2>` behind.
- The example text `<@12345> check this out https://x.com` is not rejected. Stripping
  leaves `check this out`, which is long enough to be scored. Text made only of
  separated tokens (`Patterns.Separated`) and whitespace is always rejected. Text whose
  leftovers are shorter than five code units is rejected too (`<@1> hi`), and tokens
  that are not separated need not all be removed (`https://<@1>`). See
  `Patterns.NoiseOnly`, `Bot.NoiseOnlyRejected` and `Bot.MentionAndUrlRejected`.
- Lengths are counted the way JavaScript's `length` counts them, in UTF-16 code units.
  A character outside the Basic Multilingual Plane counts twice, so `hi 😀` is four
  characters but five units long, and it is scored (`Bot.AstralEmojiAdmitted`).
- The daily report's overall score divides the weighted sum by `getTodayCount`, not by
  the sum of the summary counts. Read at the same `now`, both count the same window, so
  the two agree (`Database.TodayCountIsSummaryTotal`).

## Model

| member | source | states |
|---|---|---|
| Text.Trim | src/bot.js:106 | `trim` leaves no space at either end, never lengthens the text, and keeps only characters of the input |
| Text.Utf16Length | src/bot.js:107 | `length` counts UTF-16 code units: at least one and at most two per character |
| Text.Utf16LengthAppend | src/bot.js:107 | the code-unit length of a concatenation is the sum of the lengths |
| Text.Utf16LengthBmp | src/bot.js:114 | text made only of Basic Multilingual Plane characters has one code unit per character |
| Text.TrimExact | src/bot.js:106 | trimming whitespace + tight text + whitespace gives exactly the tight text back |
| Text.TrimTight | src/bot.js:113 | trimming text without leading or trailing space changes nothing |
| Text.TrimAllSpace | src/bot.js:113 | trimming text made only of whitespace gives the empty string |
| Text.Split | src/bot.js:32 | `split(sep)` gives one more field than there are separators, and no field holds the separator |
| Text.JoinSplit | src/bot.js:32 | joining the fields of a split with the separator gives the original text back |
| Text.SplitJoin | src/bot.js:32 | splitting a join of separator-free fields gives the fields back |
| Text.SplitThree | src/reporter.js:41-45 | three newline-free lines joined by newlines split back into those three lines |
| Text.Repeat | src/reporter.js:37 | `c.repeat(n)` has length n and every character is c |
| Text.OccurrencesRepeat | src/reporter.js:37 | a run of n copies of c holds c exactly n times and no other character |
| Text.NatToString | src/reporter.js:37 | a whole number renders as decimal digits without a leading zero |
| Text.NatToStringValue | src/reporter.js:37 | reading the rendered digits back gives the number |
| Sentiment.Classify | src/sentiment.js:19-22 | positive iff score > 0.05, negative iff score < -0.05, neutral iff -0.05 <= score <= 0.05 |
| Sentiment.AnalyzeSentiment | src/sentiment.js:13-30 | the score is the analyzer's comparative value unchanged, and the label is the three-way threshold of that same score |
| Sentiment.ClassifyMonotone | src/sentiment.js:19-22 | a higher score never gets a lower label |
| Patterns.Run | src/bot.js:110-112 | a greedy run of a character class stops at the first character outside the class or at the end |
| Patterns.ScanMention | src/bot.js:110 | a match of `<@!?\d+>` at the start of the text is a well-formed mention that the text starts with |
| Patterns.ScanEmoji | src/bot.js:111 | a match of `<:\w+:\d+>` at the start of the text is a well-formed custom emoji that the text starts with |
| Patterns.ScanUrl | src/bot.js:112 | a match of `https?://\S+` is a well-formed URL that the text starts with, and it is followed by whitespace or the end of the text |
| Patterns.Scan | src/bot.js:110-112 | a match of a pattern is a well-formed token of that pattern at the start of the text, and a URL match takes the whole non-space run |
| Patterns.ScanRender | src/bot.js:110-112 | scanning the text of a well-formed token finds exactly that token, whatever follows (for a URL, whatever follows after a space) |
| Patterns.ScanNeedsOpening | src/bot.js:110-112 | a mention match starts with `<@`, an emoji match starts with `<:`, and a URL match starts with `http://` or `https://` |
| Patterns.Strip | src/bot.js:110-112 | a global `replace(…, "")` never makes the text longer |
| Patterns.StripNoise | src/bot.js:109-112 | the three passes in the handler's order never make the text longer |
| Patterns.StripInert | src/bot.js:110-112 | text that holds no match is kept and the scan carries on after it |
| Patterns.StripMatch | src/bot.js:110-112 | a match at the start is deleted and the scan goes on after it |
| Patterns.StripUnchanged | src/bot.js:110-112 | a pass leaves the text unchanged iff the text holds no match |
| Patterns.StripShrinks | src/bot.js:110-112 | a pass over text holding a match makes it strictly shorter |
| Patterns.PlainTextUnchanged | src/bot.js:109-112 | text with no `<` and no `http` is unchanged by the three passes |
| Patterns.InertWithout | src/bot.js:110-112 | text without the pattern's opening character (`<`, or `h` for URLs) holds no match |
| Patterns.InertToken | src/bot.js:110-111 | a token of one pattern holds no match of another (a URL holding no `<`) |
| Patterns.StripPieces | src/bot.js:110-112 | over whitespace-separated tokens, one pass removes exactly the tokens of its pattern and keeps every other token and every gap |
| Patterns.DropSeparated | src/bot.js:110-112 | removing tokens keeps the pieces whitespace-separated |
| Patterns.NoiseOnly | src/bot.js:109-113 | text made only of mentions, emojis and URLs separated by whitespace becomes exactly its gaps, which are whitespace only |
| Patterns.StripTrailingMention | src/bot.js:110 | a mention at the end of text without `<` is removed and the text before it is kept |
| Patterns.MentionAlone | src/bot.js:110 | a mention on its own is stripped to nothing |
| Patterns.EmojiFree | src/bot.js:111 | text without `<` is unchanged by the emoji pass |
| Patterns.UrlSchemeAlone | src/bot.js:112 | a bare `http://` or `https://` with nothing after it is no URL and is kept |
| Patterns.MentionInsideUrl | src/bot.js:109-112 | a mention right after a bare scheme is removed by the mention pass, so the three passes leave the scheme |
| Patterns.NestedMention | src/bot.js:110 | one mention pass over `<@` + mention + `id>` leaves the new mention `<@id>`, which a second pass would remove: the pass is not idempotent |
| Bot.ParseIgnoredChannels | src/bot.js:31-33 | an unset or empty setting gives no ids; otherwise one id per comma-separated field, each trimmed and free of commas |
| Bot.ParseIgnoredChannelsJoin | src/bot.js:31-33 | parsing a comma list of ids padded with whitespace gives exactly those ids back |
| Bot.ChannelNameOrUnknown | src/bot.js:123 | the channel's name when it has a non-empty one, `"unknown"` otherwise |
| Bot.Admit | src/bot.js:103-114 | bot authors are rejected first, then ignored channels, then trimmed text under 5 UTF-16 code units; the message is admitted iff it passes those and the stripped, re-trimmed text is at least 5 code units long; admitted text is tight, at least 5 code units long and no longer than the trimmed original |
| Bot.AstralEmojiAdmitted | src/bot.js:106-114 | `hi 😀` is four characters but five UTF-16 code units, so it passes both length checks and is scored unchanged |
| Bot.PlainMessageAdmitted | src/bot.js:106-114 | a message with no `<` and no `http` that passes the first three checks is scored on its trimmed text unchanged |
| Bot.NoiseOnlyRejected | src/bot.js:109-114 | a message whose trimmed text is only mentions, emojis and URLs separated by whitespace is always rejected, and as only noise when it passes the first three checks |
| Bot.MentionAndUrlRejected | src/bot.js:109-114 | the message `<@12345> https://x.com` is rejected as only noise |
| Bot.SchemeBeforeMentionAdmitted | src/bot.js:106-114 | a message that is a bare scheme followed by a mention is admitted with the scheme as its text |
| Bot.AdmitStripped | src/bot.js:106-114 | a tight message at least 5 UTF-16 code units long is scored on its stripped text when that text is tight and at least 5 code units long |
| Bot.SampleOf | src/bot.js:119-126 | the row carries the author's id and name, the channel id, the channel name or `"unknown"`, and the score and label of the analysis unchanged |
| Bot.OnMessage | src/bot.js:102-130 | the handler's decision is the filter's; a rejected message leaves the store unchanged; an admitted one appends exactly one row, built from the analysis of the admitted text and stamped with `now` |
| Database.EventStore.constructor | src/database.js:10-20 | a new table is empty |
| Database.EventStore.InsertSentiment | src/database.js:34-36 | appends exactly one row with the given fields and timestamp `now`, and leaves the existing rows unchanged |
| Database.Stamp | src/database.js:34-36 | the inserted row carries exactly the sample's fields, and its timestamp `now` puts it in every window ending at `now` |
| Database.Window | src/database.js:48 | a row is in the window iff it is in the table and its timestamp is at least `now - days` days; each such row occurs in the window as many times as in the table, and no other row occurs |
| Database.GetSummary | src/database.js:41-52 | the counts of the summary add up to the size of the window, and no summary row has a zero count (the rest is stated by `Database.SummarySpec`) |
| Database.GetTrend | src/database.js:55-66 | the counts of the trend add up to the size of the window, and no day has a zero count (the rest is stated by `Database.TrendSpec`) |
| Database.GetChannelBreakdown | src/database.js:69-81 | at most 10 rows (the rest is stated by `Database.ChannelBreakdownSpec`) |
| Database.GetTopUsers | src/database.js:84-99 | at most 5 rows, each with a count of 3 or more and positives + negatives within the count (the rest is stated by `Database.TopUsersRows` and `Database.TopUsersOrdered`) |
| Database.GetTodayCount | src/database.js:102-108 | today's count never exceeds the table and equals the summed counts of `getSummary(1)` at the same `now` |
| Database.WindowWiden | src/database.js:48 | a longer window never holds fewer rows |
| Database.SummarySpec | src/database.js:41-52 | one row per label present in the window and no other, each with the COUNT and AVG of its label, ordered by count descending; the counts add up to the window size and the weighted averages to its total score |
| Database.TrendSpec | src/database.js:55-66 | one row per day present in the window, each with the COUNT and AVG of its day, in strictly ascending date order; the counts add up to the window size |
| Database.ChannelBreakdownSpec | src/database.js:69-81 | at most 10 rows, one per channel name, each with the COUNT and AVG of its channel, ordered by count descending; a channel of the window is listed unless 10 channels at least as busy are |
| Database.UserStatSpec | src/database.js:84-95 | a user's row holds the COUNT, AVG and positive and negative counts of that user id, positives + negatives <= count, and its username is one the user id posted under |
| Database.TopUserIdsSpec | src/database.js:93-97 | at most 5 distinct user ids, each with at least 3 rows in the window, ordered by average score descending |
| Database.TopUserIdsComplete | src/database.js:94-97 | a user with at least 3 rows is listed unless 5 users with an average at least as high are |
| Database.TopUsersRows | src/database.js:84-99 | `getTopUsers` returns at most 5 rows, one per listed user id, each with count >= 3 and positives + negatives <= count |
| Database.TopUsersOrdered | src/database.js:96 | the rows of `getTopUsers` are ordered by average score descending |
| Database.TopUsersComplete | src/database.js:94-97 | a user with at least 3 rows is listed unless 5 listed users average at least as high |
| Database.TopUsersMeans | src/database.js:88-96 | each row's average is the average the query sorts by |
| Database.TodayCountIsSummaryTotal | src/database.js:41-52 | `getTodayCount()` equals the sum of the counts of `getSummary(1)` |
| Database.InsertCountedToday | src/database.js:34-36 | after an insert stamped `now`, today's count is one higher |
| Grouping.Matching | src/database.js:49 | the rows of one group are exactly the rows with that key |
| Grouping.MatchingMultiset | src/database.js:45-49 | a group holds each row with its key as often as the table does, and no other row |
| Grouping.KeysOf | src/database.js:49 | the group keys are distinct, every row's key is one of them, and no group is empty |
| Grouping.Mean | src/database.js:46 | AVG times COUNT is the sum of the scores |
| Grouping.Aggregate | src/database.js:45-46 | one COUNT and AVG row per key, in the keys' order |
| Grouping.AggregateSums | src/database.js:45-46 | over distinct keys the COUNTs add up to the rows of those keys and the AVG*COUNT to their total score |
| Grouping.Insert | src/database.js:50 | inserting into a rank-descending sequence keeps it rank-descending and adds exactly that element |
| Grouping.SortBy | src/database.js:50 | `ORDER BY … DESC` is a permutation of its input ordered by rank descending |
| Grouping.SortDistinct | src/database.js:50 | sorting keeps distinct elements distinct |
| Grouping.KeepWhere | src/database.js:95 | `HAVING` keeps exactly the elements that satisfy the condition |
| Grouping.KeepWhereDistinct | src/database.js:95 | filtering keeps distinct elements distinct |
| Grouping.KeepWhereMultiset | src/database.js:95 | filtering keeps each satisfying element as often as it occurs, and drops every other |
| Grouping.Limit | src/database.js:79 | `LIMIT n` keeps a prefix of at most n rows, all of them when there are no more than n |
| Grouping.GroupBySpec | src/database.js:45-50 | one row per distinct key, none empty, each with the COUNT and AVG of its group, in rank order; the counts add up to the table size and the weighted averages to its total score |
| Grouping.GroupByLimit | src/database.js:77-79 | after `LIMIT n` every row's group is listed unless n groups ranked at least as high are |
| Grouping.SortLimit | src/database.js:96-97 | the top n of a sort are distinct members of the input in rank order, and any member left out is ranked no higher than n listed ones |
| Grouping.TwoKeys | src/database.js:90-91 | rows of two different keys together number no more than the table |
| Reporter.Tally | src/reporter.js:15-21 | the totals loop gives each label the count of its summary row (0 when absent) and the total score the sum of AVG*COUNT |
| Reporter.LabelCountFound | src/reporter.js:17-19 | with distinct labels, a label's total is the count of its summary row |
| Reporter.LabelCountAbsent | src/reporter.js:15-19 | a label with no summary row totals 0 |
| Reporter.LabelCountIsMatching | src/reporter.js:15-19 | a label's total is the number of rows with that label in the window |
| Reporter.Overall | src/reporter.js:22 | the overall score is 0 when the count is 0, and otherwise the total score divided by the count |
| Reporter.MoodOf | src/reporter.js:26-30 | exactly one of five moods: above 0.1 very positive, above 0.02 positive, below -0.1 very negative, below -0.02 negative, otherwise neutral |
| Reporter.MoodMonotone | src/reporter.js:26-30 | a higher overall score never gets a worse mood |
| Reporter.Percent | src/reporter.js:35 | the rounded percentage is the nearest whole number to 100·value/total with halves rounded up, and it is at most 100 when value <= total |
| Reporter.PercentNearest | src/reporter.js:35 | the exact percentage lies within half a point of the rounded one |
| Reporter.Filled | src/reporter.js:36 | the number of full blocks is pct/5 rounded half up, and it is more than 20 iff pct >= 103 |
| Reporter.Blocks | src/reporter.js:37 | twenty block characters, the first `filled` full and the rest light |
| Reporter.BuildBar | src/reporter.js:33-38 | an empty string when the total is 0; otherwise the bar starts with the mark; it fails only when `repeat` would get a negative count |
| Reporter.BarBlocks | src/reporter.js:35-37 | for 0 <= value <= total and total > 0: pct <= 100, filled <= 20, and the bar is the mark, a space, exactly 20 blocks of which `filled` are full, then ` pct% (value)` |
| Reporter.BarOneLine | src/reporter.js:37 | a bar holds no newline |
| Reporter.Breakdown | src/reporter.js:40-46 | the fixed text when the count is 0; a text when the label totals are within the count |
| Reporter.BreakdownLines | src/reporter.js:40-45 | with a count, the breakdown splits into exactly three lines: the positive, neutral and negative bars in that order |
| Reporter.BreakdownFallback | src/reporter.js:40-46 | the breakdown is "No messages tracked today." iff the count is 0 |
| Reporter.TrendSection | src/reporter.js:49-60 | the fixed fallback iff there is no trend row; otherwise one line per day in order, each arrow by the ±0.05 thresholds and a plus sign iff the average is positive |
| Reporter.ChannelSection | src/reporter.js:63-71 | the fixed fallback iff there is no channel row; otherwise one line per channel in order, its indicator by the ±0.05 thresholds |
| Reporter.UserSection | src/reporter.js:74-82 | the fixed fallback iff there is no user row; otherwise one line for each of the first three users at most, its indicator by the ±0.05 thresholds |
| Reporter.TrendText | src/reporter.js:49-60 | the trend loop builds the trend section |
| Reporter.ChannelText | src/reporter.js:63-71 | the channel loop builds the channel section |
| Reporter.UsersText | src/reporter.js:74-82 | the user loop over the first three users builds the user section |
| Reporter.DailyReport | src/reporter.js:7-22 | the report's count is the number of rows in the last day, and its three label totals add up to that count (the rest is stated by `Reporter.ReportTotals` and the other `Report…` lemmas) |
| Reporter.BuildDailyReport | src/reporter.js:7-82 | the report built from the table is the daily report of its rows at `now` |
| Reporter.ReportTotals | src/reporter.js:8-22 | the report's count is the rows of the last day, its label totals are the rows of each label and add up to the count, and its overall score is their mean |
| Reporter.OverallIsMean | src/reporter.js:22 | total score over count is the mean score of the window |
| Reporter.LabelsPartition | src/reporter.js:17-19 | every row has exactly one of the three labels |
| Reporter.ReportBreakdown | src/reporter.js:40-46 | the breakdown always exists, and it is the fixed text iff no row is in the last day |
| Reporter.EmptyReport | src/reporter.js:22-82 | with no row in the last week the report counts 0, scores 0, is neutral, and every section shows its fallback |
| Reporter.ReportTrend | src/reporter.js:49-60 | trend lines are in strictly ascending date order and their counts add up to the rows of the last seven days |
| Reporter.ReportChannels | src/reporter.js:63-71 | at most 10 channel lines, busiest first |
| Reporter.ReportUsers | src/reporter.js:74-82 | every member line has at least 3 messages, best average first |
| Reporter.TrendLineCount | src/reporter.js:49-57 | the counts on the trend lines add up to the counts of the trend rows |
| Reporter.ThreeMessageScenario | src/reporter.js:22-30 | three messages today scoring 0.2, -0.3 and 0.01 give an overall -0.03, a negative mood, though the labeler calls that score neutral |
| Commands.DaysOrDefault | src/commands.js:22 | the given day count, or the command's default when the option is absent |
| Commands.Title | src/commands.js:50 | "Last N Day", with the final "s" iff the day count is more than 1 |
| Commands.ColourOf | src/commands.js:51 | green above 0.05, red below -0.05, orange otherwise |
| Commands.ColourIsLabel | src/commands.js:51 | the colour agrees with the labeler's three-way label of the overall score |
| Commands.SummaryLines | src/commands.js:34-36 | one breakdown line per summary row, in order |
| Commands.TrendField | src/commands.js:43-54 | one line per trend row with its ±0.05 arrow, or "No data" iff there is no trend row |
| Commands.FoldSummary | src/commands.js:30-39 | the loop sums the counts, sums AVG*COUNT and builds one line per summary row |
| Commands.TrendLoop | src/commands.js:43-47 | the trend loop builds the trend field |
| Commands.SentimentCommand | src/commands.js:20-59 | `/sentiment` answers for the given days, or 7 by default |
| Commands.SentimentReplyOf | src/commands.js:22-57 | the reply is "no data" iff the window is empty; otherwise its total is the window size and its title is that of the day count (the rest is stated by `Commands.SentimentReplySpec`) |
| Commands.SentimentReplySpec | src/commands.js:26-54 | no data iff the window is empty; otherwise the total is the window size, the overall score its mean, the colour that of the mean, one line per summary row, and the trend falls back iff there is no trend row |
| Commands.SummaryEmptyIff | src/commands.js:26 | the summary is empty iff the window is |
| Commands.ChannelsCommand | src/commands.js:77-98 | `/channels` answers for the given days, or 1 by default, one line per channel row |
| Commands.ChannelsEmptyIff | src/commands.js:82 | the channel breakdown is empty iff the window is |
| Commands.ChannelsReplyOf | src/commands.js:79-96 | the reply is "no data" iff the window is empty; otherwise it has 1 to 10 lines and the title of the day count (the rest is stated by `Commands.ChannelsReplySpec`) |
| Commands.ChannelsReplySpec | src/commands.js:79-93 | no data iff the window is empty; otherwise 1 to 10 lines, busiest first, each indicator by the ±0.05 thresholds |

## Left out

- Platform I/O is not part of this model. That covers the Discord client, login,
  registering and dispatching slash commands, the replies and embeds, and sending the
  daily report.
- Scheduling with `node-cron` is not modelled; it calls a foreign library.
- The keep-alive HTTP server, `dotenv`, environment reads and logging are not modelled.
- SQLite's connection, WAL pragma, schema and indexes are storage internals and are left
  out. The autoincrement `id` column is not modelled.
- `insertSentiment` stamps rows with `new Date().toISOString()` and the queries compare
  against `datetime('now', …)`. That string comparison is left out: timestamps are whole
  seconds and the clock is the parameter `now`.
- The `sentiment` lexicon analysis is a foreign library. Its `comparative` score is an
  input (`Bot.OnMessage` takes it as a function), and `positiveWords`/`negativeWords`
  are not modelled.
- Scores are `real`, not IEEE doubles.
- `toFixed(3)` and the date header's `toLocaleDateString` are not modelled: lines carry
  the average itself. Emoji, colour literals and embed field names are not modelled
  beyond the branch that picks them.
- `async`/`await` and the `try`/`catch` around an insert that fails are left out; a
  failed insert only logs.
- The `/report` command only sends the daily report, which is `Reporter.BuildDailyReport`.
- SQL leaves ties in `ORDER BY` and the `username` beside `GROUP BY user_id` unspecified.
  The model breaks ties by a stable insertion sort and takes the username of the group's
  first row. Contracts state only what SQL guarantees: the order by rank, and that the
  username is one the user posted under.
- Reporter.Percent: rounds `100·value/total` exactly. The source rounds the float
  `(value / total) * 100`, which can fall just below a half point (29/200 gives 14 there
  and 15 here).
- Commands.DaysOrDefault: requires a day count of 1 to 30. The platform enforces that
  range before `execute` runs. The source's `|| 7` would also replace a 0, which the
  range excludes.
- Reporter.BuildBar: returns no bar when `repeat` would be given a negative count, where
  the source throws. That only happens when a value exceeds the total.
  `Reporter.BarBlocks` and `Reporter.ReportBreakdown` show this never happens in a report
  whose queries all read the clock at the same instant.
- One clock reading per report or command: the model evaluates every query of
  `buildDailyReport`, `/sentiment` and `/channels` at the same `now`. The source
  evaluates `datetime('now', …)` anew in each query (src/database.js:48, 62, 76, 93
  and 106). A row inserted between two queries of one report can therefore be counted
  by `getTodayCount` but not by `getSummary`. The agreement of the two totals and the
  bar bound hold only for one shared reading.
- The strip passes are not claimed to be idempotent or order-independent, because they
  are not (`Patterns.NestedMention`, `Patterns.MentionInsideUrl`).
