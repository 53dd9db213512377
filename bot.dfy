/**
 * The message handler of src/bot.js: the ignored-channel setting, the admission filter
 * that decides whether a chat message is scored, and the ingest that stores the score.
 */
module Bot {
  import opened Wrappers
  import opened Text
  import opened Patterns
  import opened Sentiment
  import opened Database

  /** The parts of a chat message the handler reads; a channel may have no name. */
  datatype Message = Message(authorId: string, authorName: string, authorIsBot: bool,
                             channelId: string, channelName: Option<string>,
                             content: string)

  /** The shortest text that is scored, before and after stripping. */
  const MinLength: nat := 5

  /** Every field trimmed. */
  function TrimAll(fields: seq<string>): (r: seq<string>)
    ensures |r| == |fields|
    ensures forall i :: 0 <= i < |r| ==> r[i] == Trim(fields[i])
  {
    seq(|fields|, i requires 0 <= i < |fields| => Trim(fields[i]))
  }

  /** The `IGNORED_CHANNELS` setting: unset or empty gives no ids; otherwise one id per
      comma-separated field, with the spaces around it dropped. */
  function ParseIgnoredChannels(setting: Option<string>): (ids: seq<string>)
    ensures setting.None? || setting.value == "" ==> ids == []
    ensures setting.Some? && setting.value != "" ==>
      && |ids| == Occurrences(setting.value, ',') + 1
      && forall i :: 0 <= i < |ids| ==> Tight(ids[i]) && ',' !in ids[i]
  {
    if setting.None? || setting.value == "" then []
    else
      var fields := Split(setting.value, ',');
      var ids := TrimAll(fields);
      assert forall i :: 0 <= i < |ids| ==> ',' !in fields[i];
      ids
  }

  /** Writing ids comma-separated, each with any spaces around it, and parsing the
      setting gives the ids back. */
  lemma ParseIgnoredChannelsJoin(ids: seq<string>, padded: seq<string>, lead: seq<string>, trail: seq<string>)
    requires |ids| >= 1 && |padded| == |ids| == |lead| == |trail|
    requires forall i :: 0 <= i < |ids| ==>
      && Tight(ids[i]) && AllSpace(lead[i]) && AllSpace(trail[i])
      && ',' !in ids[i] && ',' !in lead[i] && ',' !in trail[i]
      && padded[i] == lead[i] + ids[i] + trail[i]
    requires Join(padded, ',') != ""
    ensures ParseIgnoredChannels(Some(Join(padded, ','))) == ids
  {
    forall i | 0 <= i < |padded| ensures ',' !in padded[i] && Trim(padded[i]) == ids[i] {
      TrimExact(lead[i], ids[i], trail[i]);
    }
    SplitJoin(padded, ',');
    assert Split(Join(padded, ','), ',') == padded;
    assert TrimAll(padded) == ids;
  }

  /** `message.channel.name || "unknown"`: a missing or empty name reads "unknown". */
  function ChannelNameOrUnknown(name: Option<string>): (n: string)
    ensures name.Some? && name.value != "" ==> n == name.value
    ensures name.None? || name.value == "" ==> n == "unknown"
  {
    if name.Some? && name.value != "" then name.value else "unknown"
  }

  datatype Rejection = FromBot | IgnoredChannel | TooShort | OnlyNoise

  /** What the filter decides: drop the message, or score this text. */
  datatype Admission = Rejected(reason: Rejection) | Admitted(text: string)

  /** The admission filter, its checks in the handler's order: a bot author, an ignored
      channel, a trimmed text under five UTF-16 code units, and a text under five code
      units once mentions, custom emojis and URLs are stripped and it is trimmed again. */
  function Admit(m: Message, ignored: seq<string>): (a: Admission)
    ensures a == Rejected(FromBot) <==> m.authorIsBot
    ensures a == Rejected(IgnoredChannel) <==> !m.authorIsBot && m.channelId in ignored
    ensures a == Rejected(TooShort) <==>
      !m.authorIsBot && m.channelId !in ignored && Utf16Length(Trim(m.content)) < MinLength
    ensures a.Admitted? <==>
      && !m.authorIsBot && m.channelId !in ignored && Utf16Length(Trim(m.content)) >= MinLength
      && Utf16Length(Trim(StripNoise(Trim(m.content)))) >= MinLength
    ensures a.Admitted? ==>
      MinLength <= Utf16Length(a.text) && |a.text| <= |Trim(m.content)| && Tight(a.text)
  {
    if m.authorIsBot then Rejected(FromBot)
    else if m.channelId in ignored then Rejected(IgnoredChannel)
    else
      var text := Trim(m.content);
      if Utf16Length(text) < MinLength then Rejected(TooShort)
      else
        var stripped := Trim(StripNoise(text));
        if Utf16Length(stripped) < MinLength then Rejected(OnlyNoise) else Admitted(stripped)
  }

  /** A message with no `<` and no "http" in it is scored on its trimmed text as is. */
  lemma PlainMessageAdmitted(m: Message, ignored: seq<string>)
    requires !m.authorIsBot && m.channelId !in ignored
    requires Utf16Length(Trim(m.content)) >= MinLength
    requires '<' !in Trim(m.content) && !HasHttp(Trim(m.content))
    ensures Admit(m, ignored) == Admitted(Trim(m.content))
  {
    var text := Trim(m.content);
    PlainTextUnchanged(text);
    TrimTight(text);
  }

  /** A message made only of mentions, custom emojis and URLs separated by whitespace
      is never scored. */
  lemma NoiseOnlyRejected(m: Message, ignored: seq<string>, ps: seq<Piece>)
    requires Separated(ps) && Trim(m.content) == Spell(ps)
    ensures Admit(m, ignored).Rejected?
    ensures !m.authorIsBot && m.channelId !in ignored && Utf16Length(Trim(m.content)) >= MinLength ==>
      Admit(m, ignored) == Rejected(OnlyNoise)
  {
    var x := StripNoise(Spell(ps));
    NoiseOnly(ps);
    TrimAllSpace(x);
  }

  /** "<@12345> https://x.com" as pieces: a mention, a space, a URL. */
  function MentionAndUrl(): seq<Piece> {
    [Piece(Some(Mention(false, "12345")), " "), Piece(Some(Url(true, "x.com")), "")]
  }

  lemma MentionAndUrlSpelled()
    ensures Spell(MentionAndUrl()) == "<@12345> https://x.com"
  {
    var ps := MentionAndUrl();
    assert Spell(ps[1..]) == "https://x.com";
  }

  lemma MentionAndUrlSeparated()
    ensures Separated(MentionAndUrl())
  {
    var ps := MentionAndUrl();
    assert GoodPiece(ps[0], false);
    assert GoodPiece(ps[1], true);
  }

  /** "<@12345> https://x.com" is a mention and a URL, nothing else. */
  lemma MentionAndUrlRejected(m: Message, ignored: seq<string>)
    requires !m.authorIsBot && m.channelId !in ignored
    requires m.content == "<@12345> https://x.com"
    ensures Admit(m, ignored) == Rejected(OnlyNoise)
  {
    MentionAndUrlSpelled();
    MentionAndUrlSeparated();
    TrimTight(m.content);
    NoiseOnlyRejected(m, ignored, MentionAndUrl());
  }

  /** A mention right after a URL scheme, as in "https://<@1>", is stripped first and
      leaves the bare scheme, which is then scored. */
  lemma SchemeBeforeMentionAdmitted(m: Message, ignored: seq<string>, secure: bool, t: Token)
    requires !m.authorIsBot && m.channelId !in ignored
    requires t.Mention? && WellFormed(t) && m.content == Scheme(secure) + Render(t)
    ensures Admit(m, ignored) == Admitted(Scheme(secure))
  {
    SchemeMentionTight(secure, t);
    MentionInsideUrl(secure, t);
    SchemeTight(secure);
    AdmitStripped(m, ignored, Scheme(secure));
  }

  lemma SchemeTight(secure: bool)
    ensures Tight(Scheme(secure)) && |Scheme(secure)| >= MinLength
  {
  }

  lemma SchemeMentionTight(secure: bool, t: Token)
    requires t.Mention?
    ensures Tight(Scheme(secure) + Render(t)) && |Scheme(secure) + Render(t)| >= MinLength
  {
    var r := Render(t);
    assert r[|r| - 1] == '>';
    var s := Scheme(secure) + r;
    assert s[0] == 'h' && s[|s| - 1] == '>';
  }

  /** A tight message long enough whose stripped text is tight and long enough is
      scored on that text. */
  lemma AdmitStripped(m: Message, ignored: seq<string>, x: string)
    requires !m.authorIsBot && m.channelId !in ignored
    requires Tight(m.content) && Utf16Length(m.content) >= MinLength
    requires StripNoise(m.content) == x && Tight(x) && Utf16Length(x) >= MinLength
    ensures Admit(m, ignored) == Admitted(x)
  {
    TrimTight(m.content);
    TrimTight(x);
  }

  /** "hi 😀" is four characters but five UTF-16 code units, so it is long enough. */
  lemma AstralEmojiAdmitted(m: Message, ignored: seq<string>)
    requires !m.authorIsBot && m.channelId !in ignored
    requires m.content == "hi \U{1F600}"
    ensures |m.content| == 4 && Utf16Length(m.content) == 5
    ensures Admit(m, ignored) == Admitted(m.content)
  {
    HiEmojiLength(m.content);
    HiEmojiPlain(m.content);
    TrimTight(m.content);
    PlainMessageAdmitted(m, ignored);
  }

  lemma HiEmojiLength(s: string)
    requires s == "hi \U{1F600}"
    ensures |s| == 4 && Utf16Length(s) == 5 && Tight(s)
  {
    assert s == "hi " + [s[3]];
    Utf16LengthAppend("hi ", [s[3]]);
    Utf16LengthBmp("hi ");
  }

  lemma HiEmojiPlain(s: string)
    requires s == "hi \U{1F600}"
    ensures '<' !in s && !HasHttp(s)
  {
    assert forall i :: 0 <= i < |s| ==> s[i] != '<' && (i == 0 || s[i] != 'h');
    forall i | 0 <= i < |s| ensures !StartsHttp(s[i..]) {
      if i == 0 {
        assert s[1] != 't';
      }
    }
  }

  /** The sample the handler stores for an admitted message. */
  function SampleOf(m: Message, analysis: Analysis): (s: Sample)
    ensures s.userId == m.authorId && s.username == m.authorName && s.channelId == m.channelId
    ensures s.channelName == ChannelNameOrUnknown(m.channelName)
    ensures s.score == analysis.score && s.polarity == analysis.polarity
  {
    Sample(m.authorId, m.authorName, m.channelId, ChannelNameOrUnknown(m.channelName),
           analysis.score, analysis.polarity)
  }

  /** The `messageCreate` handler: a rejected message leaves the store as it was; an
      admitted one adds one row, stamped `now`, whose score is the analyzer's value for
      the stripped text and whose label is the threshold label of that score. */
  method OnMessage(store: EventStore, m: Message, ignored: seq<string>,
                   comparative: string -> real, now: int) returns (a: Admission)
    modifies store
    ensures a == Admit(m, ignored)
    ensures a.Rejected? ==> store.rows == old(store.rows)
    ensures a.Admitted? ==>
      store.rows == old(store.rows) + [Stamp(SampleOf(m, AnalyzeSentiment(comparative(a.text))), now)]
  {
    a := Admit(m, ignored);
    if a.Admitted? {
      var analysis := AnalyzeSentiment(comparative(a.text));
      store.InsertSentiment(SampleOf(m, analysis), now);
    }
  }
}
