/**
 * The three noise patterns the admission filter of src/bot.js removes, and the
 * semantics of `text.replace(/pattern/g, "")` for each of them.
 *
 *   user mention   /<@!?\d+>/g
 *   custom emoji   /<:\w+:\d+>/g
 *   URL            /https?:\/\/\S+/g
 *
 * None of the three needs backtracking to find its match: each repetition stops at a
 * character its class cannot contain, so the scanner below reads the longest run and
 * checks the character after it. A global replace searches from the current position
 * for the leftmost match, removes it, and resumes after it; when nothing matches at a
 * position it keeps that character and moves one to the right.
 */
module Patterns {
  import opened Wrappers
  import opened Text

  datatype Pattern = MentionPattern | EmojiPattern | UrlPattern

  /** A piece of text one of the patterns matches, by its parts. */
  datatype Token =
    | Mention(bang: bool, id: string)        // <@id> or <@!id>
    | CustomEmoji(name: string, id: string)  // <:name:id>
    | Url(secure: bool, rest: string)        // http://rest or https://rest

  function PatternOf(t: Token): Pattern {
    match t
    case Mention(_, _) => MentionPattern
    case CustomEmoji(_, _) => EmojiPattern
    case Url(_, _) => UrlPattern
  }

  /** `\w` without the `u` flag: ASCII letters, digits and underscore. */
  predicate IsWordChar(c: char) {
    ('a' <= c <= 'z') || ('A' <= c <= 'Z') || ('0' <= c <= '9') || c == '_'
  }

  datatype CharClass = Digits | Word | NonSpace

  predicate InClass(cls: CharClass, c: char) {
    match cls
    case Digits => IsDigit(c)
    case Word => IsWordChar(c)
    case NonSpace => !IsSpace(c)
  }

  predicate AllIn(cls: CharClass, s: string) {
    forall i :: 0 <= i < |s| ==> InClass(cls, s[i])
  }

  /** The parts of a token are what the pattern's repetitions admit. */
  predicate WellFormed(t: Token) {
    match t
    case Mention(_, id) => |id| > 0 && AllIn(Digits, id)
    case CustomEmoji(name, id) => |name| > 0 && AllIn(Word, name) && |id| > 0 && AllIn(Digits, id)
    case Url(_, rest) => |rest| > 0 && AllIn(NonSpace, rest)
  }

  /** The text of a token. */
  function Render(t: Token): (s: string)
    ensures |s| >= 3
  {
    match t
    case Mention(bang, id) => "<@" + (if bang then "!" else "") + id + ">"
    case CustomEmoji(name, id) => "<:" + name + ":" + id + ">"
    case Url(secure, rest) => "http" + (if secure then "s" else "") + "://" + rest
  }

  /** Length of the longest prefix of `s` inside the class (a greedy `+` or `*`). */
  function Run(cls: CharClass, s: string): (n: nat)
    ensures n <= |s|
    ensures AllIn(cls, s[..n])
    ensures n == |s| || !InClass(cls, s[n])
  {
    if s == [] || !InClass(cls, s[0]) then 0
    else
      var n := 1 + Run(cls, s[1..]);
      assert forall i :: 1 <= i < n ==> s[..n][i] == s[1..][..n - 1][i - 1];
      n
  }

  function ScanMention(s: string): (m: Option<Token>)
    ensures m.Some? ==> m.value.Mention? && WellFormed(m.value) && Render(m.value) <= s
  {
    if |s| >= 2 && s[0] == '<' && s[1] == '@' then
      var k := if |s| >= 3 && s[2] == '!' then 3 else 2;
      var d := Run(Digits, s[k..]);
      if d > 0 && k + d < |s| && s[k + d] == '>' then
        var t := Mention(k == 3, s[k..k + d]);
        assert s[k..k + d] == s[k..][..d];
        assert s[..k + d + 1] == s[..k] + s[k..k + d] + ">";
        Some(t)
      else None
    else None
  }

  function ScanEmoji(s: string): (m: Option<Token>)
    ensures m.Some? ==> m.value.CustomEmoji? && WellFormed(m.value) && Render(m.value) <= s
  {
    if |s| >= 2 && s[0] == '<' && s[1] == ':' then
      var w := Run(Word, s[2..]);
      if w > 0 && 2 + w < |s| && s[2 + w] == ':' then
        var d := Run(Digits, s[3 + w..]);
        if d > 0 && 3 + w + d < |s| && s[3 + w + d] == '>' then
          var t := CustomEmoji(s[2..2 + w], s[3 + w..3 + w + d]);
          assert s[2..2 + w] == s[2..][..w];
          assert s[3 + w..3 + w + d] == s[3 + w..][..d];
          assert s[..4 + w + d] == s[..2] + s[2..2 + w] + [':'] + s[3 + w..3 + w + d] + ">";
          Some(t)
        else None
      else None
    else None
  }

  function ScanUrl(s: string): (m: Option<Token>)
    ensures m.Some? ==> m.value.Url? && WellFormed(m.value) && Render(m.value) <= s
    ensures m.Some? ==> |Render(m.value)| == |s| || IsSpace(s[|Render(m.value)|])
  {
    if |s| >= 4 && s[..4] == "http" then
      var k := if |s| >= 5 && s[4] == 's' then 5 else 4;
      if |s| >= k + 3 && s[k..k + 3] == "://" then
        var n := Run(NonSpace, s[k + 3..]);
        if n > 0 then
          var t := Url(k == 5, s[k + 3..k + 3 + n]);
          assert s[k + 3..k + 3 + n] == s[k + 3..][..n];
          assert s[..k + 3 + n] == s[..4] + s[4..k] + s[k..k + 3] + s[k + 3..k + 3 + n];
          assert k + 3 + n < |s| ==> s[k + 3 + n] == s[k + 3..][n];
          Some(t)
        else None
      else None
    else None
  }

  /** The match of pattern `p` that starts at the first character of `s`, if any: a
      well-formed token of that pattern whose text is a prefix of `s`, and for a URL the
      whole run of non-space characters. */
  function Scan(p: Pattern, s: string): (m: Option<Token>)
    ensures m.Some? ==> PatternOf(m.value) == p && WellFormed(m.value) && Render(m.value) <= s
    ensures m.Some? && p == UrlPattern ==>
      |Render(m.value)| == |s| || IsSpace(s[|Render(m.value)|])
  {
    match p
    case MentionPattern => ScanMention(s)
    case EmojiPattern => ScanEmoji(s)
    case UrlPattern => ScanUrl(s)
  }

  /** Every well-formed token is found where it starts, and found whole (a URL only
      when nothing but a space or the end of the text follows it). */
  lemma ScanRender(t: Token, rest: string)
    requires WellFormed(t)
    requires t.Url? ==> rest == [] || IsSpace(rest[0])
    ensures Scan(PatternOf(t), Render(t) + rest) == Some(t)
  {
    match t
    case Mention(bang, id) => ScanMentionRender(bang, id, rest);
    case CustomEmoji(name, id) => ScanEmojiRender(name, id, rest);
    case Url(secure, tail) => ScanUrlRender(secure, tail, rest);
  }

  lemma ScanMentionRender(bang: bool, id: string, rest: string)
    requires WellFormed(Mention(bang, id))
    ensures ScanMention(Render(Mention(bang, id)) + rest) == Some(Mention(bang, id))
  {
    var head := "<@" + (if bang then "!" else "");
    var s := head + (id + (">" + rest));
    assert Render(Mention(bang, id)) + rest == s;
    MentionLayout(bang, id, rest);
    ScanMentionParts(s, bang, id);
  }

  /** Where the parts of a mention sit in its text. */
  lemma MentionLayout(bang: bool, id: string, rest: string)
    requires |id| > 0 && AllIn(Digits, id)
    ensures var head := "<@" + (if bang then "!" else ""); var s := head + (id + (">" + rest));
      var k := |head|;
      && |s| > k + |id| && s[0] == '<' && s[1] == '@'
      && (|s| >= 3 && s[2] == '!' <==> bang)
      && Run(Digits, s[k..]) == |id| && s[k + |id|] == '>' && s[k..k + |id|] == id
  {
    var head := "<@" + (if bang then "!" else "");
    var s := head + (id + (">" + rest));
    RunAfter(head, id, ">" + rest, Digits);
    assert !bang ==> s[2] == id[0];
  }

  lemma ScanMentionParts(s: string, bang: bool, id: string)
    requires var k := if bang then 3 else 2;
      && |s| > k + |id| && s[0] == '<' && s[1] == '@'
      && (|s| >= 3 && s[2] == '!' <==> bang)
      && |id| > 0 && Run(Digits, s[k..]) == |id| && s[k + |id|] == '>' && s[k..k + |id|] == id
    ensures ScanMention(s) == Some(Mention(bang, id))
  {
  }

  lemma ScanEmojiRender(name: string, id: string, rest: string)
    requires WellFormed(CustomEmoji(name, id))
    ensures ScanEmoji(Render(CustomEmoji(name, id)) + rest) == Some(CustomEmoji(name, id))
  {
    var s := "<:" + (name + (":" + (id + (">" + rest))));
    assert Render(CustomEmoji(name, id)) + rest == s;
    EmojiLayout(name, id, rest);
    ScanEmojiParts(s, name, id);
  }

  /** Where the parts of a custom emoji sit in its text. */
  lemma EmojiLayout(name: string, id: string, rest: string)
    requires |name| > 0 && AllIn(Word, name) && |id| > 0 && AllIn(Digits, id)
    ensures var s := "<:" + (name + (":" + (id + (">" + rest))));
      && |s| > 3 + |name| + |id| && s[0] == '<' && s[1] == ':'
      && Run(Word, s[2..]) == |name| && s[2 + |name|] == ':'
      && Run(Digits, s[3 + |name|..]) == |id| && s[3 + |name| + |id|] == '>'
      && s[2..2 + |name|] == name && s[3 + |name|..3 + |name| + |id|] == id
  {
    var s := "<:" + (name + (":" + (id + (">" + rest))));
    RunAfter("<:", name, ":" + (id + (">" + rest)), Word);
    var h := "<:" + name + ":";
    assert s == h + (id + (">" + rest));
    RunAfter(h, id, ">" + rest, Digits);
  }

  /** The run of a class that fills `run`, read after `head`. */
  lemma RunAfter(head: string, run: string, rest: string, cls: CharClass)
    requires |run| > 0 && AllIn(cls, run)
    requires rest != [] && !InClass(cls, rest[0])
    ensures var s := head + (run + rest);
      && Run(cls, s[|head|..]) == |run| && s[|head| + |run|] == rest[0]
      && s[|head|..|head| + |run|] == run
  {
    var s := head + (run + rest);
    assert s[|head|..] == run + rest;
    RunStops(cls, run, rest);
    assert s[|head|..|head| + |run|] == run;
  }

  lemma ScanEmojiParts(s: string, name: string, id: string)
    requires |s| > 3 + |name| + |id| && s[0] == '<' && s[1] == ':'
    requires |name| > 0 && Run(Word, s[2..]) == |name| && s[2 + |name|] == ':'
    requires |id| > 0 && Run(Digits, s[3 + |name|..]) == |id| && s[3 + |name| + |id|] == '>'
    requires s[2..2 + |name|] == name && s[3 + |name|..3 + |name| + |id|] == id
    ensures ScanEmoji(s) == Some(CustomEmoji(name, id))
  {
  }

  lemma ScanUrlRender(secure: bool, tail: string, rest: string)
    requires WellFormed(Url(secure, tail))
    requires rest == [] || IsSpace(rest[0])
    ensures ScanUrl(Render(Url(secure, tail)) + rest) == Some(Url(secure, tail))
  {
    var s := Render(Url(secure, tail)) + rest;
    var k := if secure then 5 else 4;
    assert s[..4] == "http";
    assert s[k..k + 3] == "://";
    assert s[k + 3..] == tail + rest;
    RunStops(NonSpace, tail, rest);
    assert s[k + 3..k + 3 + |tail|] == tail;
  }

  lemma {:induction false} RunStops(cls: CharClass, run: string, rest: string)
    requires AllIn(cls, run)
    requires rest == [] || !InClass(cls, rest[0])
    ensures Run(cls, run + rest) == |run|
  {
    if run != [] {
      assert (run + rest)[1..] == run[1..] + rest;
      RunStops(cls, run[1..], rest);
    } else {
      assert run + rest == rest;
    }
  }

  /** `s.replace(/p/g, "")`: the text with every match the left-to-right scan finds
      removed. It never makes the text longer. */
  function Strip(p: Pattern, s: string): (r: string)
    ensures |r| <= |s|
    decreases |s|
  {
    if s == [] then []
    else
      match Scan(p, s)
      case Some(t) => Strip(p, s[|Render(t)|..])
      case None => [s[0]] + Strip(p, s[1..])
  }

  /** The three passes, in the order the bot chains them. */
  function StripNoise(s: string): (r: string)
    ensures |r| <= |s|
  {
    Strip(UrlPattern, Strip(EmojiPattern, Strip(MentionPattern, s)))
  }

  /** No match of `p` starts anywhere in `t`, even with `rest` after it. */
  predicate Inert(p: Pattern, t: string, rest: string)
    decreases |t|
  {
    t == [] || (Scan(p, t + rest).None? && Inert(p, t[1..], rest))
  }

  /** Text in which no match starts passes through the scan unchanged. */
  lemma {:induction false} StripInert(p: Pattern, t: string, rest: string)
    requires Inert(p, t, rest)
    ensures Strip(p, t + rest) == t + Strip(p, rest)
    decreases |t|
  {
    if t != [] {
      InertHead(p, t, rest);
      StripInert(p, t[1..], rest);
      ConsConcat(t, Strip(p, rest));
    } else {
      assert t + rest == rest;
    }
  }

  lemma ConsConcat(t: string, x: string)
    requires t != []
    ensures [t[0]] + (t[1..] + x) == t + x
  {
    assert [t[0]] + t[1..] == t;
  }

  lemma InertHead(p: Pattern, t: string, rest: string)
    requires t != [] && Inert(p, t, rest)
    ensures Strip(p, t + rest) == [t[0]] + Strip(p, t[1..] + rest)
  {
    var s := t + rest;
    assert s[1..] == t[1..] + rest;
    StripKeep(p, s);
  }

  /** Where no match starts, the scan keeps the first character. */
  lemma StripKeep(p: Pattern, s: string)
    requires s != [] && Scan(p, s).None?
    ensures Strip(p, s) == [s[0]] + Strip(p, s[1..])
  {
  }

  /** The scan leaves a text unchanged exactly when no match starts anywhere in it. */
  lemma StripUnchanged(p: Pattern, s: string)
    ensures Strip(p, s) == s <==> Inert(p, s, [])
  {
    if Inert(p, s, []) {
      StripInert(p, s, []);
      assert s + [] == s;
    } else {
      StripShrinks(p, s);
    }
  }

  /** A match anywhere makes the scan remove something. */
  lemma {:induction false} StripShrinks(p: Pattern, s: string)
    requires !Inert(p, s, [])
    ensures |Strip(p, s)| < |s|
    decreases |s|
  {
    assert s + [] == s;
    if Scan(p, s).None? {
      StripShrinks(p, s[1..]);
    }
  }

  /** A mention and a custom emoji both start with `<`, a URL with "http". */
  lemma ScanNeedsOpening(p: Pattern, s: string)
    ensures Scan(p, s).Some? && p != UrlPattern ==> |s| >= 2 && s[0] == '<'
    ensures Scan(p, s).Some? && p == MentionPattern ==> s[1] == '@'
    ensures Scan(p, s).Some? && p == EmojiPattern ==> s[1] == ':'
    ensures Scan(p, s).Some? && p == UrlPattern ==> StartsHttp(s)
  {
    if Scan(p, s).Some? {
      var t := Scan(p, s).value;
      assert s[..|Render(t)|] == Render(t);
      assert s[0] == Render(t)[0];
      assert s[1] == Render(t)[1];
      assert p == UrlPattern ==> s[..4] == Render(t)[..4];
    }
  }

  predicate StartsHttp(s: string) {
    |s| >= 4 && s[..4] == "http"
  }

  /** Whether "http" occurs in `s`. */
  predicate HasHttp(s: string) {
    exists i :: 0 <= i < |s| && StartsHttp(s[i..])
  }

  /** Text with no `<` and no "http" comes through the three passes unchanged. */
  lemma PlainTextUnchanged(s: string)
    requires '<' !in s && !HasHttp(s)
    ensures StripNoise(s) == s
  {
    PlainInert(MentionPattern, s);
    PlainInert(EmojiPattern, s);
    PlainInert(UrlPattern, s);
    StripInert(MentionPattern, s, []);
    StripInert(EmojiPattern, s, []);
    StripInert(UrlPattern, s, []);
    assert s + [] == s;
  }

  lemma {:induction false} PlainInert(p: Pattern, s: string)
    requires '<' !in s && !HasHttp(s)
    ensures Inert(p, s, [])
    decreases |s|
  {
    if s != [] {
      assert s + [] == s;
      assert !StartsHttp(s[0..]);
      assert s[0..] == s;
      ScanNeedsOpening(p, s);
      forall j | 0 <= j < |s| - 1 ensures !StartsHttp(s[1..][j..]) {
        assert s[1..][j..] == s[j + 1..];
      }
      PlainInert(p, s[1..]);
    }
  }

  /** The first character every match of `p` starts with. */
  function Opening(p: Pattern): char {
    if p == UrlPattern then 'h' else '<'
  }

  /** Text without the opening character of `p` holds no match of `p`. */
  lemma {:induction false} InertWithout(p: Pattern, s: string, rest: string)
    requires Opening(p) !in s
    ensures Inert(p, s, rest)
    decreases |s|
  {
    if s != [] {
      var x := s + rest;
      ScanNeedsOpening(p, x);
      assert x[0] == s[0];
      assert StartsHttp(x) ==> x[..4][0] == x[0];
      assert s[1..] + rest == x[1..];
      InertWithout(p, s[1..], rest);
    }
  }

  /** Where `p` matches, the scan drops the match and goes on after it. */
  lemma StripMatch(p: Pattern, t: Token, rest: string)
    requires Scan(p, Render(t) + rest) == Some(t)
    ensures Strip(p, Render(t) + rest) == Strip(p, rest)
  {
    var s := Render(t) + rest;
    assert s[|Render(t)|..] == rest;
  }

  /** A token of one pattern holds no match of another: a mention or an emoji opens with
      a `<` that the other one does not accept, and a URL without `<` holds none. */
  lemma InertToken(p: Pattern, t: Token, rest: string)
    requires WellFormed(t) && PatternOf(t) != p && p != UrlPattern
    requires t.Url? ==> '<' !in t.rest
    ensures Inert(p, Render(t), rest)
  {
    match t
    case Mention(bang, id) => InertMention(bang, id, rest);
    case CustomEmoji(name, id) => InertEmoji(name, id, rest);
    case Url(secure, tail) => InertUrl(p, secure, tail, rest);
  }

  lemma InertMention(bang: bool, id: string, rest: string)
    requires WellFormed(Mention(bang, id))
    ensures Inert(EmojiPattern, Render(Mention(bang, id)), rest)
  {
    var r := Render(Mention(bang, id));
    var after := (if bang then "!" else "") + (id + ">");
    assert forall i :: 0 <= i < |id| ==> id[i] != '<';
    assert '<' !in after;
    assert r == "<" + ("@" + after);
    OpenerThen(EmojiPattern, '@', "@" + after, rest);
  }

  lemma InertEmoji(name: string, id: string, rest: string)
    requires WellFormed(CustomEmoji(name, id))
    ensures Inert(MentionPattern, Render(CustomEmoji(name, id)), rest)
  {
    var r := Render(CustomEmoji(name, id));
    var after := name + (":" + (id + ">"));
    assert forall i :: 0 <= i < |name| ==> name[i] != '<';
    assert forall i :: 0 <= i < |id| ==> id[i] != '<';
    assert '<' !in after;
    assert r == "<" + (":" + after);
    OpenerThen(MentionPattern, ':', ":" + after, rest);
  }

  lemma InertUrl(p: Pattern, secure: bool, tail: string, rest: string)
    requires p != UrlPattern && '<' !in tail
    ensures Inert(p, Render(Url(secure, tail)), rest)
  {
    var r := Render(Url(secure, tail));
    assert r == ("http" + (if secure then "s" else "") + "://") + tail;
    InertWithout(p, r, rest);
  }

  /** A `<` followed by the wrong second character, then text free of `<`. */
  lemma OpenerThen(p: Pattern, second: char, after: string, rest: string)
    requires p != UrlPattern && after != [] && after[0] == second && '<' !in after
    requires p == MentionPattern ==> second != '@'
    requires p == EmojiPattern ==> second != ':'
    ensures Inert(p, "<" + after, rest)
  {
    var t := "<" + after;
    var x := t + rest;
    ScanNeedsOpening(p, x);
    assert x[1] == second;
    assert t[1..] == after;
    InertWithout(p, after, rest);
  }

  /** A token, or nothing, with the whitespace after it. */
  datatype Piece = Piece(token: Option<Token>, gap: string)

  /** The text of a piece's token, if it has one. */
  function TokenText(h: Piece): string {
    if h.token.Some? then Render(h.token.value) else ""
  }

  /** The text of a sequence of pieces. */
  function Spell(ps: seq<Piece>): string {
    if ps == [] then "" else TokenText(ps[0]) + (ps[0].gap + Spell(ps[1..]))
  }

  /** A piece is well formed: its gap is whitespace, its token well formed, and a URL
      token is free of `<` and followed by whitespace unless it ends the text. */
  ghost predicate GoodPiece(h: Piece, last: bool) {
    && AllSpace(h.gap)
    && (h.token.Some? ==> WellFormed(h.token.value))
    && (h.token.Some? && h.token.value.Url? ==> '<' !in h.token.value.rest && (h.gap != [] || last))
  }

  /** Tokens well formed and separated by whitespace, every URL followed by whitespace or
      the end of the text and free of `<`. */
  ghost predicate Separated(ps: seq<Piece>) {
    forall i :: 0 <= i < |ps| ==> GoodPiece(ps[i], i == |ps| - 1)
  }

  /** The piece with its token taken out when it is of pattern `p`. */
  function DropPiece(p: Pattern, h: Piece): (q: Piece)
    ensures q.gap == h.gap
  {
    if h.token.Some? && PatternOf(h.token.value) == p then Piece(None, h.gap) else h
  }

  /** The pieces with the tokens of pattern `p` taken out and their gaps kept. */
  function Drop(p: Pattern, ps: seq<Piece>): (qs: seq<Piece>)
    ensures |qs| == |ps|
    ensures forall i :: 0 <= i < |ps| ==> qs[i] == DropPiece(p, ps[i])
  {
    if ps == [] then [] else [DropPiece(p, ps[0])] + Drop(p, ps[1..])
  }

  /** A space is no opening character. */
  lemma GapInert(p: Pattern, gap: string, rest: string)
    requires AllSpace(gap)
    ensures Strip(p, gap + rest) == gap + Strip(p, rest)
  {
    assert forall i :: 0 <= i < |gap| ==> gap[i] != Opening(p);
    InertWithout(p, gap, rest);
    StripInert(p, gap, rest);
  }

  /** A token of pattern `p` goes, and the scan goes on after it. */
  lemma StripOwnToken(p: Pattern, t: Token, gap: string, rest: string)
    requires WellFormed(t) && PatternOf(t) == p && AllSpace(gap)
    requires t.Url? ==> gap + rest == [] || IsSpace((gap + rest)[0])
    ensures Strip(p, Render(t) + (gap + rest)) == gap + Strip(p, rest)
  {
    ScanRender(t, gap + rest);
    StripMatch(p, t, gap + rest);
    GapInert(p, gap, rest);
  }

  /** A token of another pattern stays. */
  lemma StripOtherToken(p: Pattern, t: Token, gap: string, rest: string)
    requires WellFormed(t) && PatternOf(t) != p && p != UrlPattern && AllSpace(gap)
    requires t.Url? ==> '<' !in t.rest
    ensures Strip(p, Render(t) + (gap + rest)) == Render(t) + (gap + Strip(p, rest))
  {
    InertToken(p, t, gap + rest);
    StripInert(p, Render(t), gap + rest);
    GapInert(p, gap, rest);
  }

  /** One step of the scan over a piece: its token goes when it is of pattern `p` and
      stays otherwise, and its gap stays. */
  lemma StripPiece(p: Pattern, h: Piece, rest: string, last: bool)
    requires GoodPiece(h, last) && (last ==> rest == [])
    requires p == UrlPattern && h.token.Some? ==> h.token.value.Url?
    ensures Strip(p, TokenText(h) + (h.gap + rest)) == TokenText(DropPiece(p, h)) + (h.gap + Strip(p, rest))
  {
    if h.token.None? {
      GapInert(p, h.gap, rest);
      assert TokenText(h) == [] && DropPiece(p, h) == h;
      assert [] + (h.gap + rest) == h.gap + rest;
    } else if PatternOf(h.token.value) == p {
      StripOwnToken(p, h.token.value, h.gap, rest);
    } else {
      StripOtherToken(p, h.token.value, h.gap, rest);
    }
  }

  /** The scan for `p` over separated pieces removes exactly the tokens of `p`, when the
      other tokens cannot hold a match of `p` (no token but URLs is left for the URL
      pass). */
  lemma {:induction false} StripPieces(p: Pattern, ps: seq<Piece>)
    requires Separated(ps)
    requires p == UrlPattern ==> forall i :: 0 <= i < |ps| && ps[i].token.Some? ==> ps[i].token.value.Url?
    ensures Strip(p, Spell(ps)) == Spell(Drop(p, ps))
  {
    if ps != [] {
      var tail := ps[1..];
      assert Separated(tail) by {
        forall i | 0 <= i < |tail| ensures GoodPiece(tail[i], i == |tail| - 1) {
          assert tail[i] == ps[i + 1];
        }
      }
      StripPieces(p, tail);
      assert Drop(p, ps)[1..] == Drop(p, tail);
      assert GoodPiece(ps[0], |ps| == 1);
      StripPiece(p, ps[0], Spell(tail), |ps| == 1);
    }
  }

  /** Dropping tokens keeps the pieces separated. */
  lemma DropSeparated(p: Pattern, ps: seq<Piece>)
    requires Separated(ps)
    ensures Separated(Drop(p, ps))
  {
    var qs := Drop(p, ps);
    forall i | 0 <= i < |qs| ensures GoodPiece(qs[i], i == |qs| - 1) {
      assert GoodPiece(ps[i], i == |ps| - 1);
    }
  }

  /** Pieces without tokens spell whitespace only. */
  lemma {:induction false} SpellGaps(ps: seq<Piece>)
    requires Separated(ps)
    requires forall i :: 0 <= i < |ps| ==> ps[i].token.None?
    ensures AllSpace(Spell(ps))
  {
    if ps != [] {
      var tail := ps[1..];
      assert Separated(tail) by {
        forall i | 0 <= i < |tail| ensures GoodPiece(tail[i], i == |tail| - 1) {
          assert tail[i] == ps[i + 1];
        }
      }
      SpellGaps(tail);
      assert GoodPiece(ps[0], |ps| == 1);
      assert Spell(ps) == ps[0].gap + Spell(tail);
    }
  }

  /** After the mention and emoji passes only URL tokens are left. */
  lemma OnlyUrlsLeft(ps: seq<Piece>)
    ensures var qs := Drop(EmojiPattern, Drop(MentionPattern, ps));
      forall i :: 0 <= i < |qs| && qs[i].token.Some? ==> qs[i].token.value.Url?
  {
    var qs := Drop(EmojiPattern, Drop(MentionPattern, ps));
    forall i | 0 <= i < |qs| && qs[i].token.Some? ensures qs[i].token.value.Url? {
      var t := qs[i].token.value;
      assert PatternOf(t) != MentionPattern && PatternOf(t) != EmojiPattern;
    }
  }

  /** Text made only of mentions, custom emojis and URLs separated by whitespace (a URL
      free of `<`) is whitespace once the three passes have run: the three passes take out
      the mentions, then the emojis, then the URLs, and keep every gap. */
  lemma NoiseOnly(ps: seq<Piece>)
    requires Separated(ps)
    ensures StripNoise(Spell(ps)) == Spell(Drop(UrlPattern, Drop(EmojiPattern, Drop(MentionPattern, ps))))
    ensures AllSpace(StripNoise(Spell(ps)))
  {
    var ps1 := Drop(MentionPattern, ps);
    var ps2 := Drop(EmojiPattern, ps1);
    Pass(MentionPattern, ps);
    Pass(EmojiPattern, ps1);
    OnlyUrlsLeft(ps);
    Pass(UrlPattern, ps2);
    NoTokensLeft(ps2);
  }

  /** One pass over separated pieces. */
  lemma Pass(p: Pattern, ps: seq<Piece>)
    requires Separated(ps)
    requires p == UrlPattern ==> forall i :: 0 <= i < |ps| && ps[i].token.Some? ==> ps[i].token.value.Url?
    ensures Strip(p, Spell(ps)) == Spell(Drop(p, ps))
    ensures Separated(Drop(p, ps))
  {
    StripPieces(p, ps);
    DropSeparated(p, ps);
  }

  /** Once the URL pass has run on pieces holding only URLs, only gaps are left. */
  lemma NoTokensLeft(ps: seq<Piece>)
    requires Separated(Drop(UrlPattern, ps))
    requires forall i :: 0 <= i < |ps| && ps[i].token.Some? ==> ps[i].token.value.Url?
    ensures AllSpace(Spell(Drop(UrlPattern, ps)))
  {
    UrlsDropped(ps);
    SpellGaps(Drop(UrlPattern, ps));
  }

  /** The URL pass leaves no token in pieces that held URLs or nothing. */
  lemma UrlsDropped(ps: seq<Piece>)
    requires forall i :: 0 <= i < |ps| && ps[i].token.Some? ==> ps[i].token.value.Url?
    ensures forall i :: 0 <= i < |ps| ==> Drop(UrlPattern, ps)[i].token.None?
  {
    var qs := Drop(UrlPattern, ps);
    forall i | 0 <= i < |qs| ensures qs[i].token.None? {
      assert qs[i] == DropPiece(UrlPattern, ps[i]);
    }
  }

  /** Text free of `<` followed by a mention: the mention pass drops the mention. */
  lemma StripTrailingMention(head: string, t: Token)
    requires '<' !in head && t.Mention? && WellFormed(t)
    ensures Strip(MentionPattern, head + Render(t)) == head
  {
    InertWithout(MentionPattern, head, Render(t));
    StripInert(MentionPattern, head, Render(t));
    MentionAlone(t);
    assert head + [] == head;
  }

  /** A mention alone is stripped to nothing. */
  lemma MentionAlone(t: Token)
    requires t.Mention? && WellFormed(t)
    ensures Strip(MentionPattern, Render(t)) == []
  {
    ScanRender(t, "");
    assert Render(t) + "" == Render(t);
    StripMatch(MentionPattern, t, "");
  }

  /** Text free of `<` passes the emoji pass unchanged. */
  lemma EmojiFree(s: string)
    requires '<' !in s
    ensures Strip(EmojiPattern, s) == s
  {
    InertWithout(EmojiPattern, s, "");
    StripInert(EmojiPattern, s, "");
    assert s + "" == s;
  }

  /** "http://" or "https://". */
  function Scheme(secure: bool): string {
    "http" + (if secure then "s" else "") + "://"
  }

  /** A scheme with nothing after it is no URL. */
  lemma UrlSchemeAlone(secure: bool)
    ensures Strip(UrlPattern, Scheme(secure)) == Scheme(secure)
  {
    var s := Scheme(secure);
    var k := if secure then 5 else 4;
    assert s[..4] == "http" && (|s| >= 5 && s[4] == 's' <==> secure);
    assert |s| == k + 3 && s[k..k + 3] == "://";
    assert Run(NonSpace, s[k + 3..]) == 0;
    StripKeep(UrlPattern, s);
    assert s[1..] == "ttp" + (if secure then "s" else "") + "://";
    InertWithout(UrlPattern, s[1..], "");
    StripInert(UrlPattern, s[1..], "");
    assert s[1..] + "" == s[1..];
    assert [s[0]] + s[1..] == s;
  }

  /** The passes are not independent: in a scheme followed by a mention, such as
      "https://<@1>", the mention pass removes the mention first, which leaves the bare
      scheme with nothing after it for the URL pass to match. */
  lemma MentionInsideUrl(secure: bool, t: Token)
    requires t.Mention? && WellFormed(t)
    ensures StripNoise(Scheme(secure) + Render(t)) == Scheme(secure)
  {
    StripTrailingMention(Scheme(secure), t);
    EmojiFree(Scheme(secure));
    UrlSchemeAlone(secure);
  }

  /** One pass is not idempotent: in "<@" + a mention + digits + ">", such as
      "<@<@1>1>", removing the inner mention joins the outer one's halves into a new
      mention, which only a second pass removes. */
  lemma NestedMention(t: Token, id: string)
    requires t.Mention? && WellFormed(t) && |id| > 0 && AllIn(Digits, id)
    ensures Strip(MentionPattern, "<@" + (Render(t) + (id + ">"))) == Render(Mention(false, id))
    ensures Strip(MentionPattern, Render(Mention(false, id))) == []
  {
    var tail := id + ">";
    MentionClose(id);
    MentionOpens(t);
    OpenerKept(Render(t) + tail);
    StripMiddleMention(t, tail);
    MentionAlone(Mention(false, id));
  }

  lemma MentionClose(id: string)
    requires AllIn(Digits, id)
    ensures '<' !in id + ">"
    ensures Render(Mention(false, id)) == "<@" + (id + ">")
  {
    assert forall i :: 0 <= i < |id| ==> id[i] != '<';
  }

  lemma MentionOpens(t: Token)
    requires t.Mention?
    ensures Render(t) != [] && Render(t)[0] == '<'
  {
  }

  /** An opener "<@" followed by another `<` is no mention; the scan keeps both characters. */
  lemma OpenerKept(rest: string)
    requires rest != [] && rest[0] == '<'
    ensures Strip(MentionPattern, "<@" + rest) == "<@" + Strip(MentionPattern, rest)
  {
    var s := "<@" + rest;
    assert s[2] == '<' && s[2..] == rest;
    assert Run(Digits, rest) == 0;
    assert Scan(MentionPattern, s).None?;
    StripKeep(MentionPattern, s);
    ScanNeedsOpening(MentionPattern, s[1..]);
    assert s[1..][0] == '@';
    StripKeep(MentionPattern, s[1..]);
    assert s[1..][1..] == rest;
    assert [s[0]] + ([s[1..][0]] + Strip(MentionPattern, rest)) == "<@" + Strip(MentionPattern, rest);
  }

  /** A mention followed by text free of `<`: the mention goes, the text stays. */
  lemma StripMiddleMention(t: Token, tail: string)
    requires t.Mention? && WellFormed(t) && '<' !in tail
    ensures Strip(MentionPattern, Render(t) + tail) == tail
  {
    ScanRender(t, tail);
    StripMatch(MentionPattern, t, tail);
    InertWithout(MentionPattern, tail, "");
    StripInert(MentionPattern, tail, "");
    assert tail + "" == tail;
  }
}
