/**
 * The JavaScript string built-ins the bot relies on: `trim`, `split`, `join`, `repeat`
 * and the decimal rendering of a non-negative integer.
 */
module Text {

  /** The characters `String.prototype.trim` removes; the regular-expression class `\s`
      matches exactly the same set. */
  predicate IsSpace(c: char) {
    c == ' ' || c == '\t' || c == '\n' || c == '\r' || c == '\U{000B}' || c == '\U{000C}'
    || c == '\U{00A0}' || c == '\U{1680}' || ('\U{2000}' <= c <= '\U{200A}')
    || c == '\U{2028}' || c == '\U{2029}' || c == '\U{202F}' || c == '\U{205F}'
    || c == '\U{3000}' || c == '\U{FEFF}'
  }

  predicate AllSpace(s: string) {
    forall i :: 0 <= i < |s| ==> IsSpace(s[i])
  }

  /** Neither end of `s` is a space character. */
  predicate Tight(s: string) {
    s == [] || (!IsSpace(s[0]) && !IsSpace(s[|s| - 1]))
  }

  function TrimStart(s: string): (r: string)
    ensures |r| <= |s|
    ensures r == s[|s| - |r|..]
    ensures AllSpace(s[..|s| - |r|])
    ensures r == [] || !IsSpace(r[0])
  {
    if s != [] && IsSpace(s[0]) then
      var r := TrimStart(s[1..]);
      assert s[1..][|s| - 1 - |r|..] == s[|s| - |r|..];
      assert forall i :: 1 <= i < |s| - |r| ==> s[i] == s[1..][..|s| - 1 - |r|][i - 1];
      r
    else s
  }

  function TrimEnd(s: string): (r: string)
    ensures |r| <= |s|
    ensures r == s[..|r|]
    ensures AllSpace(s[|r|..])
    ensures r == [] || !IsSpace(r[|r| - 1])
  {
    if s != [] && IsSpace(s[|s| - 1]) then
      var r := TrimEnd(s[..|s| - 1]);
      assert s[..|s| - 1][..|r|] == s[..|r|];
      assert forall i :: |r| <= i < |s| - 1 ==> s[i] == s[..|s| - 1][|r|..][i - |r|];
      r
    else s
  }

  /** `s.trim()`: the longest slice of `s` whose two ends are not spaces, once the
      spaces around it are dropped. */
  function Trim(s: string): (r: string)
    ensures Tight(r)
    ensures |r| <= |s|
    ensures forall i :: 0 <= i < |r| ==> r[i] in s
  {
    TrimBoth(s);
    TrimEnd(TrimStart(s))
  }

  lemma TrimBoth(s: string)
    ensures var r := TrimEnd(TrimStart(s));
      Tight(r) && |r| <= |s| && forall i :: 0 <= i < |r| ==> r[i] in s
  {
    var t := TrimStart(s);
    var r := TrimEnd(t);
    assert r == s[|s| - |t|..|s| - |t| + |r|];
    SliceIn(s, |s| - |t|, |s| - |t| + |r|);
    assert r != [] ==> r[0] == t[0];
  }

  lemma SliceIn(s: string, lo: nat, hi: nat)
    requires lo <= hi <= |s|
    ensures forall i :: 0 <= i < hi - lo ==> s[lo..hi][i] in s
  {
    forall i | 0 <= i < hi - lo ensures s[lo..hi][i] in s {
      assert s[lo..hi][i] == s[lo + i];
    }
  }

  lemma {:induction false} TrimStartSpaces(lead: string, rest: string)
    requires AllSpace(lead) && (rest == [] || !IsSpace(rest[0]))
    ensures TrimStart(lead + rest) == rest
  {
    if lead != [] {
      assert (lead + rest)[1..] == lead[1..] + rest;
      TrimStartSpaces(lead[1..], rest);
    }
  }

  lemma {:induction false} TrimEndSpaces(rest: string, trail: string)
    requires AllSpace(trail) && (rest == [] || !IsSpace(rest[|rest| - 1]))
    ensures TrimEnd(rest + trail) == rest
  {
    if trail != [] {
      var s := rest + trail;
      assert s[|s| - 1] == trail[|trail| - 1];
      assert s[..|s| - 1] == rest + trail[..|trail| - 1];
      TrimEndSpaces(rest, trail[..|trail| - 1]);
    }
  }

  /** Trimming undoes exactly the spaces around a tight string. */
  lemma {:induction false} TrimExact(lead: string, body: string, trail: string)
    requires AllSpace(lead) && AllSpace(trail) && Tight(body)
    ensures Trim(lead + body + trail) == body
  {
    if body == [] {
      assert lead + body + trail == (lead + trail) + [];
      TrimStartSpaces(lead + trail, []);
    } else {
      assert lead + body + trail == lead + (body + trail);
      TrimStartSpaces(lead, body + trail);
      TrimEndSpaces(body, trail);
    }
  }

  /** Trimming a tight string changes nothing. */
  lemma TrimTight(s: string)
    requires Tight(s)
    ensures Trim(s) == s
  {
    TrimExact("", s, "");
    assert "" + s + "" == s;
  }

  /** Trimming whitespace leaves nothing. */
  lemma TrimAllSpace(s: string)
    requires AllSpace(s)
    ensures Trim(s) == ""
  {
    TrimExact(s, "", "");
    assert s + "" + "" == s;
  }

  /** `s.length`: the number of UTF-16 code units, two for a character beyond the Basic
      Multilingual Plane (an emoji, say) and one for any other. */
  function Utf16Length(s: string): (n: nat)
    ensures |s| <= n <= 2 * |s|
  {
    if s == [] then 0 else CodeUnits(s[0]) + Utf16Length(s[1..])
  }

  function CodeUnits(c: char): (n: nat)
    ensures n == 1 || n == 2
  {
    if c as int > 0xFFFF then 2 else 1
  }

  /** The length of a concatenation is the sum of the lengths. */
  lemma {:induction false} Utf16LengthAppend(a: string, b: string)
    ensures Utf16Length(a + b) == Utf16Length(a) + Utf16Length(b)
  {
    if a != [] {
      assert (a + b)[0] == a[0];
      assert (a + b)[1..] == a[1..] + b;
      Utf16LengthAppend(a[1..], b);
    } else {
      assert a + b == b;
    }
  }

  /** Text within the Basic Multilingual Plane has one code unit per character. */
  lemma {:induction false} Utf16LengthBmp(s: string)
    requires forall i :: 0 <= i < |s| ==> s[i] as int <= 0xFFFF
    ensures Utf16Length(s) == |s|
  {
    if s != [] {
      Utf16LengthBmp(s[1..]);
    }
  }

  /** Number of occurrences of `c` in `s`. */
  function Occurrences(s: string, c: char): (n: nat)
    ensures n <= |s|
    ensures n == 0 <==> c !in s
  {
    if s == [] then 0 else (if s[0] == c then 1 else 0) + Occurrences(s[1..], c)
  }

  lemma {:induction false} OccurrencesAppend(a: string, b: string, c: char)
    ensures Occurrences(a + b, c) == Occurrences(a, c) + Occurrences(b, c)
  {
    if a != [] {
      assert (a + b)[0] == a[0];
      assert (a + b)[1..] == a[1..] + b;
      OccurrencesAppend(a[1..], b, c);
    } else {
      assert a + b == b;
    }
  }

  /** `s.split(sep)` for a one-character separator: there is always at least one field,
      and no field contains the separator. */
  function Split(s: string, sep: char): (fields: seq<string>)
    ensures |fields| == Occurrences(s, sep) + 1
    ensures forall i :: 0 <= i < |fields| ==> sep !in fields[i]
  {
    if s == [] then [""]
    else
      var rest := Split(s[1..], sep);
      if s[0] == sep then [""] + rest
      else [[s[0]] + rest[0]] + rest[1..]
  }

  /** `fields.join(sep)`. */
  function Join(fields: seq<string>, sep: char): string
  {
    if |fields| == 0 then ""
    else if |fields| == 1 then fields[0]
    else fields[0] + [sep] + Join(fields[1..], sep)
  }

  /** Joining the fields back with the separator gives the original string. */
  lemma {:induction false} JoinSplit(s: string, sep: char)
    ensures Join(Split(s, sep), sep) == s
  {
    if s != [] {
      var rest := Split(s[1..], sep);
      JoinSplit(s[1..], sep);
      if s[0] != sep {
        var f := Split(s, sep);
        assert f == [[s[0]] + rest[0]] + rest[1..];
        if |rest| == 1 {
          assert Join(f, sep) == [s[0]] + rest[0] == [s[0]] + Join(rest, sep);
        } else {
          assert Join(rest, sep) == rest[0] + [sep] + Join(rest[1..], sep);
          assert f[1..] == rest[1..];
          assert Join(f, sep) == ([s[0]] + rest[0]) + [sep] + Join(rest[1..], sep);
        }
      } else {
        var f := Split(s, sep);
        assert f[1..] == rest;
        assert Join(f, sep) == "" + [sep] + Join(rest, sep);
      }
    }
  }

  /** Splitting a join of separator-free fields gives the fields back. */
  lemma {:induction false} SplitJoin(fields: seq<string>, sep: char)
    requires |fields| >= 1
    requires forall i :: 0 <= i < |fields| ==> sep !in fields[i]
    ensures Split(Join(fields, sep), sep) == fields
  {
    if |fields| == 1 {
      SplitFieldOnly(fields[0], sep);
    } else {
      SplitJoin(fields[1..], sep);
      SplitFieldThen(fields[0], Join(fields[1..], sep), sep);
      assert [fields[0]] + fields[1..] == fields;
    }
  }

  lemma {:induction false} SplitFieldOnly(f: string, sep: char)
    requires sep !in f
    ensures Split(f, sep) == [f]
  {
    if f != [] {
      SplitFieldOnly(f[1..], sep);
      assert [f[0]] + f[1..] == f;
    }
  }

  lemma {:induction false} SplitFieldThen(f: string, rest: string, sep: char)
    requires sep !in f
    ensures Split(f + [sep] + rest, sep) == [f] + Split(rest, sep)
  {
    var s := f + [sep] + rest;
    if f == [] {
      assert s[1..] == rest;
    } else {
      assert s[1..] == f[1..] + [sep] + rest;
      SplitFieldThen(f[1..], rest, sep);
      assert [f[0]] + f[1..] == f;
    }
  }

  /** Three separator-free fields joined by the separator split back into them. */
  lemma SplitThree(a: string, b: string, c: string, sep: char)
    requires sep !in a && sep !in b && sep !in c
    ensures Split(a + [sep] + b + [sep] + c, sep) == [a, b, c]
  {
    var bc := b + [sep] + c;
    SplitFieldOnly(c, sep);
    SplitFieldThen(b, c, sep);
    assert Split(bc, sep) == [b, c];
    SplitFieldThen(a, bc, sep);
    assert a + [sep] + b + [sep] + c == a + [sep] + bc;
  }

  /** `c.repeat(n)`. */
  function Repeat(c: char, n: nat): (r: string)
    ensures |r| == n
    ensures forall i :: 0 <= i < n ==> r[i] == c
  {
    if n == 0 then "" else [c] + Repeat(c, n - 1)
  }

  lemma {:induction false} OccurrencesRepeat(c: char, n: nat, d: char)
    ensures Occurrences(Repeat(c, n), d) == if c == d then n else 0
  {
    if n > 0 {
      assert Repeat(c, n)[1..] == Repeat(c, n - 1);
      OccurrencesRepeat(c, n - 1, d);
    }
  }

  predicate IsDigit(c: char) {
    '0' <= c <= '9'
  }

  function DigitChar(d: nat): (c: char)
    requires d < 10
    ensures IsDigit(c)
  {
    ['0', '1', '2', '3', '4', '5', '6', '7', '8', '9'][d]
  }

  function DigitValue(c: char): (d: nat)
    requires IsDigit(c)
    ensures d < 10 && DigitChar(d) == c
  {
    (c as int - '0' as int) as nat
  }

  /** The decimal numeral of a whole number, as template literals print it. */
  function NatToString(n: nat): (r: string)
    ensures |r| >= 1
    ensures forall i :: 0 <= i < |r| ==> IsDigit(r[i])
    ensures |r| > 1 ==> r[0] != '0'
  {
    if n < 10 then [DigitChar(n)] else NatToString(n / 10) + [DigitChar(n % 10)]
  }

  /** The value of a string of decimal digits. */
  function NumeralValue(s: string): nat
    requires forall i :: 0 <= i < |s| ==> IsDigit(s[i])
  {
    if s == [] then 0 else 10 * NumeralValue(s[..|s| - 1]) + DigitValue(s[|s| - 1])
  }

  /** Reading the numeral back gives the number. */
  lemma {:induction false} NatToStringValue(n: nat)
    ensures NumeralValue(NatToString(n)) == n
  {
    var r := NatToString(n);
    if n >= 10 {
      NatToStringValue(n / 10);
      assert r[..|r| - 1] == NatToString(n / 10);
    }
  }
}
