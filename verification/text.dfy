/** The handful of Python `str` operations the backend relies on, over
    `string` (a sequence of Unicode scalar values, as Python's `str` is).

    `IsSpace`, `LowerChar` and `UpperChar` cover the ASCII range only: Python's
    `str.strip()` and `str.lower()` also act on non-ASCII whitespace and
    letters, which this model leaves unchanged.
 */
module Text {
  import opened Common

  predicate IsSpace(c: char) {
    c == ' ' || c == '\t' || c == '\n' || c == '\r' || c == '\U{B}' || c == '\U{C}'
    || c == '\U{1C}' || c == '\U{1D}' || c == '\U{1E}' || c == '\U{1F}'
  }

  predicate IsDigit(c: char) {
    '0' <= c <= '9'
  }

  predicate IsUpper(c: char) {
    'A' <= c <= 'Z'
  }

  predicate IsLowerAlnum(c: char) {
    'a' <= c <= 'z' || IsDigit(c)
  }

  /** `[A-Za-z0-9_]`, the regex word class restricted to ASCII. */
  predicate IsWordChar(c: char) {
    'a' <= c <= 'z' || IsUpper(c) || IsDigit(c) || c == '_'
  }

  function LowerChar(c: char): (d: char)
    ensures !IsUpper(d)
    ensures !IsUpper(c) ==> d == c
  {
    if IsUpper(c) then (c as int - 'A' as int + 'a' as int) as char else c
  }

  /** `str.lower()` on ASCII letters. */
  function Lower(s: string): (r: string)
    ensures |r| == |s|
    ensures forall i :: 0 <= i < |s| ==> r[i] == LowerChar(s[i])
  {
    seq(|s|, i requires 0 <= i < |s| => LowerChar(s[i]))
  }

  predicate IsLower(c: char) {
    'a' <= c <= 'z'
  }

  function UpperChar(c: char): (d: char)
    ensures !IsLower(d)
    ensures !IsLower(c) ==> d == c
  {
    if IsLower(c) then (c as int - 'a' as int + 'A' as int) as char else c
  }

  /** `str.upper()` on ASCII letters. */
  function Upper(s: string): (r: string)
    ensures |r| == |s|
    ensures forall i :: 0 <= i < |s| ==> r[i] == UpperChar(s[i])
  {
    seq(|s|, i requires 0 <= i < |s| => UpperChar(s[i]))
  }

  lemma {:induction false} LowerIdempotent(s: string)
    ensures Lower(Lower(s)) == Lower(s)
  {
  }

  /** The number of whitespace characters `s` starts with. */
  function LeadingSpaces(s: string): (n: nat)
    ensures n <= |s|
    ensures forall k :: 0 <= k < n ==> IsSpace(s[k])
    ensures n == |s| || !IsSpace(s[n])
  {
    if |s| > 0 && IsSpace(s[0]) then 1 + LeadingSpaces(s[1..]) else 0
  }

  /** `str.lstrip()`. */
  function StripLeft(s: string): (r: string)
    ensures r == [] || !IsSpace(r[0])
  {
    s[LeadingSpaces(s)..]
  }

  /** Drops trailing characters satisfying IsSpace. */
  function StripRight(s: string): (r: string)
    ensures |r| <= |s| && r == s[..|r|]
    ensures r == [] || !IsSpace(r[|r| - 1])
    ensures forall k :: |r| <= k < |s| ==> IsSpace(s[k])
    decreases |s|
  {
    if |s| > 0 && IsSpace(s[|s| - 1]) then StripRight(s[..|s| - 1]) else s
  }

  /** `str.strip()`: the result is the part of `s` after its leading
      whitespace, everything cut from the end is whitespace, and the result
      neither starts nor ends with whitespace. */
  function Strip(s: string): (r: string)
    ensures LeadingSpaces(s) + |r| <= |s|
    ensures r == s[LeadingSpaces(s)..LeadingSpaces(s) + |r|]
    ensures forall k :: LeadingSpaces(s) + |r| <= k < |s| ==> IsSpace(s[k])
    ensures r == [] || (!IsSpace(r[0]) && !IsSpace(r[|r| - 1]))
  {
    var l := StripLeft(s);
    var r := StripRight(l);
    var i := LeadingSpaces(s);
    assert r == s[i..i + |r|];
    assert forall k :: i + |r| <= k < |s| ==> IsSpace(s[k]) by {
      forall k | i + |r| <= k < |s| ensures IsSpace(s[k]) {
        assert s[k] == l[k - i];
      }
    }
    r
  }

  /** True when every character of `s` is whitespace (so `s.strip()` is empty). */
  predicate AllSpace(s: string) {
    forall k :: 0 <= k < |s| ==> IsSpace(s[k])
  }

  lemma {:induction false} StripEmptyIffAllSpace(s: string)
    ensures Strip(s) == [] <==> AllSpace(s)
  {
    var r := Strip(s);
    if r != [] {
      assert r[0] == s[LeadingSpaces(s)];
    }
  }

  /** The number of copies of `c` that `s` starts with. */
  function LeadingCount(s: string, c: char): (n: nat)
    ensures n <= |s|
    ensures forall k :: 0 <= k < n ==> s[k] == c
    ensures n == |s| || s[n] != c
  {
    if |s| > 0 && s[0] == c then 1 + LeadingCount(s[1..], c) else 0
  }

  /** Drops trailing copies of `c` (`str.rstrip(c)`). */
  function RStripChar(s: string, c: char): (r: string)
    ensures |r| <= |s| && r == s[..|r|]
    ensures r == [] || r[|r| - 1] != c
    ensures forall k :: |r| <= k < |s| ==> s[k] == c
    decreases |s|
  {
    if |s| > 0 && s[|s| - 1] == c then RStripChar(s[..|s| - 1], c) else s
  }

  /** `str.strip(c)`: drops leading and trailing copies of `c`; the
      result is an infix of `s` and all that is cut away is `c`. */
  function StripChar(s: string, c: char): (r: string)
    ensures LeadingCount(s, c) + |r| <= |s|
    ensures r == s[LeadingCount(s, c)..LeadingCount(s, c) + |r|]
    ensures forall k :: LeadingCount(s, c) + |r| <= k < |s| ==> s[k] == c
    ensures r == [] || (r[0] != c && r[|r| - 1] != c)
  {
    var i := LeadingCount(s, c);
    var l := s[i..];
    var r := RStripChar(l, c);
    assert r == s[i..i + |r|];
    assert forall k :: i + |r| <= k < |s| ==> s[k] == c by {
      forall k | i + |r| <= k < |s| ensures s[k] == c {
        assert s[k] == l[k - i];
      }
    }
    r
  }

  /** The index of the first occurrence of `c` in `s`. */
  function IndexOf(s: string, c: char): (i: nat)
    requires c in s
    ensures i < |s| && s[i] == c && c !in s[..i]
  {
    if s[0] == c then 0 else 1 + IndexOf(s[1..], c)
  }

  /** `sep.join(parts)`. */
  function Join(parts: seq<string>, sep: string): string {
    if |parts| == 0 then ""
    else if |parts| == 1 then parts[0]
    else parts[0] + sep + Join(parts[1..], sep)
  }

  /** A join of several parts is the first part, the separator and the
      join of the rest. */
  lemma JoinCons(parts: seq<string>, sep: string)
    requires |parts| > 1
    ensures Join(parts, sep) == parts[0] + (sep + Join(parts[1..], sep))
  {
  }

  /** `s.split(sep)` for a one-character separator: never empty, no piece
      holds the separator, and joining the pieces gives `s` back. */
  function Split(s: string, sep: char): (parts: seq<string>)
    ensures |parts| >= 1
    ensures forall p :: p in parts ==> sep !in p
    ensures Join(parts, [sep]) == s
    decreases |s|
  {
    if sep !in s then [s]
    else
      var i := IndexOf(s, sep);
      var rest := Split(s[i + 1..], sep);
      assert s == s[..i] + [sep] + s[i + 1..];
      [s[..i]] + rest
  }

  /** Splitting a join of separator-free pieces recovers the pieces. */
  lemma {:induction false} SplitJoin(parts: seq<string>, sep: char)
    requires |parts| >= 1
    requires forall p :: p in parts ==> sep !in p
    ensures Split(Join(parts, [sep]), sep) == parts
    decreases |parts|
  {
    if |parts| > 1 {
      var tail := Join(parts[1..], [sep]);
      assert parts[0] in parts;
      SplitFirstPiece(parts[0], tail, sep);
      assert forall p :: p in parts[1..] ==> p in parts;
      SplitJoin(parts[1..], sep);
      assert parts == [parts[0]] + parts[1..];
    }
  }

  /** A separator-free piece followed by the separator splits off first. */
  lemma {:induction false} SplitFirstPiece(a: string, tail: string, sep: char)
    requires sep !in a
    ensures Split(a + [sep] + tail, sep) == [a] + Split(tail, sep)
  {
    var s := a + [sep] + tail;
    IndexAfterFree(a, tail, sep);
    assert s[..|a|] == a;
    assert s[|a| + 1..] == tail;
  }

  /** The first separator after a separator-free prefix is right after it. */
  lemma {:induction false} IndexAfterFree(a: string, tail: string, sep: char)
    requires sep !in a
    ensures sep in a + [sep] + tail && IndexOf(a + [sep] + tail, sep) == |a|
    decreases |a|
  {
    var s := a + [sep] + tail;
    assert s[|a|] == sep;
    if |a| > 0 {
      assert s[0] == a[0];
      assert s[1..] == a[1..] + [sep] + tail;
      assert a == [a[0]] + a[1..];
      IndexAfterFree(a[1..], tail, sep);
    }
  }

  /** The first whitespace-free word of a string that starts with a
      non-space character, and its length. */
  function WordEnd(s: string): (n: nat)
    ensures n <= |s|
    ensures forall k :: 0 <= k < n ==> !IsSpace(s[k])
    ensures n == |s| || IsSpace(s[n])
  {
    if |s| == 0 || IsSpace(s[0]) then 0 else 1 + WordEnd(s[1..])
  }

  /** `s.split()`: the maximal runs of non-whitespace characters. */
  function Words(s: string): (ws: seq<string>)
    ensures forall w :: w in ws ==> w != [] && forall k :: 0 <= k < |w| ==> !IsSpace(w[k])
    decreases |s|
  {
    var t := StripLeft(s);
    if t == [] then []
    else
      var n := WordEnd(t);
      [t[..n]] + Words(t[n..])
  }

  /** A whitespace-free, non-empty word. */
  predicate IsWord(w: string) {
    w != [] && forall k :: 0 <= k < |w| ==> !IsSpace(w[k])
  }

  /** Joining words with single spaces and splitting again gives the words. */
  lemma {:induction false} WordsJoin(ws: seq<string>)
    requires forall w :: w in ws ==> IsWord(w)
    ensures Words(Join(ws, " ")) == ws
    decreases |ws|
  {
    if |ws| == 1 {
      WordsCons(ws[0], "");
      assert ws[0] + "" == ws[0];
    } else if |ws| > 1 {
      var tail := Join(ws[1..], " ");
      assert ws[0] in ws;
      JoinCons(ws, " ");
      WordThenSpace(ws[0], tail);
      assert forall v :: v in ws[1..] ==> v in ws;
      WordsJoin(ws[1..]);
      assert ws == [ws[0]] + ws[1..];
    }
  }

  /** A word, a space and more text: the word splits off first. */
  lemma {:induction false} WordThenSpace(w: string, tail: string)
    requires IsWord(w)
    ensures Words(w + (" " + tail)) == [w] + Words(tail)
  {
    WordsCons(w, " " + tail);
    WordsLeadingSpace(tail);
  }

  /** A word followed by nothing or by whitespace splits off as the first word. */
  lemma {:induction false} WordsCons(w: string, rest: string)
    requires IsWord(w)
    requires rest == [] || IsSpace(rest[0])
    ensures Words(w + rest) == [w] + Words(rest)
  {
    var s := w + rest;
    assert s[0] == w[0];
    assert StripLeft(s) == s;
    WordEndPrefix(w, rest);
    assert s[..|w|] == w;
    assert s[|w|..] == rest;
  }

  lemma {:induction false} WordEndPrefix(w: string, rest: string)
    requires IsWord(w)
    requires rest == [] || IsSpace(rest[0])
    ensures WordEnd(w + rest) == |w|
    decreases |w|
  {
    assert (w + rest)[0] == w[0];
    if |w| > 1 {
      assert (w + rest)[1..] == w[1..] + rest;
      WordEndPrefix(w[1..], rest);
    } else {
      assert (w + rest)[1..] == rest;
    }
  }

  lemma {:induction false} WordsLeadingSpace(t: string)
    ensures Words(" " + t) == Words(t)
  {
    assert (" " + t)[1..] == t;
    assert StripLeft(" " + t) == StripLeft(t);
  }

  /** Whitespace only as single spaces between non-space characters: no
      leading, trailing or doubled space, which is the shape of
      `" ".join(s.split())`. */
  predicate SingleSpaced(s: string) {
    forall k :: 0 <= k < |s| && IsSpace(s[k]) ==>
      s[k] == ' ' && 0 < k < |s| - 1 && !IsSpace(s[k - 1]) && !IsSpace(s[k + 1])
  }

  /** Words joined by single spaces are single-spaced, and a non-empty
      join starts with the first word. */
  lemma {:induction false} JoinSingleSpaced(ws: seq<string>)
    requires forall w :: w in ws ==> IsWord(w)
    ensures SingleSpaced(Join(ws, " "))
    ensures |ws| > 0 ==> |Join(ws, " ")| >= |ws[0]| && Join(ws, " ")[..|ws[0]|] == ws[0]
    decreases |ws|
  {
    if |ws| == 1 {
      assert ws[0] in ws;
    } else if |ws| > 1 {
      var w := ws[0];
      var t := Join(ws[1..], " ");
      assert w in ws && ws[1] in ws;
      assert forall v :: v in ws[1..] ==> v in ws;
      JoinSingleSpaced(ws[1..]);
      assert |t| >= |ws[1]| >= 1 && t[0] == ws[1][0];
      var s := w + " " + t;
      assert Join(ws, " ") == s;
      forall k | 0 <= k < |s| && IsSpace(s[k])
        ensures s[k] == ' ' && 0 < k < |s| - 1 && !IsSpace(s[k - 1]) && !IsSpace(s[k + 1])
      {
        if k == |w| {
          assert s[k - 1] == w[|w| - 1] && s[k + 1] == t[0];
        } else if k > |w| + 1 {
          assert s[k] == t[k - |w| - 1];
          assert s[k - 1] == t[k - |w| - 2];
          assert s[k + 1] == t[k - |w|];
        }
      }
      assert s[..|w|] == w;
    }
  }

  function DigitChar(d: nat): (c: char)
    requires d < 10
    ensures IsDigit(c)
  {
    ('0' as int + d) as char
  }

  function DigitValue(c: char): (d: nat)
    requires IsDigit(c)
    ensures d < 10
  {
    c as int - '0' as int
  }

  /** Decimal digits of a natural number, without leading zeros. */
  function NatToString(n: nat): (s: string)
    ensures |s| >= 1
    ensures forall k :: 0 <= k < |s| ==> IsDigit(s[k])
    ensures s[0] == '0' ==> n == 0
  {
    if n < 10 then [DigitChar(n)] else NatToString(n / 10) + [DigitChar(n % 10)]
  }

  /** `str(n)` for a Python integer. */
  function IntToString(n: int): (s: string)
    ensures |s| >= 1
    ensures n >= 0 ==> forall k :: 0 <= k < |s| ==> IsDigit(s[k])
    ensures n < 0 ==> s[0] == '-'
  {
    if n >= 0 then NatToString(n) else "-" + NatToString(-n)
  }

  /** The value of a non-empty run of decimal digits. */
  function DigitsValue(s: string): nat
    requires forall k :: 0 <= k < |s| ==> IsDigit(s[k])
  {
    if |s| == 0 then 0 else DigitsValue(s[..|s| - 1]) * 10 + DigitValue(s[|s| - 1])
  }

  lemma {:induction false} DigitsOfNat(n: nat)
    ensures DigitsValue(NatToString(n)) == n
  {
    if n >= 10 {
      var s := NatToString(n);
      assert s[..|s| - 1] == NatToString(n / 10);
      DigitsOfNat(n / 10);
    }
  }

  /** Digits with single underscores allowed between digits, as Python's
      `int()` accepts ("1_000"). */
  predicate DigitGroup(s: string) {
    |s| >= 1 && IsDigit(s[0]) && IsDigit(s[|s| - 1])
    && (forall k :: 0 <= k < |s| ==> IsDigit(s[k]) || s[k] == '_')
    && NoDoubleUnderscore(s)
  }

  predicate NoDoubleUnderscore(s: string) {
    |s| < 2 || (!(s[0] == '_' && s[1] == '_') && NoDoubleUnderscore(s[1..]))
  }

  /** The digits of `s` without the underscores. */
  function DropUnderscores(s: string): (r: string)
    requires forall k :: 0 <= k < |s| ==> IsDigit(s[k]) || s[k] == '_'
    ensures forall k :: 0 <= k < |r| ==> IsDigit(r[k])
  {
    if |s| == 0 then []
    else if s[|s| - 1] == '_' then DropUnderscores(s[..|s| - 1])
    else DropUnderscores(s[..|s| - 1]) + [s[|s| - 1]]
  }

  lemma {:induction false} DropUnderscoresDigits(s: string)
    requires forall k :: 0 <= k < |s| ==> IsDigit(s[k])
    ensures DropUnderscores(s) == s
    decreases |s|
  {
    if |s| > 0 {
      var p := s[..|s| - 1];
      assert forall k :: 0 <= k < |p| ==> IsDigit(p[k]);
      DropUnderscoresDigits(p);
      assert s == p + [s[|s| - 1]];
    }
  }

  /** `int(text)` for a `str` argument: surrounding whitespace, one optional
      sign, then a digit group. Anything else raises ValueError. */
  function ParseInt(text: string): (r: Result<int>)
    ensures r.Ok? ==> Strip(text) != []
  {
    var t := Strip(text);
    if t == [] then Err(ValueError) else ParseSigned(t)
  }

  /** An optional sign followed by a digit group. */
  function ParseSigned(t: string): Result<int>
    requires t != []
  {
    if t[0] == '-' then Negate(ParseMagnitude(t[1..]))
    else if t[0] == '+' then ParseMagnitude(t[1..])
    else ParseMagnitude(t)
  }

  function ParseMagnitude(body: string): Result<int> {
    if DigitGroup(body) then Ok(DigitsValue(DropUnderscores(body))) else Err(ValueError)
  }

  lemma {:induction false} StripUnpadded(s: string)
    requires |s| >= 1 && !IsSpace(s[0]) && !IsSpace(s[|s| - 1])
    ensures Strip(s) == s
  {
    assert StripLeft(s) == s;
    assert StripRight(s) == s;
  }

  lemma {:induction false} NatStringStripped(d: string)
    requires |d| >= 1 && forall k :: 0 <= k < |d| ==> IsDigit(d[k])
    ensures Strip(d) == d && Strip("-" + d) == "-" + d
  {
    assert IsDigit(d[0]) && IsDigit(d[|d| - 1]);
    StripUnpadded(d);
    var m := "-" + d;
    assert m[|m| - 1] == d[|d| - 1];
    StripUnpadded(m);
  }

  lemma {:induction false} DigitsAreGroup(d: string)
    requires |d| >= 1 && forall k :: 0 <= k < |d| ==> IsDigit(d[k])
    ensures DigitGroup(d)
    decreases |d|
  {
    if |d| >= 2 {
      DigitsAreGroup(d[1..]);
    }
  }

  lemma {:induction false} MagnitudeOfDigits(d: string)
    requires |d| >= 1 && forall k :: 0 <= k < |d| ==> IsDigit(d[k])
    ensures ParseMagnitude(d) == Ok(DigitsValue(d))
  {
    DigitsAreGroup(d);
    DropUnderscoresDigits(d);
  }

  lemma {:induction false} ParseUnsigned(d: string, v: nat)
    requires |d| >= 1 && IsDigit(d[0]) && Strip(d) == d
    requires ParseMagnitude(d) == Ok(v)
    ensures ParseInt(d) == Ok(v)
  {
    assert d[0] != '-' && d[0] != '+';
  }

  lemma {:induction false} ParseNegative(d: string, v: nat)
    requires Strip("-" + d) == "-" + d
    requires ParseMagnitude(d) == Ok(v)
    ensures ParseInt("-" + d) == Ok(-(v as int))
  {
    var m := "-" + d;
    assert m[1..] == d;
    assert m[0] == '-';
  }

  /** `int(str(n)) == n`: decimal rendering and parsing are inverse. */
  lemma {:induction false} IntRoundTrip(n: int)
    ensures ParseInt(IntToString(n)) == Ok(n)
  {
    if n >= 0 {
      assert IntToString(n) == NatToString(n);
      NatRoundTrip(n);
    } else {
      var m: nat := -n;
      assert IntToString(n) == "-" + NatToString(m);
      NatRoundTrip(m);
      NegativeRoundTrip(m);
      assert -(m as int) == n;
    }
  }

  /** Parsing the digits of `m` gives `m`. */
  lemma {:induction false} NatRoundTrip(m: nat)
    ensures ParseMagnitude(NatToString(m)) == Ok(m)
    ensures ParseInt(NatToString(m)) == Ok(m)
  {
    var d := NatToString(m);
    DigitsOfNat(m);
    MagnitudeOfDigits(d);
    NatStringStripped(d);
    ParseUnsigned(d, m);
  }

  /** Parsing a minus sign and the digits of `m` gives `-m`. */
  lemma {:induction false} NegativeRoundTrip(m: nat)
    requires ParseMagnitude(NatToString(m)) == Ok(m)
    ensures ParseInt("-" + NatToString(m)) == Ok(-(m as int))
  {
    var d := NatToString(m);
    NatStringStripped(d);
    ParseNegative(d, m);
  }

  /** `s.strip().lower()`, the normalization applied to every enumerated
      value a request may carry. */
  function StripLower(s: string): string {
    Lower(Strip(s))
  }

  /** A non-empty word of lower-case letters is already normalized. */
  lemma {:induction false} StripLowerWord(x: string)
    requires |x| >= 1 && forall k :: 0 <= k < |x| ==> IsLower(x[k])
    ensures StripLower(x) == x
  {
    StripUnpadded(x);
    assert Lower(x) == x;
  }

  /** Lower-casing neither makes nor removes whitespace. */
  lemma {:induction false} LowerCharSpace(c: char)
    ensures IsSpace(LowerChar(c)) <==> IsSpace(c)
  {
  }

  /** Normalizing twice is normalizing once. */
  lemma {:induction false} StripLowerIdempotent(s: string)
    ensures StripLower(StripLower(s)) == StripLower(s)
  {
    var t := Strip(s);
    var y := Lower(t);
    if y != [] {
      LowerCharSpace(t[0]);
      LowerCharSpace(t[|t| - 1]);
      StripUnpadded(y);
    }
    LowerIdempotent(t);
  }
}
