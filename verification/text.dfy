/**
  The JavaScript string built-ins the command line relies on, over `seq<char>`:
  `toLowerCase` (ASCII letters only), `trim`, `split` on one character,
  `startsWith` (Dafny's prefix `<=`), `includes`, `parseInt(_, 10)` and the
  decimal rendering of an integer inside a template literal.
 */
module Text {

  /** The single characters ECMAScript counts as WhiteSpace or LineTerminator, apart from the
      range U+2000..U+200A. */
  const SpaceChars: set<char> := {' ', '\t', '\n', '\r', '\U{B}', '\U{C}', '\U{A0}', '\U{1680}',
    '\U{2028}', '\U{2029}', '\U{202F}', '\U{205F}', '\U{3000}', '\U{FEFF}'}

  /** The characters `String.prototype.trim` and `parseInt` skip. */
  predicate IsSpace(c: char) {
    c in SpaceChars || '\U{2000}' <= c <= '\U{200A}'
  }

  ghost predicate AllSpace(s: string) {
    forall i :: 0 <= i < |s| ==> IsSpace(s[i])
  }

  // ---------------------------------------------------------------- case

  function LowerChar(c: char): char {
    if 'A' <= c <= 'Z' then (c as int - 'A' as int + 'a' as int) as char else c
  }

  function Lower(s: string): (r: string)
    ensures |r| == |s|
    ensures forall i :: 0 <= i < |s| ==> r[i] == LowerChar(s[i])
  {
    seq(|s|, i requires 0 <= i < |s| => LowerChar(s[i]))
  }

  /** Lower-casing twice is lower-casing once. */
  lemma LowerIdempotent(s: string)
    ensures Lower(Lower(s)) == Lower(s)
  {
  }

  /** Case mapping neither creates nor removes whitespace. */
  lemma LowerKeepsSpaces(c: char)
    ensures IsSpace(LowerChar(c)) == IsSpace(c)
  {
  }

  // ---------------------------------------------------------------- trim

  /** `r` is `s` with the whitespace before offset `a` and after `a + |r|` removed, and nothing else. */
  ghost predicate TrimsTo(s: string, a: int, r: string) {
    && 0 <= a && a + |r| <= |s| && s[a..a + |r|] == r
    && (forall i :: 0 <= i < a ==> IsSpace(s[i]))
    && (forall i :: a + |r| <= i < |s| ==> IsSpace(s[i]))
    && (r == [] || (!IsSpace(r[0]) && !IsSpace(r[|r| - 1])))
  }

  /** The first position at or after `i` that is not whitespace (or the end). */
  function SkipSpaces(s: string, i: nat): (j: nat)
    requires i <= |s|
    ensures i <= j <= |s|
    ensures forall k :: i <= k < j ==> IsSpace(s[k])
    ensures j == |s| || !IsSpace(s[j])
    decreases |s| - i
  {
    if i < |s| && IsSpace(s[i]) then SkipSpaces(s, i + 1) else i
  }

  /** The end of `s[a..j]` once its trailing whitespace is dropped. */
  function BackSpaces(s: string, a: nat, j: nat): (b: nat)
    requires a <= j <= |s|
    ensures a <= b <= j
    ensures forall k :: b <= k < j ==> IsSpace(s[k])
    ensures b == a || !IsSpace(s[b - 1])
    decreases j
  {
    if j > a && IsSpace(s[j - 1]) then BackSpaces(s, a, j - 1) else j
  }

  /** `String.prototype.trim`: drops the leading and trailing whitespace runs. */
  function Trim(s: string): (r: string)
    ensures TrimsTo(s, SkipSpaces(s, 0), r)
    ensures r == [] <==> AllSpace(s)
  {
    var a := SkipSpaces(s, 0);
    s[a..BackSpaces(s, a, |s|)]
  }

  /** There is only one way to trim a string: `TrimsTo` pins the result down. */
  lemma TrimsToUnique(s: string, a: int, r: string, b: int, q: string)
    requires TrimsTo(s, a, r) && TrimsTo(s, b, q)
    ensures r == q
  {
    if r != [] && q != [] {
      assert s[a] == r[0] && s[b] == q[0];
      assert s[a + |r| - 1] == r[|r| - 1] && s[b + |q| - 1] == q[|q| - 1];
    }
  }

  /** Any string trimmed by the characterisation is what `Trim` returns. */
  lemma TrimCharacterised(s: string, a: int, r: string)
    requires TrimsTo(s, a, r)
    ensures Trim(s) == r
  {
    TrimsToUnique(s, a, r, SkipSpaces(s, 0), Trim(s));
  }

  /** Surrounding whitespace is invisible to `trim`. */
  lemma TrimIgnoresPadding(pre: string, s: string, post: string)
    requires AllSpace(pre) && AllSpace(post)
    ensures Trim(pre + s + post) == Trim(s)
  {
    var a, r := SkipSpaces(s, 0), Trim(s);
    PaddingKeepsTrimsTo(pre, s, post, a, r);
    TrimCharacterised(pre + s + post, |pre| + a, r);
  }

  /** Whitespace added on both sides moves the kept part, and changes nothing else. */
  lemma PaddingKeepsTrimsTo(pre: string, s: string, post: string, a: int, r: string)
    requires AllSpace(pre) && AllSpace(post) && TrimsTo(s, a, r)
    ensures TrimsTo(pre + s + post, |pre| + a, r)
  {
    var w := pre + s + post;
    assert w[|pre| + a..|pre| + a + |r|] == s[a..a + |r|];
    forall i | 0 <= i < |pre| + a ensures IsSpace(w[i]) {
      if i >= |pre| { assert w[i] == s[i - |pre|]; }
    }
    forall i | |pre| + a + |r| <= i < |w| ensures IsSpace(w[i]) {
      if i < |pre| + |s| { assert w[i] == s[i - |pre|]; }
    }
  }

  /** A line that neither starts nor ends with whitespace is its own trimming. */
  lemma TrimKeepsUnpadded(s: string)
    requires s == [] || (!IsSpace(s[0]) && !IsSpace(s[|s| - 1]))
    ensures Trim(s) == s
  {
    assert s[0..|s|] == s;
    TrimCharacterised(s, 0, s);
  }

  /** Normalising a line (lower-case, then trim) twice is normalising it once. */
  lemma NormaliseIdempotent(s: string)
    ensures Trim(Lower(Trim(Lower(s)))) == Trim(Lower(s))
  {
    LowerTrimCommute(Lower(s));
    LowerIdempotent(s);
    TrimIdempotent(Lower(s));
  }

  /** Trimming is idempotent. */
  lemma TrimIdempotent(s: string)
    ensures Trim(Trim(s)) == Trim(s)
  {
    var r := Trim(s);
    assert r[0..|r|] == r;
    TrimCharacterised(r, 0, r);
  }

  /** `s.toLowerCase().trim()` and `s.trim().toLowerCase()` agree. */
  lemma LowerTrimCommute(s: string)
    ensures Trim(Lower(s)) == Lower(Trim(s))
  {
    LowerTrimsTo(s, SkipSpaces(s, 0), Trim(s));
    TrimCharacterised(Lower(s), SkipSpaces(s, 0), Lower(Trim(s)));
  }

  /** Lower-casing a string lower-cases its trimming in place. */
  lemma LowerTrimsTo(s: string, a: int, r: string)
    requires TrimsTo(s, a, r)
    ensures TrimsTo(Lower(s), a, Lower(r))
  {
    var ls, lr := Lower(s), Lower(r);
    forall i | 0 <= i < |s| ensures IsSpace(ls[i]) == IsSpace(s[i]) {
      LowerKeepsSpaces(s[i]);
    }
    forall i | 0 <= i < |r| ensures ls[a..a + |r|][i] == lr[i] {
      assert s[a + i] == r[i];
    }
    assert ls[a..a + |r|] == lr;
    if r != [] {
      LowerKeepsSpaces(r[0]);
      LowerKeepsSpaces(r[|r| - 1]);
    }
  }

  // ---------------------------------------------------------------- split

  function IndexOf(s: string, c: char): (i: nat)
    requires c in s
    ensures i < |s| && s[i] == c && c !in s[..i]
  {
    if s[0] == c then 0 else 1 + IndexOf(s[1..], c)
  }

  /** The first separator after a separator-free prefix sits right after it. */
  lemma {:induction false} IndexOfPastPrefix(t: string, sep: char, u: string)
    requires sep !in t
    ensures IndexOf(t + [sep] + u, sep) == |t|
    decreases |t|
  {
    if t != [] {
      assert (t + [sep] + u)[1..] == t[1..] + [sep] + u;
      IndexOfPastPrefix(t[1..], sep, u);
    }
  }

  /** The inverse of `split`: the parts glued back with the separator between them. */
  function Join(parts: seq<string>, sep: char): string
    requires |parts| >= 1
  {
    if |parts| == 1 then parts[0] else parts[0] + [sep] + Join(parts[1..], sep)
  }

  /** `String.prototype.split` with a one-character separator: every occurrence cuts, so two
      adjacent separators leave an empty part between them. */
  function Split(s: string, sep: char): (parts: seq<string>)
    ensures |parts| >= 1
    ensures forall i :: 0 <= i < |parts| ==> sep !in parts[i]
    ensures Join(parts, sep) == s
    ensures |parts| == 1 <==> sep !in s
    decreases |s|
  {
    if sep !in s then [s]
    else
      var i := IndexOf(s, sep);
      var rest := Split(s[i + 1..], sep);
      assert s == s[..i] + [sep] + s[i + 1..];
      [s[..i]] + rest
  }

  /** Splitting undoes joining, so `Split` is the only separator-free decomposition of a string. */
  lemma {:induction false} SplitJoin(parts: seq<string>, sep: char)
    requires |parts| >= 1
    requires forall i :: 0 <= i < |parts| ==> sep !in parts[i]
    ensures Split(Join(parts, sep), sep) == parts
    decreases |parts|
  {
    if |parts| == 1 {
    } else {
      var tail := Join(parts[1..], sep);
      var s := parts[0] + [sep] + tail;
      assert sep !in parts[0];
      assert s[|parts[0]|] == sep;
      assert s[..|parts[0]|] == parts[0];
      IndexOfPastPrefix(parts[0], sep, tail);
      assert s[|parts[0]| + 1..] == tail;
      SplitJoin(parts[1..], sep);
    }
  }

  // ---------------------------------------------------------------- search

  /** `t` occurs in `s` starting at offset `i`. */
  ghost predicate OccursAt(s: string, t: string, i: int) {
    0 <= i <= |s| - |t| && s[i..i + |t|] == t
  }

  /** `String.prototype.includes`. */
  predicate Contains(s: string, t: string)
    decreases |s|
  {
    t <= s || (|s| > 0 && Contains(s[1..], t))
  }

  /** `Contains` means: `t` occurs at some offset of `s`. */
  lemma ContainsAt(s: string, t: string)
    ensures Contains(s, t) <==> exists i :: OccursAt(s, t, i)
  {
    if Contains(s, t) {
      var i := ContainsOffset(s, t);
    }
    if exists i :: OccursAt(s, t, i) {
      var i :| OccursAt(s, t, i);
      OccurrenceIsContained(s, t, i);
    }
  }

  /** Where `includes` found `t`. */
  lemma {:induction false} ContainsOffset(s: string, t: string) returns (i: int)
    requires Contains(s, t)
    ensures OccursAt(s, t, i)
    decreases |s|
  {
    if t <= s {
      i := 0;
      assert s[0..|t|] == t;
    } else {
      var j := ContainsOffset(s[1..], t);
      i := j + 1;
      assert s[i..i + |t|] == s[1..][j..j + |t|];
    }
  }

  /** An occurrence at any offset is found by `includes`. */
  lemma {:induction false} OccurrenceIsContained(s: string, t: string, i: int)
    requires OccursAt(s, t, i)
    ensures Contains(s, t)
    decreases i
  {
    if i == 0 {
      assert t == s[..|t|];
    } else {
      assert s[1..][i - 1..i - 1 + |t|] == s[i..i + |t|];
      OccurrenceIsContained(s[1..], t, i - 1);
    }
  }

  // ---------------------------------------------------------------- numbers

  /** The outcome of `parseInt`: a number, or `NaN` when no digit was found. */
  datatype ParsedInt = NaN | Num(value: int)

  predicate IsDigit(c: char) {
    '0' <= c <= '9'
  }

  ghost predicate AllDigits(s: string) {
    forall i :: 0 <= i < |s| ==> IsDigit(s[i])
  }

  function DigitChar(n: nat): (c: char)
    requires n < 10
    ensures IsDigit(c)
  {
    ('0' as int + n) as char
  }

  /** The longest prefix of `s` made of decimal digits. */
  function DigitRun(s: string): (d: string)
    ensures d <= s && AllDigits(d)
    ensures |d| == |s| || !IsDigit(s[|d|])
    decreases |s|
  {
    if |s| > 0 && IsDigit(s[0]) then [s[0]] + DigitRun(s[1..]) else []
  }

  /** The value of a string of decimal digits, most significant first. */
  function DigitsValue(d: string): nat
    requires AllDigits(d)
    decreases |d|
  {
    if d == [] then 0 else DigitsValue(d[..|d| - 1]) * 10 + (d[|d| - 1] as int - '0' as int)
  }

  /** `parseInt(s, 10)`: skip leading whitespace, take one optional sign, then the longest run of
      digits; `NaN` if that run is empty. */
  function ParseInt(s: string): (r: ParsedInt)
    ensures var a := SkipSpaces(s, 0);
      var b := if a < |s| && (s[a] == '-' || s[a] == '+') then a + 1 else a;
      && (r.NaN? <==> b == |s| || !IsDigit(s[b]))
      && (r.Num? && r.value < 0 ==> s[a] == '-')
  {
    var a := SkipSpaces(s, 0);
    var b := if a < |s| && (s[a] == '-' || s[a] == '+') then a + 1 else a;
    var d := DigitRun(s[b..]);
    if d == [] then NaN
    else if a < |s| && s[a] == '-' then Num(0 - DigitsValue(d))
    else Num(DigitsValue(d))
  }

  /** The decimal digits of a natural number, without leading zeros. */
  function NatToDigits(n: nat): (d: string)
    ensures |d| >= 1 && AllDigits(d)
    ensures DigitsValue(d) == n
    ensures d[0] == '0' ==> n == 0
    decreases n
  {
    if n < 10 then [DigitChar(n)]
    else
      var d := NatToDigits(n / 10) + [DigitChar(n % 10)];
      assert d[..|d| - 1] == NatToDigits(n / 10);
      d
  }

  /** How an integer appears inside a template literal. */
  function IntToString(n: int): (s: string)
    ensures |s| >= 1
    ensures s[0] == '-' <==> n < 0
  {
    if n < 0 then "-" + NatToDigits(-n) else NatToDigits(n)
  }

  /** How the result of `parseInt` appears inside a template literal. */
  function ShowParsed(x: ParsedInt): string {
    match x
    case NaN => "NaN"
    case Num(n) => IntToString(n)
  }

  /** A digit run is read to its end when what follows is not a digit. */
  lemma {:induction false} DigitRunStopsAtNonDigit(d: string, rest: string)
    requires AllDigits(d)
    requires rest == [] || !IsDigit(rest[0])
    ensures DigitRun(d + rest) == d
    decreases |d|
  {
    if d != [] {
      assert (d + rest)[1..] == d[1..] + rest;
      DigitRunStopsAtNonDigit(d[1..], rest);
    }
  }

  /** `parseInt` reads back the decimal rendering of any integer, whatever non-digit text follows it. */
  lemma ParseIntReadsIntToString(n: int, rest: string)
    requires rest == [] || !IsDigit(rest[0])
    ensures ParseInt(IntToString(n) + rest) == Num(n)
  {
    if n < 0 {
      assert IntToString(n) + rest == "-" + NatToDigits(-n) + rest;
      ParseIntReadsNegative(NatToDigits(-n), rest);
    } else {
      ParseIntReadsDigits(NatToDigits(n), rest);
    }
  }

  /** A run of digits followed by a non-digit is read as its value. */
  lemma ParseIntReadsDigits(d: string, rest: string)
    requires d != [] && AllDigits(d)
    requires rest == [] || !IsDigit(rest[0])
    ensures ParseInt(d + rest) == Num(DigitsValue(d))
  {
    var s := d + rest;
    assert s[0] == d[0] && IsDigit(d[0]);
    assert SkipSpaces(s, 0) == 0;
    assert s[0..] == s;
    DigitRunStopsAtNonDigit(d, rest);
    assert DigitRun(s[0..]) == d;
  }

  /** A minus sign, a run of digits and then a non-digit is read as the negated value. */
  lemma ParseIntReadsNegative(d: string, rest: string)
    requires d != [] && AllDigits(d)
    requires rest == [] || !IsDigit(rest[0])
    ensures ParseInt("-" + d + rest) == Num(0 - DigitsValue(d))
  {
    var s := "-" + d + rest;
    assert s[0] == '-' && !IsSpace('-');
    assert SkipSpaces(s, 0) == 0;
    assert s[1..] == d + rest;
    DigitRunStopsAtNonDigit(d, rest);
    ParseIntOfNegative(s, d);
  }

  lemma ParseIntOfNegative(s: string, d: string)
    requires |s| > 1 && SkipSpaces(s, 0) == 0 && s[0] == '-'
    requires d != [] && DigitRun(s[1..]) == d
    ensures ParseInt(s) == Num(0 - DigitsValue(d))
  {
  }

  /** `parseInt` skips any leading whitespace, accepts one `+` or `-`, ignores what follows the
      digits, and reads the digits as their decimal value, negated after a minus. */
  lemma ParseIntReadsSignedDigits(ws: string, d: string, rest: string)
    requires AllSpace(ws)
    requires d != [] && AllDigits(d)
    requires rest == [] || !IsDigit(rest[0])
    ensures ParseInt(ws + d + rest) == Num(DigitsValue(d))
    ensures ParseInt(ws + "+" + d + rest) == Num(DigitsValue(d))
    ensures ParseInt(ws + "-" + d + rest) == Num(0 - DigitsValue(d))
  {
    DigitRunStopsAtNonDigit(d, rest);
    ParseIntAfterSpaces(ws, d, rest);
    ParseIntAfterSpacesAndSign(ws, '+', d, rest);
    Regroup(ws, "+", d, rest);
    ParseIntAfterSpacesAndSign(ws, '-', d, rest);
    Regroup(ws, "-", d, rest);
  }

  lemma ParseIntAfterSpaces(ws: string, d: string, rest: string)
    requires AllSpace(ws) && d != [] && AllDigits(d) && DigitRun(d + rest) == d
    ensures ParseInt(ws + d + rest) == Num(DigitsValue(d))
  {
    var s := ws + d + rest;
    assert s[|ws|..] == d + rest;
    assert s[|ws|] == d[0] && IsDigit(d[0]);
    SkipSpacesPast(ws, d + rest);
    ParseIntUnsignedAt(s, |ws|, d);
  }

  lemma ParseIntAfterSpacesAndSign(ws: string, sign: char, d: string, rest: string)
    requires AllSpace(ws) && (sign == '+' || sign == '-')
    requires d != [] && AllDigits(d) && DigitRun(d + rest) == d
    ensures ParseInt(ws + ([sign] + (d + rest))) == Num(if sign == '-' then 0 - DigitsValue(d) else DigitsValue(d))
  {
    var t := [sign] + (d + rest);
    var s := ws + t;
    assert SkipSpaces(s, 0) == |ws| by {
      assert t[0] == sign && !IsSpace(sign);
      SkipSpacesPast(ws, t);
    }
    assert s[|ws|] == sign;
    assert DigitRun(s[|ws| + 1..]) == d by {
      assert s[|ws| + 1..] == t[1..] == d + rest;
    }
    ParseIntSignedAt(s, |ws|, d);
  }

  /** Regrouping a four-part concatenation. */
  lemma Regroup(a: string, b: string, c: string, e: string)
    ensures a + b + c + e == a + (b + (c + e))
  {
  }

  /** Where the digits start right after the skipped whitespace. */
  lemma ParseIntUnsignedAt(s: string, a: nat, d: string)
    requires a < |s| && SkipSpaces(s, 0) == a && IsDigit(s[a])
    requires d != [] && DigitRun(s[a..]) == d
    ensures ParseInt(s) == Num(DigitsValue(d))
  {
  }

  /** Where a sign follows the skipped whitespace. */
  lemma ParseIntSignedAt(s: string, a: nat, d: string)
    requires a + 1 < |s| && SkipSpaces(s, 0) == a && (s[a] == '+' || s[a] == '-')
    requires d != [] && DigitRun(s[a + 1..]) == d
    ensures ParseInt(s) == Num(if s[a] == '-' then 0 - DigitsValue(d) else DigitsValue(d))
  {
  }

  /** Skipping whitespace stops where a whitespace prefix ends. */
  lemma SkipSpacesPast(ws: string, t: string)
    requires AllSpace(ws) && (t == [] || !IsSpace(t[0]))
    ensures SkipSpaces(ws + t, 0) == |ws|
  {
    SkipSpacesFrom(ws, t, 0);
  }

  lemma {:induction false} SkipSpacesFrom(ws: string, t: string, i: nat)
    requires AllSpace(ws) && (t == [] || !IsSpace(t[0])) && i <= |ws|
    ensures SkipSpaces(ws + t, i) == |ws|
    decreases |ws| - i
  {
    if i < |ws| {
      assert (ws + t)[i] == ws[i];
      SkipSpacesFrom(ws, t, i + 1);
    } else if t != [] {
      assert (ws + t)[i] == t[0];
    }
  }

  /** Leading zeros do not change the value of a digit run. */
  lemma {:induction false} LeadingZeroIgnored(d: string)
    requires AllDigits(d)
    ensures AllDigits("0" + d) && DigitsValue("0" + d) == DigitsValue(d)
    decreases |d|
  {
    var z := "0" + d;
    assert AllDigits(z) by {
      forall i | 0 <= i < |z| ensures IsDigit(z[i]) {
        if i > 0 { assert z[i] == d[i - 1]; }
      }
    }
    if d != [] {
      var init := d[..|d| - 1];
      assert z[..|z| - 1] == "0" + init;
      assert z[|z| - 1] == d[|d| - 1];
      LeadingZeroIgnored(init);
    }
  }

  /** Round trip: `parseInt(String(n), 10) == n`. */
  lemma ParseIntRoundTrip(n: int)
    ensures ParseInt(IntToString(n)) == Num(n)
  {
    assert IntToString(n) + [] == IntToString(n);
    ParseIntReadsIntToString(n, []);
  }
}
