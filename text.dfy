/** The .NET string operations the modelled code relies on, over `string`
    (= `seq<char>`): ordinal search and comparison, ASCII lower-casing,
    trimming, replacement, and the decimal text of a 32-bit integer in both
    directions (`Int32.ToString()` and a simplified `int.TryParse`). */
module Text {
  import opened Wrappers

  /** A C# `int`. */
  newtype int32 = x: int | -0x8000_0000 <= x < 0x8000_0000

  predicate StartsWith(s: string, prefix: string) {
    |prefix| <= |s| && s[..|prefix|] == prefix
  }

  predicate EndsWith(s: string, suffix: string) {
    |suffix| <= |s| && s[|s| - |suffix|..] == suffix
  }

  /** `s.IndexOf(c)`: the first position of `c`, or -1. */
  function IndexOf(s: string, c: char): (r: int)
    ensures -1 <= r < |s|
    ensures 0 <= r ==> s[r] == c && c !in s[..r]
    ensures r == -1 <==> c !in s
  {
    if |s| == 0 then -1
    else if s[0] == c then 0
    else
      var k := IndexOf(s[1..], c);
      assert s[1..][..if k < 0 then 0 else k] == s[1..1 + if k < 0 then 0 else k];
      if k < 0 then -1 else k + 1
  }

  /** Helper: a text with `c` in it is the text before its first `c`, that `c`,
      and the rest. */
  lemma {:induction false} SplitAtFirst(s: string, c: char)
    requires c in s
    ensures 0 <= IndexOf(s, c) && s == s[..IndexOf(s, c)] + [c] + s[IndexOf(s, c) + 1..]
    ensures c !in s[..IndexOf(s, c)]
  {
    var i := IndexOf(s, c);
    var t := s[..i] + [c] + s[i + 1..];
    assert |t| == |s|;
    forall k | 0 <= k < |s|
      ensures t[k] == s[k]
    {
      if k > i {
        assert t[k] == s[i + 1..][k - i - 1];
      }
    }
  }

  /** `sub` occurs in `s` starting at position `i`. */
  predicate OccursAt(s: string, sub: string, i: int) {
    0 <= i && i + |sub| <= |s| && s[i..i + |sub|] == sub
  }

  /** `s.Contains(sub)`, ordinal. */
  function Contains(s: string, sub: string): (b: bool)
    ensures b <==> exists i :: OccursAt(s, sub, i)
    decreases |s|
  {
    if StartsWith(s, sub) then
      assert OccursAt(s, sub, 0);
      true
    else if |s| == 0 then
      false
    else
      var t := s[1..];
      var rest := Contains(t, sub);
      if rest then
        var i :| OccursAt(t, sub, i);
        assert s[i + 1..i + 1 + |sub|] == t[i..i + |sub|];
        assert OccursAt(s, sub, i + 1);
        true
      else
        assert forall i :: OccursAt(s, sub, i) ==> OccursAt(t, sub, i - 1) by {
          forall i | OccursAt(s, sub, i) ensures OccursAt(t, sub, i - 1) {
            assert t[i - 1..i - 1 + |sub|] == s[i..i + |sub|];
          }
        }
        false
  }

  /** Lower-casing of one character as the invariant culture does it on
      the ASCII range: `A` to `Z` become `a` to `z`. */
  function Lower(c: char): char {
    if 'A' <= c <= 'Z' then (c as int + 32) as char else c
  }

  function ToLower(s: string): string {
    seq(|s|, i requires 0 <= i < |s| => Lower(s[i]))
  }

  /** The characters a trim removes: `String.Trim()`'s white space (every
      character `Char.IsWhiteSpace` accepts), the white space `int.TryParse`
      accepts around a number, or one given character. */
  datatype Trimmed = WhiteSpace | NumberSpace | Exactly(c: char)

  predicate Drops(k: Trimmed, c: char) {
    match k
    case WhiteSpace =>
      c == ' ' || ('\t' <= c <= '\r') || c == '\U{0085}' || c == '\U{00A0}' || c == '\U{1680}' ||
      ('\U{2000}' <= c <= '\U{200A}') || c == '\U{2028}' || c == '\U{2029}' || c == '\U{202F}' ||
      c == '\U{205F}' || c == '\U{3000}'
    case NumberSpace => c == ' ' || ('\t' <= c <= '\r')
    case Exactly(d) => c == d
  }

  /** Drops the leading characters of class `k`. */
  function TrimStart(s: string, k: Trimmed): string {
    if |s| > 0 && Drops(k, s[0]) then TrimStart(s[1..], k) else s
  }

  /** Drops the trailing characters of class `k`. */
  function TrimEnd(s: string, k: Trimmed): string {
    if |s| > 0 && Drops(k, s[|s| - 1]) then TrimEnd(s[..|s| - 1], k) else s
  }

  /** `TrimStart` removes a prefix of characters of class `k` and stops at
      the first character outside it. */
  lemma {:induction false} TrimStartShape(s: string, k: Trimmed)
    ensures var r := TrimStart(s, k);
      && |r| <= |s| && r == s[|s| - |r|..]
      && (forall i :: 0 <= i < |s| - |r| ==> Drops(k, s[i]))
      && (r == [] || !Drops(k, r[0]))
    decreases |s|
  {
    if |s| > 0 && Drops(k, s[0]) {
      TrimStartShape(s[1..], k);
      var r := TrimStart(s[1..], k);
      assert forall i :: 1 <= i < |s| - |r| ==> s[i] == s[1..][i - 1];
    }
  }

  /** `TrimEnd` removes a suffix of characters of class `k` and stops at the
      last character outside it. */
  lemma {:induction false} TrimEndShape(s: string, k: Trimmed)
    ensures var r := TrimEnd(s, k);
      && |r| <= |s| && r == s[..|r|]
      && (forall i :: |r| <= i < |s| ==> Drops(k, s[i]))
      && (r == [] || !Drops(k, r[|r| - 1]))
    decreases |s|
  {
    if |s| > 0 && Drops(k, s[|s| - 1]) {
      TrimEndShape(s[..|s| - 1], k);
    }
  }

  function TrimBoth(s: string, k: Trimmed): string {
    TrimEnd(TrimStart(s, k), k)
  }

  /** `s.Trim()`. */
  function Trim(s: string): string {
    TrimBoth(s, WhiteSpace)
  }

  /** `s.Trim(c)`. */
  function TrimChar(s: string, c: char): string {
    TrimBoth(s, Exactly(c))
  }

  /** `s.Replace(pat, rep)`: every non-overlapping occurrence, left to right. */
  function Replace(s: string, pat: string, rep: string): string
    requires |pat| > 0
    decreases |s|
  {
    if |s| < |pat| then s
    else if s[..|pat|] == pat then rep + Replace(s[|pat|..], pat, rep)
    else [s[0]] + Replace(s[1..], pat, rep)
  }

  /** Replacing a pattern whose first character does not occur changes nothing. */
  lemma {:induction false} ReplaceAbsent(s: string, pat: string, rep: string)
    requires |pat| > 0 && pat[0] !in s
    ensures Replace(s, pat, rep) == s
    decreases |s|
  {
    if |s| >= |pat| {
      assert s[..|pat|][0] == s[0];
      ReplaceAbsent(s[1..], pat, rep);
    }
  }

  /** A character absent from both the text and the replacement stays absent. */
  lemma {:induction false} ReplaceKeepsAbsent(s: string, pat: string, rep: string, c: char)
    requires |pat| > 0 && c !in s && c !in rep
    ensures c !in Replace(s, pat, rep)
    decreases |s|
  {
    if |s| >= |pat| {
      if s[..|pat|] == pat {
        ReplaceKeepsAbsent(s[|pat|..], pat, rep, c);
      } else {
        ReplaceKeepsAbsent(s[1..], pat, rep, c);
      }
    }
  }

  /** Replacing a one-character pattern by text without it removes it. */
  lemma {:induction false} ReplaceRemovesChar(s: string, c: char, rep: string)
    requires c !in rep
    ensures c !in Replace(s, [c], rep)
    decreases |s|
  {
    if |s| >= 1 {
      if s[..1] == [c] {
        ReplaceRemovesChar(s[1..], c, rep);
      } else {
        assert s[0] != c by { assert s[..1][0] == s[0]; }
        ReplaceRemovesChar(s[1..], c, rep);
      }
    }
  }

  predicate IsDigit(c: char) {
    '0' <= c <= '9'
  }

  predicate AllDigits(s: string) {
    forall k :: 0 <= k < |s| ==> IsDigit(s[k])
  }

  function DigitChar(d: nat): char
    requires d < 10
  {
    ('0' as int + d) as char
  }

  /** The value of a run of decimal digits, most significant first. */
  function DigitsValue(ds: string): nat
    requires AllDigits(ds)
  {
    if ds == [] then 0
    else DigitsValue(ds[..|ds| - 1]) * 10 + (ds[|ds| - 1] as int - '0' as int)
  }

  /** The shortest decimal text of a natural number. */
  function NatToString(n: nat): (r: string)
    ensures r != [] && AllDigits(r) && DigitsValue(r) == n
    ensures r[0] != '0' || n == 0
  {
    if n < 10 then [DigitChar(n)]
    else
      var p := NatToString(n / 10);
      var r := p + [DigitChar(n % 10)];
      assert r[..|r| - 1] == p;
      r
  }

  /** `Int32.ToString()` (invariant culture). */
  function IntToString(x: int): string {
    if x < 0 then "-" + NatToString(-x) else NatToString(x)
  }

  /** `int.TryParse(s, out n)` with `NumberStyles.Integer` in the invariant
      culture: optional white space, an optional `+` or `-`, one or more
      ASCII digits, optional white space, and a value in the `int` range.
      Whatever follows the parsed number must be NUL characters only, so a
      trailing run of `'\0'` is dropped first. */
  function ParseInt(s: string): Option<int32> {
    var t := TrimBoth(TrimEnd(s, Exactly('\0')), NumberSpace);
    var signed := |t| > 0 && (t[0] == '-' || t[0] == '+');
    var body := if signed then t[1..] else t;
    if body == [] || !AllDigits(body) then None
    else
      var v: int := if signed && t[0] == '-' then -(DigitsValue(body) as int) else DigitsValue(body);
      if -0x8000_0000 <= v < 0x8000_0000 then Some(v as int32) else None
  }

  /** Trailing NUL characters never change the outcome: `"5\0"` parses as
      `"5"` does. */
  lemma {:induction false} ParseIntNulPadded(s: string, n: nat)
    ensures ParseInt(s + seq(n, _ => '\0')) == ParseInt(s)
    decreases n
  {
    if n > 0 {
      var pad := seq(n, _ => '\0');
      var shorter := seq(n - 1, _ => '\0');
      assert s + pad == (s + shorter) + ['\0'];
      assert TrimEnd(s + pad, Exactly('\0')) == TrimEnd(s + shorter, Exactly('\0'));
      ParseIntNulPadded(s, n - 1);
    } else {
      assert s + seq(n, _ => '\0') == s;
    }
  }

  /** A NUL with anything but NULs after it makes the parse fail. */
  lemma {:induction false} ParseIntNulInside(s: string, j: nat, k: nat)
    requires j < k < |s| && s[j] == '\0' && s[k] != '\0'
    ensures ParseInt(s) == None
  {
    var z := TrimEnd(s, Exactly('\0'));
    TrimEndShape(s, Exactly('\0'));
    assert k < |z|;
    assert z[j] == '\0';
    var u := TrimStart(z, NumberSpace);
    TrimStartShape(z, NumberSpace);
    assert j >= |z| - |u|;
    var t := TrimEnd(u, NumberSpace);
    TrimEndShape(u, NumberSpace);
    var m := j - (|z| - |u|);
    assert u[m] == '\0';
    assert m < |t|;
    assert t[m] == '\0';
    var signed := |t| > 0 && (t[0] == '-' || t[0] == '+');
    var body := if signed then t[1..] else t;
    if body != [] {
      assert !AllDigits(body) by {
        if signed {
          assert m >= 1;
          assert body[m - 1] == '\0';
        } else {
          assert body[m] == '\0';
        }
      }
    }
  }

  /** Printing an `int` and parsing it back gives the same `int`. */
  lemma {:induction false} IntToStringParses(x: int32)
    ensures ParseInt(IntToString(x as int)) == Some(x)
  {
    var s := IntToString(x as int);
    var digits := if x < 0 then NatToString(-(x as int)) else NatToString(x as int);
    assert s[|s| - 1] == digits[|digits| - 1];
    assert TrimEnd(s, Exactly('\0')) == s;
    assert !Drops(NumberSpace, s[0]);
    assert !Drops(NumberSpace, s[|s| - 1]);
    assert TrimStart(s, NumberSpace) == s;
    assert TrimEnd(s, NumberSpace) == s;
    if x < 0 {
      assert s[1..] == digits;
    }
  }
}
