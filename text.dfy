/**
 * The pieces of Python's `str` behaviour the grading core relies on: whitespace
 * stripping, lower-casing, prefix and substring search, `split`, `join`,
 * `replace`, decimal digit tokens and the text of a natural number.
 */
module Text {
  import opened Wrappers

  /** Python's `str.isspace`; regular expressions use the same set for `\s` on `str` patterns. */
  predicate IsSpace(c: char) {
    c == ' ' || ('\t' <= c <= '\r') || ('\U{1c}' <= c <= '\U{1f}') || c == '\U{85}' || c == '\U{a0}'
    || c == '\U{1680}' || ('\U{2000}' <= c <= '\U{200a}') || c == '\U{2028}' || c == '\U{2029}'
    || c == '\U{202f}' || c == '\U{205f}' || c == '\U{3000}'
  }

  predicate IsDigit(c: char) {
    '0' <= c <= '9'
  }

  predicate AllDigits(s: string) {
    forall k :: 0 <= k < |s| ==> IsDigit(s[k])
  }

  predicate AllSpace(s: string) {
    forall k :: 0 <= k < |s| ==> IsSpace(s[k])
  }

  /** No whitespace at either end, as left by `str.strip()`. */
  predicate IsStripped(s: string) {
    s == [] || (!IsSpace(s[0]) && !IsSpace(s[|s| - 1]))
  }

  /** `str.lstrip()`: drops the leading whitespace and keeps the rest. */
  function StripLeft(s: string): (r: string)
    ensures |r| <= |s|
    ensures r == [] || !IsSpace(r[0])
  {
    if |s| > 0 && IsSpace(s[0]) then StripLeft(s[1..]) else s
  }

  /** `lstrip` keeps a suffix and drops only whitespace. */
  lemma {:induction false} StripLeftDropsSpace(s: string)
    ensures StripLeft(s) == s[|s| - |StripLeft(s)|..]
    ensures AllSpace(s[..|s| - |StripLeft(s)|])
  {
    if |s| > 0 && IsSpace(s[0]) {
      StripLeftDropsSpace(s[1..]);
      assert s[..|s| - |StripLeft(s)|] == [s[0]] + s[1..][..|s[1..]| - |StripLeft(s[1..])|];
    }
  }

  /** `str.rstrip()`: drops the trailing whitespace and keeps the rest. */
  function StripRight(s: string): (r: string)
    ensures |r| <= |s|
    ensures r == [] || !IsSpace(r[|r| - 1])
  {
    if |s| > 0 && IsSpace(s[|s| - 1]) then StripRight(s[..|s| - 1]) else s
  }

  /** `rstrip` keeps a prefix and drops only whitespace. */
  lemma {:induction false} StripRightDropsSpace(s: string)
    ensures StripRight(s) == s[..|StripRight(s)|]
    ensures AllSpace(s[|StripRight(s)|..])
  {
    if |s| > 0 && IsSpace(s[|s| - 1]) {
      StripRightDropsSpace(s[..|s| - 1]);
      assert s[|StripRight(s)|..] == s[..|s| - 1][|StripRight(s[..|s| - 1])|..] + [s[|s| - 1]];
    }
  }

  /** `str.strip()`: the middle of `s` between its leading and trailing whitespace. */
  function Strip(s: string): (r: string)
    ensures IsStripped(r)
    ensures |r| <= |s|
    ensures s == [] ==> r == []
  {
    var l := StripLeft(s);
    var r := StripRight(l);
    StripRightDropsSpace(l);
    assert r != [] ==> r[0] == l[0];
    r
  }

  /** Stripping drops only whitespace: what is left is empty exactly when `s` was all whitespace. */
  lemma StripEmptyIffAllSpace(s: string)
    ensures Strip(s) == [] <==> AllSpace(s)
  {
    var l := StripLeft(s);
    StripLeftDropsSpace(s);
    StripRightDropsSpace(l);
    assert s == s[..|s| - |l|] + l;
    assert Strip(s) == [] ==> AllSpace(l[0..]);
    assert l != [] ==> !IsSpace(s[|s| - |l|]);
  }

  lemma StripOfStripped(s: string)
    requires IsStripped(s)
    ensures Strip(s) == s
  {
  }

  lemma {:induction false} StripLeftOver(a: string, t: string)
    requires AllSpace(a)
    requires t == [] || !IsSpace(t[0])
    ensures StripLeft(a + t) == t
    decreases |a|
  {
    if a != [] {
      assert (a + t)[1..] == a[1..] + t;
      StripLeftOver(a[1..], t);
    }
  }

  lemma {:induction false} StripRightOver(t: string, b: string)
    requires AllSpace(b)
    requires t == [] || !IsSpace(t[|t| - 1])
    ensures StripRight(t + b) == t
    decreases |b|
  {
    if b != [] {
      assert (t + b)[..|t + b| - 1] == t + b[..|b| - 1];
      StripRightOver(t, b[..|b| - 1]);
    }
  }

  /** Whitespace around a stripped text is exactly what `strip` removes. */
  lemma StripPadded(a: string, s: string, b: string)
    requires AllSpace(a) && AllSpace(b) && IsStripped(s) && s != []
    ensures Strip(a + s + b) == s
  {
    assert a + s + b == a + (s + b);
    StripLeftOver(a, s + b);
    StripRightOver(s, b);
  }

  function LowerChar(c: char): char {
    if 'A' <= c <= 'Z' then (c as int + 32) as char else c
  }

  /** `str.lower()` on the ASCII letters: character by character. */
  function Lower(s: string): (r: string)
    ensures |r| == |s|
    ensures forall k :: 0 <= k < |s| ==> r[k] == LowerChar(s[k])
  {
    if s == [] then [] else [LowerChar(s[0])] + Lower(s[1..])
  }

  predicate StartsWith(s: string, prefix: string) {
    |prefix| <= |s| && s[..|prefix|] == prefix
  }

  predicate OccursAt(s: string, i: int, pat: string) {
    0 <= i && i + |pat| <= |s| && s[i..i + |pat|] == pat
  }

  /** `s.find(pat, from)`: the first position at or after `from` where `pat` occurs. */
  function IndexOf(s: string, pat: string, from: nat): (r: Option<nat>)
    ensures r.Some? ==> from <= r.value && OccursAt(s, r.value, pat)
    ensures r.Some? ==> forall k :: from <= k < r.value ==> !OccursAt(s, k, pat)
    ensures r.None? ==> forall k :: from <= k ==> !OccursAt(s, k, pat)
    decreases |s| - from
  {
    if from + |pat| > |s| then None
    else if OccursAt(s, from, pat) then Some(from)
    else IndexOf(s, pat, from + 1)
  }

  /** Python's `pat in s`: `pat` starts at some position of `s` (the empty pattern everywhere). */
  predicate Contains(s: string, pat: string)
    decreases |s|
  {
    StartsWith(s, pat) || (s != [] && Contains(s[1..], pat))
  }

  /** An occurrence at any position makes `s` contain `pat`. */
  lemma {:induction false} ContainsAt(s: string, pat: string, i: nat)
    requires OccursAt(s, i, pat)
    ensures Contains(s, pat)
    decreases i
  {
    if i > 0 {
      assert s[1..][i - 1..i - 1 + |pat|] == s[i..i + |pat|];
      ContainsAt(s[1..], pat, i - 1);
    }
  }

  /** `pat in s` holds exactly when `find` finds it. */
  lemma {:induction false} ContainsIffFound(s: string, pat: string)
    ensures Contains(s, pat) <==> IndexOf(s, pat, 0).Some?
    decreases |s|
  {
    var r := IndexOf(s, pat, 0);
    if r.Some? {
      ContainsAt(s, pat, r.value);
    } else if Contains(s, pat) {
      ContainsFound(s, pat);
    }
  }

  /** A text containing `pat` has it at some position. */
  lemma {:induction false} ContainsFound(s: string, pat: string)
    requires Contains(s, pat)
    ensures IndexOf(s, pat, 0).Some?
    decreases |s|
  {
    if !StartsWith(s, pat) {
      ContainsFound(s[1..], pat);
      var j := IndexOf(s[1..], pat, 0).value;
      assert s[j + 1..j + 1 + |pat|] == s[1..][j..j + |pat|];
      assert OccursAt(s, j + 1, pat);
    } else {
      assert OccursAt(s, 0, pat);
    }
  }

  /** `pat` occurs in any text that embeds it between two other pieces. */
  lemma ContainsMiddle(a: string, pat: string, b: string)
    ensures Contains(a + pat + b, pat)
  {
    assert (a + pat + b)[|a|..|a| + |pat|] == pat;
    ContainsAt(a + pat + b, pat, |a|);
  }

  /** Appending text after `s` keeps what `s` contains. */
  lemma ContainsInLeft(a: string, b: string, pat: string)
    requires Contains(a, pat)
    ensures Contains(a + b, pat)
  {
    ContainsFound(a, pat);
    var j := IndexOf(a, pat, 0).value;
    assert (a + b)[j..j + |pat|] == a[j..j + |pat|];
    ContainsAt(a + b, pat, j);
  }

  /** Putting text before `b` keeps what `b` contains. */
  lemma ContainsInRight(a: string, b: string, pat: string)
    requires Contains(b, pat)
    ensures Contains(a + b, pat)
  {
    ContainsFound(b, pat);
    var j := IndexOf(b, pat, 0).value;
    assert (a + b)[|a| + j..|a| + j + |pat|] == b[j..j + |pat|];
    ContainsAt(a + b, pat, |a| + j);
  }

  /** A text starts with any piece it is built from first. */
  lemma StartsWithAppend(a: string, b: string)
    ensures StartsWith(a + b, a)
  {
    assert (a + b)[..|a|] == a;
  }

  /** Appending text keeps a prefix a prefix. */
  lemma StartsWithExtend(s: string, prefix: string, b: string)
    requires StartsWith(s, prefix)
    ensures StartsWith(s + b, prefix)
  {
    assert (s + b)[..|prefix|] == s[..|prefix|];
  }

  /** `s.endswith(suffix)`. */
  predicate EndsWith(s: string, suffix: string) {
    |suffix| <= |s| && s[|s| - |suffix|..] == suffix
  }

  /** A text ends with the piece it is built from last. */
  lemma EndsWithAppend(a: string, b: string)
    ensures EndsWith(a + b, b)
  {
    assert (a + b)[|a|..] == b;
  }

  /** A text contains the piece it starts with. */
  lemma StartsWithContains(s: string, pat: string)
    requires StartsWith(s, pat)
    ensures Contains(s, pat)
  {
  }

  /** The first index at or after `from` holding `c`, or `|s|` when there is none. */
  function CharIndex(s: string, c: char, from: nat): (r: nat)
    requires from <= |s|
    ensures from <= r <= |s|
    ensures r < |s| ==> s[r] == c
    ensures forall k :: from <= k < r ==> s[k] != c
    decreases |s| - from
  {
    if from == |s| || s[from] == c then from else CharIndex(s, c, from + 1)
  }

  /** `s.split(sep)` for a one-character separator. */
  function Split(s: string, sep: char): (parts: seq<string>)
    ensures |parts| >= 1
    ensures forall k :: 0 <= k < |parts| ==> sep !in parts[k]
    decreases |s|
  {
    var i := CharIndex(s, sep, 0);
    if i == |s| then
      assert forall k :: 0 <= k < |s| ==> s[k] != sep;
      [s]
    else
      var head := s[..i];
      assert forall k :: 0 <= k < |head| ==> head[k] != sep;
      [head] + Split(s[i + 1..], sep)
  }

  /** `sep.join(parts)`. */
  function Join(sep: string, parts: seq<string>): string
  {
    if parts == [] then ""
    else if |parts| == 1 then parts[0]
    else parts[0] + sep + Join(sep, parts[1..])
  }

  /** Every part appears in the joined text. */
  lemma {:induction false} JoinHas(sep: string, parts: seq<string>, k: nat)
    requires k < |parts|
    ensures Contains(Join(sep, parts), parts[k])
    decreases |parts|
  {
    if |parts| == 1 {
      StartsWithContains(parts[0], parts[0]);
    } else if k == 0 {
      StartsWithAppend(parts[0], sep + Join(sep, parts[1..]));
      assert parts[0] + (sep + Join(sep, parts[1..])) == Join(sep, parts);
    } else {
      JoinHas(sep, parts[1..], k - 1);
      ContainsInRight(parts[0] + sep, Join(sep, parts[1..]), parts[k]);
    }
  }

  /** Containment is transitive. */
  lemma ContainsTrans(s: string, t: string, pat: string)
    requires Contains(s, t) && Contains(t, pat)
    ensures Contains(s, pat)
  {
    ContainsFound(s, t);
    ContainsFound(t, pat);
    var i := IndexOf(s, t, 0).value;
    var j := IndexOf(t, pat, 0).value;
    assert OccursAt(s, i, t) && OccursAt(t, j, pat);
    SliceOfSlice(s, i, i + |t|, j, j + |pat|);
    ContainsAt(s, pat, i + j);
  }

  /** A slice of a slice is a slice of the whole. */
  lemma SliceOfSlice(s: string, lo: nat, hi: nat, a: nat, b: nat)
    requires lo <= hi <= |s| && a <= b <= hi - lo
    ensures s[lo..hi][a..b] == s[lo + a..lo + b]
  {
    forall k | 0 <= k < b - a ensures s[lo..hi][a..b][k] == s[lo + a..lo + b][k] {
      assert s[lo..hi][a..b][k] == s[lo..hi][a + k] == s[lo + a + k];
    }
  }

  /** A slice that lies in one part of a concatenation is a slice of that part. */
  lemma SliceOfAppend(a: string, b: string, i: nat, j: nat)
    requires i <= j <= |a| + |b|
    ensures j <= |a| ==> (a + b)[i..j] == a[i..j]
    ensures |a| <= i ==> (a + b)[i..j] == b[i - |a|..j - |a|]
  {
  }

  /** A common first piece keeps a prefix a prefix. */
  lemma StartsWithPrepend(a: string, s: string, prefix: string)
    requires StartsWith(s, prefix)
    ensures StartsWith(a + s, a + prefix)
  {
    assert (a + s)[..|a + prefix|] == a + s[..|prefix|];
  }

  /** Joining three parts puts the separator between neighbours. */
  lemma JoinThree(sep: string, a: string, b: string, c: string)
    ensures Join(sep, [a, b, c]) == a + sep + b + sep + c
  {
    assert [a, b, c][1..] == [b, c];
    assert [b, c][1..] == [c];
    assert Join(sep, [b, c]) == b + sep + c;
    assert a + sep + (b + sep + c) == a + sep + b + sep + c;
  }

  /** Joining the first parts gives a prefix of joining them all. */
  lemma {:induction false} JoinPrefix(sep: string, parts: seq<string>, j: nat)
    requires 1 <= j <= |parts|
    ensures StartsWith(Join(sep, parts), Join(sep, parts[..j]))
    decreases j
  {
    if j == 1 {
      assert parts[..1] == [parts[0]];
      if |parts| > 1 {
        StartsWithAppend(parts[0], sep + Join(sep, parts[1..]));
        assert parts[0] + (sep + Join(sep, parts[1..])) == Join(sep, parts);
      }
    } else {
      var rest := parts[1..];
      JoinPrefix(sep, rest, j - 1);
      assert parts[..j][1..] == rest[..j - 1];
      StartsWithPrepend(parts[0] + sep, Join(sep, rest), Join(sep, rest[..j - 1]));
    }
  }

  /** Joining a run of consecutive parts gives a piece of joining them all. */
  lemma {:induction false} JoinSlice(sep: string, parts: seq<string>, i: nat, j: nat)
    requires i < j <= |parts|
    ensures Contains(Join(sep, parts), Join(sep, parts[i..j]))
    decreases i
  {
    if i == 0 {
      JoinPrefix(sep, parts, j);
      assert parts[0..j] == parts[..j];
    } else {
      var rest := parts[1..];
      JoinSlice(sep, rest, i - 1, j - 1);
      assert rest[i - 1..j - 1] == parts[i..j];
      ContainsInRight(parts[0] + sep, Join(sep, rest), Join(sep, parts[i..j]));
    }
  }

  /** Splitting and joining back with the same separator gives the text back. */
  lemma {:induction false} JoinSplit(s: string, sep: char)
    ensures Join([sep], Split(s, sep)) == s
    decreases |s|
  {
    var i := CharIndex(s, sep, 0);
    if i < |s| {
      var head, rest := s[..i], s[i + 1..];
      var parts, tail := Split(s, sep), Split(rest, sep);
      assert parts == [head] + tail;
      assert parts[0] == head && parts[1..] == tail;
      assert Join([sep], parts) == head + [sep] + Join([sep], tail);
      JoinSplit(rest, sep);
      assert s == head + [sep] + rest;
    } else {
      assert Split(s, sep) == [s];
    }
  }

  /** `s.replace(pat, rep)`: every non-overlapping occurrence, scanning from the left. */
  function ReplaceAll(s: string, pat: string, rep: string): (r: string)
    requires |pat| > 0
    ensures rep == [] ==> |r| <= |s|
    ensures !Contains(s, pat) ==> r == s
    decreases |s|
  {
    if |s| < |pat| then s
    else if s[..|pat|] == pat then rep + ReplaceAll(s[|pat|..], pat, rep)
    else [s[0]] + ReplaceAll(s[1..], pat, rep)
  }

  /** The value of a decimal digit (0 for any other character, which no caller passes). */
  function DigitValue(c: char): nat {
    if IsDigit(c) then c as int - '0' as int else 0
  }

  function DigitChar(d: nat): (c: char)
    requires d < 10
    ensures IsDigit(c) && DigitValue(c) == d
  {
    ('0' as int + d) as char
  }

  /** The number a run of decimal digits denotes. */
  function DigitsValue(ds: string): nat {
    if ds == [] then 0 else DigitsValue(ds[..|ds| - 1]) * 10 + DigitValue(ds[|ds| - 1])
  }

  /** `str(n)` for a natural number: its decimal digits, with no leading zero. */
  function NatText(n: nat): (r: string)
    ensures |r| >= 1
  {
    if n < 10 then
      var r := [DigitChar(n)];
      assert r[..|r| - 1] == [];
      r
    else
      var r := NatText(n / 10) + [DigitChar(n % 10)];
      assert r[..|r| - 1] == NatText(n / 10);
      r
  }

  /** `str(n)` is all digits, denotes `n`, and starts with `0` only for zero. */
  lemma {:induction false} NatTextDigits(n: nat)
    ensures AllDigits(NatText(n))
    ensures DigitsValue(NatText(n)) == n
    ensures NatText(n)[0] == '0' ==> n == 0
  {
    var r := NatText(n);
    if n >= 10 {
      NatTextDigits(n / 10);
      assert r[..|r| - 1] == NatText(n / 10);
    } else {
      assert r[..|r| - 1] == [];
    }
  }

  function Pow10(k: nat): (p: nat)
    ensures p >= 1
  {
    if k == 0 then 1 else 10 * Pow10(k - 1)
  }

  /** The length of the run of digits that starts at position `i`. */
  function DigitRun(s: string, i: nat): (n: nat)
    requires i <= |s|
    ensures i + n <= |s|
    ensures i + n == |s| || !IsDigit(s[i + n])
    decreases |s| - i
  {
    if i < |s| && IsDigit(s[i]) then 1 + DigitRun(s, i + 1) else 0
  }

  lemma {:induction false} DigitRunDigits(s: string, i: nat)
    requires i <= |s|
    ensures AllDigits(s[i..i + DigitRun(s, i)])
    decreases |s| - i
  {
    if i < |s| && IsDigit(s[i]) {
      DigitRunDigits(s, i + 1);
      assert s[i..i + DigitRun(s, i)] == [s[i]] + s[i + 1..i + 1 + DigitRun(s, i + 1)];
    }
  }

  /** The length of the run of whitespace that starts at position `i`. */
  function SpaceRun(s: string, i: nat): (n: nat)
    requires i <= |s|
    ensures i + n <= |s|
    ensures i + n == |s| || !IsSpace(s[i + n])
    decreases |s| - i
  {
    if i < |s| && IsSpace(s[i]) then 1 + SpaceRun(s, i + 1) else 0
  }

  lemma {:induction false} SpaceRunSpaces(s: string, i: nat)
    requires i <= |s|
    ensures AllSpace(s[i..i + SpaceRun(s, i)])
    decreases |s| - i
  {
    if i < |s| && IsSpace(s[i]) {
      SpaceRunSpaces(s, i + 1);
      assert s[i..i + SpaceRun(s, i)] == [s[i]] + s[i + 1..i + 1 + SpaceRun(s, i + 1)];
    }
  }

  lemma {:induction false} DigitRunOver(s: string, i: nat, n: nat)
    requires i + n <= |s| && AllDigits(s[i..i + n])
    requires i + n == |s| || !IsDigit(s[i + n])
    ensures DigitRun(s, i) == n
    decreases n
  {
    if n > 0 {
      assert IsDigit(s[i..i + n][0]);
      assert s[i + 1..i + n] == s[i..i + n][1..];
      DigitRunOver(s, i + 1, n - 1);
    }
  }

  lemma {:induction false} SpaceRunOver(s: string, i: nat, n: nat)
    requires i + n <= |s| && AllSpace(s[i..i + n])
    requires i + n == |s| || !IsSpace(s[i + n])
    ensures SpaceRun(s, i) == n
    decreases n
  {
    if n > 0 {
      assert IsSpace(s[i..i + n][0]);
      assert s[i + 1..i + n] == s[i..i + n][1..];
      SpaceRunOver(s, i + 1, n - 1);
    }
  }

  lemma {:induction false} CharIndexAt(s: string, c: char, from: nat, p: nat)
    requires from <= p <= |s|
    requires p == |s| || s[p] == c
    requires forall k :: from <= k < p ==> s[k] != c
    ensures CharIndex(s, c, from) == p
    decreases p - from
  {
    if from < p {
      CharIndexAt(s, c, from + 1, p);
    }
  }

  /** A token of the regular expression `\d+(?:\.\d+)?`. */
  predicate IsNumberToken(t: string) {
    var i := CharIndex(t, '.', 0);
    0 < i && AllDigits(t[..i]) && (i == |t| || (i + 1 < |t| && AllDigits(t[i + 1..])))
  }

  /**
   * The exact value of a number token, as `Decimal(token)` gives it: the
   * digits with the `.` dropped are the coefficient, and the digits after
   * the `.` count the negative exponent, so "10.5" is 105 / 10.
   */
  function TokenValue(t: string): (v: real)
    ensures v >= 0.0
    ensures CharIndex(t, '.', 0) == |t| ==> v == DigitsValue(t) as real
  {
    var i := CharIndex(t, '.', 0);
    if i == |t| then
      assert t[..i] + t[i..] == t;
      DigitsValue(t) as real
    else
      DigitsValue(t[..i] + t[i + 1..]) as real / Pow10(|t| - i - 1) as real
  }

  /** A token with a `.` reads positionally: its whole digits plus its fraction digits over a power of ten. */
  lemma TokenPositional(whole: string, fraction: string)
    requires |whole| > 0 && AllDigits(whole) && |fraction| > 0 && AllDigits(fraction)
    ensures TokenValue(whole + ['.'] + fraction)
      == DigitsValue(whole) as real + DigitsValue(fraction) as real / Pow10(|fraction|) as real
  {
    TokenOfParts(whole, fraction);
    DigitsValueAppend(whole, fraction);
    Unscale(DigitsValue(whole), DigitsValue(fraction), Pow10(|fraction|), DigitsValue(whole + fraction));
  }

  /** A token `whole.fraction` is its digits without the `.`, scaled down by the fraction digits. */
  lemma TokenOfParts(whole: string, fraction: string)
    requires |whole| > 0 && AllDigits(whole) && |fraction| > 0 && AllDigits(fraction)
    ensures TokenValue(whole + ['.'] + fraction) == DigitsValue(whole + fraction) as real / Pow10(|fraction|) as real
  {
    var t := whole + ['.'] + fraction;
    DecimalToken(whole, fraction);
    TokenValueAt(t, |whole|);
    assert t[..|whole|] == whole;
    assert t[|whole| + 1..] == fraction;
  }

  /** A token whose first `.` stands at `i` is its digits without the `.`, scaled down by the digits after it. */
  lemma TokenValueAt(t: string, i: nat)
    requires i < |t| && CharIndex(t, '.', 0) == i
    ensures TokenValue(t) == DigitsValue(t[..i] + t[i + 1..]) as real / Pow10(|t| - i - 1) as real
  {
  }

  /** `(x * p + y) / p` is `x + y / p` for whole numbers read as reals. */
  lemma Unscale(x: nat, y: nat, p: nat, z: nat)
    requires p >= 1 && z == x * p + y
    ensures z as real / p as real == x as real + y as real / p as real
  {
    var q := p as real;
    assert (x * p) as real == x as real * q;
    assert (x as real * q) / q == x as real;
  }

  /** "10.5" reads as ten and a half. */
  lemma TenAndAHalf()
    ensures IsNumberToken("10.5") && TokenValue("10.5") == 10.5
  {
    NatTextDigits(10);
    NatTextDigits(5);
    DecimalToken(NatText(10), NatText(5));
    TokenPositional(NatText(10), NatText(5));
    assert NatText(10) + ['.'] + NatText(5) == "10.5";
  }

  /** Appending digits shifts the value of the first ones by a power of ten. */
  lemma {:induction false} DigitsValueAppend(a: string, b: string)
    ensures DigitsValue(a + b) == DigitsValue(a) * Pow10(|b|) + DigitsValue(b)
    decreases |b|
  {
    if b != [] {
      var b' := b[..|b| - 1];
      DigitsValueAppend(a, b');
      assert (a + b)[..|a + b| - 1] == a + b';
      assert (a + b)[|a + b| - 1] == b[|b| - 1];
      var x, y, d, q := DigitsValue(a), DigitsValue(b'), DigitValue(b[|b| - 1]), Pow10(|b'|);
      calc {
        DigitsValue(a + b);
        DigitsValue(a + b') * 10 + d;
        (x * q + y) * 10 + d;
        x * (q * 10) + (y * 10 + d);
        x * Pow10(|b|) + DigitsValue(b);
      }
    } else {
      assert a + b == a;
    }
  }

  /** `Decimal(str(n))` is `n`, and so is the token `str(n) + ".0"`. */
  lemma NatTokenValue(n: nat)
    ensures IsNumberToken(NatText(n)) && TokenValue(NatText(n)) == n as real
    ensures IsNumberToken(NatText(n) + ".0") && TokenValue(NatText(n) + ".0") == n as real
  {
    var t := NatText(n);
    NatTextDigits(n);
    NoDotInDigits(t);
    CharIndexAt(t, '.', 0, |t|);
    assert t[..|t|] == t;
    PointZero(t);
  }

  /** Digits followed by `.0` are a number token worth the digits. */
  lemma PointZero(t: string)
    requires |t| > 0 && AllDigits(t)
    ensures IsNumberToken(t + ".0") && TokenValue(t + ".0") == DigitsValue(t) as real
  {
    var zero := "0";
    var u := t + ['.'] + zero;
    assert t + ".0" == u;
    assert DigitsValue(zero) == 0 && |zero| == 1;
    DecimalToken(t, zero);
    TokenPositional(t, zero);
    assert TokenValue(u) == DigitsValue(t) as real + 0.0 / Pow10(1) as real;
  }

  /**
   * Where the longest number token that starts at `i` ends, or `i` when no
   * digit stands there: the greedy match of `\d+(?:\.\d+)?` at `i`.
   */
  function NumberEnd(s: string, i: nat): (e: nat)
    requires i <= |s|
    ensures i <= e <= |s|
    ensures e > i <==> i < |s| && IsDigit(s[i])
  {
    var d := DigitRun(s, i);
    if d == 0 then i
    else if i + d + 1 < |s| && s[i + d] == '.' && IsDigit(s[i + d + 1]) then i + d + 1 + DigitRun(s, i + d + 1)
    else i + d
  }

  /**
   * What `NumberEnd` finds is a number token that cannot be extended: no
   * digit follows it, and a following `.` is not followed by a digit unless
   * the token already has its fraction.
   */
  lemma NumberEndToken(s: string, i: nat)
    requires i <= |s| && NumberEnd(s, i) > i
    ensures IsNumberToken(s[i..NumberEnd(s, i)])
    ensures var e := NumberEnd(s, i); e == |s| || !IsDigit(s[e])
    ensures var e := NumberEnd(s, i);
      e == |s| || s[e] != '.' || e + 1 == |s| || !IsDigit(s[e + 1]) || CharIndex(s[i..e], '.', 0) < e - i
  {
    var d := DigitRun(s, i);
    if i + d + 1 < |s| && s[i + d] == '.' && IsDigit(s[i + d + 1]) {
      FractionToken(s, i, d);
    } else {
      WholeToken(s, i);
    }
  }

  /** Digits hold no `.`. */
  lemma NoDotInDigits(t: string)
    requires AllDigits(t)
    ensures forall k :: 0 <= k < |t| ==> t[k] != '.'
  {
  }

  /** Digits, a `.` and digits form a number token whose `.` follows the first digits. */
  lemma DecimalToken(whole: string, fraction: string)
    requires |whole| > 0 && AllDigits(whole) && |fraction| > 0 && AllDigits(fraction)
    ensures IsNumberToken(whole + ['.'] + fraction)
    ensures CharIndex(whole + ['.'] + fraction, '.', 0) == |whole|
  {
    var t := whole + ['.'] + fraction;
    NoDotInDigits(whole);
    CharIndexAt(t, '.', 0, |whole|);
    assert t[..|whole|] == whole && t[|whole| + 1..] == fraction;
  }

  /** A run of digits is a number token without a `.`. */
  lemma WholeToken(s: string, i: nat)
    requires i <= |s| && DigitRun(s, i) > 0
    ensures IsNumberToken(s[i..i + DigitRun(s, i)])
    ensures CharIndex(s[i..i + DigitRun(s, i)], '.', 0) == DigitRun(s, i)
  {
    var d := DigitRun(s, i);
    var t := s[i..i + d];
    DigitRunDigits(s, i);
    NoDotInDigits(t);
    CharIndexAt(t, '.', 0, d);
    assert t[..d] == t;
  }

  /** A run of digits, a `.` and another run of digits form a number token with its `.` after the first run. */
  lemma FractionToken(s: string, i: nat, d: nat)
    requires i <= |s| && d == DigitRun(s, i) > 0
    requires i + d + 1 < |s| && s[i + d] == '.' && IsDigit(s[i + d + 1])
    ensures var e := i + d + 1 + DigitRun(s, i + d + 1);
      IsNumberToken(s[i..e]) && CharIndex(s[i..e], '.', 0) == d
  {
    var f := DigitRun(s, i + d + 1);
    var t := s[i..i + d + 1 + f];
    var whole, fraction := s[i..i + d], s[i + d + 1..i + d + 1 + f];
    DigitRunDigits(s, i);
    DigitRunDigits(s, i + d + 1);
    assert t == whole + ['.'] + fraction;
    DecimalToken(whole, fraction);
  }

  /** A number token standing at `i` and not followed by a digit or a `.` is what `NumberEnd` finds. */
  lemma NumberEndOver(s: string, i: nat, t: string)
    requires IsNumberToken(t)
    requires i + |t| <= |s| && s[i..i + |t|] == t
    requires i + |t| == |s| || (!IsDigit(s[i + |t|]) && s[i + |t|] != '.')
    ensures NumberEnd(s, i) == i + |t|
  {
    var p := CharIndex(t, '.', 0);
    assert s[i..i + p] == t[..p];
    if p == |t| {
      DigitRunOver(s, i, p);
    } else {
      assert s[i + p] == t[p] == '.';
      DigitRunOver(s, i, p);
      assert IsDigit(t[p + 1..][0]);
      assert s[i + p + 1..i + |t|] == t[p + 1..];
      DigitRunOver(s, i + p + 1, |t| - p - 1);
    }
  }

  /** Case-aware equality of two characters; `ignoreCase` is the regular expression flag `IGNORECASE`. */
  predicate CharMatches(c: char, w: char, ignoreCase: bool) {
    if ignoreCase then LowerChar(c) == LowerChar(w) else c == w
  }

  /** The literal word `w` stands in `s` at position `i`. */
  predicate WordAt(s: string, i: nat, w: string, ignoreCase: bool) {
    i + |w| <= |s| && forall k :: 0 <= k < |w| ==> CharMatches(s[i + k], w[k], ignoreCase)
  }

  /**
   * Where the unit word `(?:points?|pts?|marks?)` that starts at `i` ends
   * (the optional `s` taken greedily), or `i` when there is none.
   */
  function UnitEnd(s: string, i: nat, ignoreCase: bool): (e: nat)
    requires i <= |s|
    ensures i <= e <= |s|
  {
    var base :=
      if WordAt(s, i, "point", ignoreCase) then i + 5
      else if WordAt(s, i, "pt", ignoreCase) then i + 2
      else if WordAt(s, i, "mark", ignoreCase) then i + 4
      else i;
    if base == i then i
    else if WordAt(s, base, "s", ignoreCase) then base + 1
    else base
  }

  /** One of the unit words `point`, `points`, `pt`, `pts`, `mark` and `marks`, in any mix of cases. */
  predicate IsUnitWord(w: string) {
    var l := Lower(w);
    l == "point" || l == "points" || l == "pt" || l == "pts" || l == "mark" || l == "marks"
  }

  /** The characters of `s` from `u` on lower-case to `l`. */
  predicate LowersTo(s: string, u: nat, l: string) {
    u + |l| <= |s| && forall k :: 0 <= k < |l| ==> LowerChar(s[u + k]) == l[k]
  }

  /**
   * With `IGNORECASE`, a unit word in any case that is not followed by an
   * `s` is matched whole by `(?:points?|pts?|marks?)`.
   */
  lemma UnitEndWord(s: string, u: nat, w: string)
    requires IsUnitWord(w) && u + |w| <= |s| && s[u..u + |w|] == w
    requires u + |w| == |s| || LowerChar(s[u + |w|]) != 's'
    ensures UnitEnd(s, u, true) == u + |w|
  {
    var l := Lower(w);
    forall k | 0 <= k < |w| ensures LowerChar(s[u + k]) == l[k] {
      assert s[u + k] == s[u..u + |w|][k];
    }
    assert LowersTo(s, u, l);
    if l == "point" || l == "points" {
      UnitEndPoint(s, u, l);
    } else if l == "pt" || l == "pts" {
      UnitEndPt(s, u, l);
    } else {
      UnitEndMark(s, u, l);
    }
  }

  lemma UnitEndPoint(s: string, u: nat, l: string)
    requires LowersTo(s, u, l) && (l == "point" || l == "points")
    requires u + |l| == |s| || LowerChar(s[u + |l|]) != 's'
    ensures UnitEnd(s, u, true) == u + |l|
  {
    forall k | 0 <= k < 5 ensures CharMatches(s[u + k], "point"[k], true) {
      assert LowerChar(s[u + k]) == l[k];
    }
    if l == "points" {
      assert LowerChar(s[u + 5]) == l[5];
      assert WordAt(s, u + 5, "s", true);
    } else if u + 5 < |s| {
      assert !CharMatches(s[u + 5], "s"[0], true);
    }
  }

  lemma UnitEndPt(s: string, u: nat, l: string)
    requires LowersTo(s, u, l) && (l == "pt" || l == "pts")
    requires u + |l| == |s| || LowerChar(s[u + |l|]) != 's'
    ensures UnitEnd(s, u, true) == u + |l|
  {
    assert LowerChar(s[u]) == l[0] && LowerChar(s[u + 1]) == l[1];
    assert !WordAt(s, u, "point", true) by {
      assert !CharMatches(s[u + 1], "point"[1], true);
    }
    assert WordAt(s, u, "pt", true);
    if l == "pts" {
      assert LowerChar(s[u + 2]) == l[2];
      assert WordAt(s, u + 2, "s", true);
    } else if u + 2 < |s| {
      assert !CharMatches(s[u + 2], "s"[0], true);
    }
  }

  lemma UnitEndMark(s: string, u: nat, l: string)
    requires LowersTo(s, u, l) && (l == "mark" || l == "marks")
    requires u + |l| == |s| || LowerChar(s[u + |l|]) != 's'
    ensures UnitEnd(s, u, true) == u + |l|
  {
    assert LowerChar(s[u]) == l[0];
    assert !WordAt(s, u, "point", true) by {
      assert !CharMatches(s[u], "point"[0], true);
    }
    assert !WordAt(s, u, "pt", true) by {
      assert !CharMatches(s[u], "pt"[0], true);
    }
    forall k | 0 <= k < 4 ensures CharMatches(s[u + k], "mark"[k], true) {
      assert LowerChar(s[u + k]) == l[k];
    }
    if l == "marks" {
      assert LowerChar(s[u + 4]) == l[4];
      assert WordAt(s, u + 4, "s", true);
    } else if u + 4 < |s| {
      assert !CharMatches(s[u + 4], "s"[0], true);
    }
  }


  /** Python's ordering of strings: code point by code point, a proper prefix first. */
  predicate LexLess(a: string, b: string) {
    if a == [] then b != []
    else if b == [] then false
    else if a[0] != b[0] then a[0] < b[0]
    else LexLess(a[1..], b[1..])
  }

  lemma {:induction false} LexLessIrreflexive(a: string)
    ensures !LexLess(a, a)
  {
    if a != [] {
      LexLessIrreflexive(a[1..]);
    }
  }

  lemma {:induction false} LexLessTransitive(a: string, b: string, c: string)
    requires LexLess(a, b) && LexLess(b, c)
    ensures LexLess(a, c)
  {
    if a != [] && b != [] && c != [] && a[0] == b[0] && b[0] == c[0] {
      LexLessTransitive(a[1..], b[1..], c[1..]);
    }
  }

  lemma {:induction false} LexLessTotal(a: string, b: string)
    requires a != b
    ensures LexLess(a, b) || LexLess(b, a)
  {
    if a != [] && b != [] && a[0] == b[0] {
      assert a == [a[0]] + a[1..] && b == [b[0]] + b[1..];
      LexLessTotal(a[1..], b[1..]);
    }
  }
}
