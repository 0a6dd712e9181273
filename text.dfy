/**
 * The JavaScript string primitives the watcher relies on, as total functions on `string`:
 * ASCII case mapping, `includes`, `split` on one character, `join`, `trim`, decimal
 * rendering of a number inside a template string, and `parseInt(s, 10)`.
 */
module Text {
  import opened Wrappers

  // ---------------------------------------------------------------------------
  // Case mapping (ASCII letters only)
  // ---------------------------------------------------------------------------

  predicate IsUpperAscii(c: char) { 'A' <= c <= 'Z' }

  predicate IsLowerAscii(c: char) { 'a' <= c <= 'z' }

  function LowerChar(c: char): char {
    if IsUpperAscii(c) then (c as int + 32) as char else c
  }

  function UpperChar(c: char): char {
    if IsLowerAscii(c) then (c as int - 32) as char else c
  }

  /**
   * `s.toLowerCase()`, on ASCII letters: no upper-case letter is left, every other character
   * stays as it is, and each character keeps its letter, only its case may change.
   */
  function Lower(s: string): (r: string)
    ensures |r| == |s|
    ensures forall i :: 0 <= i < |s| ==> !IsUpperAscii(r[i])
    ensures forall i :: 0 <= i < |s| ==> IsUpperAscii(s[i]) || r[i] == s[i]
    ensures forall i :: 0 <= i < |s| ==> UpperChar(r[i]) == UpperChar(s[i])
  {
    seq(|s|, i requires 0 <= i < |s| => LowerChar(s[i]))
  }

  /**
   * `s.toUpperCase()`, on ASCII letters: no lower-case letter is left, every other character
   * stays as it is, and each character keeps its letter, only its case may change.
   */
  function Upper(s: string): (r: string)
    ensures |r| == |s|
    ensures forall i :: 0 <= i < |s| ==> !IsLowerAscii(r[i])
    ensures forall i :: 0 <= i < |s| ==> IsLowerAscii(s[i]) || r[i] == s[i]
    ensures forall i :: 0 <= i < |s| ==> LowerChar(r[i]) == LowerChar(s[i])
  {
    seq(|s|, i requires 0 <= i < |s| => UpperChar(s[i]))
  }

  /**
   * `s.replace(/a/g, b)` for a single character `a`: every `a` becomes `b`, so none is left
   * when the two differ, and every other character stays where it was.
   */
  function ReplaceChar(s: string, a: char, b: char): (r: string)
    ensures |r| == |s|
    ensures a != b ==> a !in r
    ensures forall i :: 0 <= i < |s| && s[i] != a ==> r[i] == s[i]
    ensures forall i :: 0 <= i < |s| && s[i] == a ==> r[i] == b
  {
    seq(|s|, i requires 0 <= i < |s| => if s[i] == a then b else s[i])
  }

  // ---------------------------------------------------------------------------
  // Substring search: `s.includes(t)`
  // ---------------------------------------------------------------------------

  /** `t` occurs in `s` at index `i`. */
  predicate OccursAt(s: string, t: string, i: int) {
    0 <= i && i + |t| <= |s| && s[i..i + |t|] == t
  }

  /** `s.includes(t)`: `t` is a prefix of `s` or of one of its suffixes. */
  predicate Contains(s: string, t: string)
    decreases |s|
  {
    t <= s || (|s| > 0 && Contains(s[1..], t))
  }

  /** The search agrees with the definition of a substring: some index where `t` occurs. */
  lemma {:induction false} ContainsIff(s: string, t: string)
    ensures Contains(s, t) <==> exists i :: OccursAt(s, t, i)
    decreases |s|
  {
    OccursAtStart(s, t);
    if t <= s {
    } else if |s| == 0 {
      assert forall i :: !OccursAt(s, t, i);
    } else {
      ContainsIff(s[1..], t);
      if exists i :: OccursAt(s[1..], t, i) {
        var i :| OccursAt(s[1..], t, i);
        OccursShift(s, t, i);
      }
      if exists i :: OccursAt(s, t, i) {
        var i :| OccursAt(s, t, i);
        OccursShift(s, t, i - 1);
      }
    }
  }

  /** An occurrence in the tail is an occurrence one place further on in the whole. */
  lemma OccursShift(s: string, t: string, i: int)
    requires |s| > 0 && i >= 0
    ensures OccursAt(s[1..], t, i) <==> OccursAt(s, t, i + 1)
  {
    if i + 1 + |t| <= |s| {
      assert s[1..][i..i + |t|] == s[i + 1..i + 1 + |t|];
    }
  }

  /** Occurring at index 0 is being a prefix. */
  lemma OccursAtStart(s: string, t: string)
    ensures OccursAt(s, t, 0) <==> t <= s
  {
    if |t| <= |s| {
      assert s[0..|t|] == s[..|t|];
    }
  }

  // ---------------------------------------------------------------------------
  // `s.split(c)` and `xs.join(sep)`
  // ---------------------------------------------------------------------------

  /**
   * `s.split(c)` for a one-character separator: the maximal runs between separators,
   * so `""` gives `[""]` and a separator at either end gives an empty first or last field.
   */
  function Split(s: string, c: char): (r: seq<string>)
    ensures |r| >= 1
    ensures forall f :: f in r ==> c !in f
    decreases |s|
  {
    if s == [] then [""]
    else
      var rest := Split(s[1..], c);
      if s[0] == c then [""] + rest else [[s[0]] + rest[0]] + rest[1..]
  }

  /** `xs.join(sep)`. */
  function Join(xs: seq<string>, sep: string): string
    decreases |xs|
  {
    if |xs| == 0 then "" else if |xs| == 1 then xs[0] else xs[0] + sep + Join(xs[1..], sep)
  }

  /** The text of `s` before its first `c`, or all of `s` when it has none. */
  function Before(s: string, c: char): (r: string)
    ensures r <= s && c !in r
    ensures |r| == |s| || s[|r|] == c
    decreases |s|
  {
    if s == [] || s[0] == c then [] else [s[0]] + Before(s[1..], c)
  }

  /**
   * The text before the first `c`, the `c`, and the text up to the next `c` form a prefix of
   * `s`, followed by the end of `s` or by a further `c`.
   */
  lemma BeforeTwice(s: string, c: char)
    requires c in s
    ensures var a := Before(s, c);
      |a| < |s|
      && var b := Before(s[|a| + 1..], c);
      a + [c] + b <= s && (|a| + 1 + |b| == |s| || s[|a| + 1 + |b|] == c)
  {
    var a := Before(s, c);
    assert |a| < |s|;
    var t := s[|a| + 1..];
    var b := Before(t, c);
    assert a + [c] + b == s[..|a| + 1 + |b|] by {
      assert s[..|a| + 1] == a + [c];
      assert s[..|a| + 1 + |b|] == s[..|a| + 1] + t[..|b|];
    }
  }

  /** The field count grows past one exactly when the separator occurs. */
  lemma {:induction false} SplitHasSecondField(s: string, c: char)
    ensures |Split(s, c)| >= 2 <==> c in s
    decreases |s|
  {
    if s != [] {
      SplitHasSecondField(s[1..], c);
      assert c in s <==> s[0] == c || c in s[1..];
    }
  }

  /** The first field is the text before the first separator; the others split what follows it. */
  lemma {:induction false} SplitHead(s: string, c: char)
    ensures Split(s, c)[0] == Before(s, c)
    ensures c in s ==> |Before(s, c)| < |s| && Split(s, c)[1..] == Split(s[|Before(s, c)| + 1..], c)
    decreases |s|
  {
    if s != [] && s[0] != c {
      SplitHead(s[1..], c);
      assert c in s ==> c in s[1..];
      if c in s {
        assert s[|Before(s, c)| + 1..] == s[1..][|Before(s[1..], c)| + 1..];
      }
    }
  }

  /** A field that contains no separator is split off intact, with the separator after it. */
  lemma {:induction false} SplitAfterField(a: string, c: char, t: string)
    requires c !in a
    ensures Split(a + [c] + t, c) == [a] + Split(t, c)
    decreases |a|
  {
    if a == [] {
      assert (a + [c] + t)[1..] == t;
    } else {
      SplitAfterField(a[1..], c, t);
      assert (a + [c] + t)[1..] == a[1..] + [c] + t;
      assert [a[0]] + a[1..] == a;
    }
  }

  /** Text without the separator is a single field. */
  lemma {:induction false} SplitWithoutSeparator(a: string, c: char)
    requires c !in a
    ensures Split(a, c) == [a]
    decreases |a|
  {
    if a != [] {
      SplitWithoutSeparator(a[1..], c);
      assert [a[0]] + a[1..] == a;
    }
  }

  /** Joining the fields with the separator gives back the original text. */
  lemma {:induction false} JoinSplit(s: string, c: char)
    ensures Join(Split(s, c), [c]) == s
    decreases |s|
  {
    if s != [] {
      var rest := Split(s[1..], c);
      JoinSplit(s[1..], c);
      if s[0] == c {
        assert ([""] + rest)[1..] == rest;
      } else if |rest| >= 2 {
        assert ([[s[0]] + rest[0]] + rest[1..])[1..] == rest[1..];
      }
    }
  }

  /** Splitting separator-free fields joined by the separator gives back the fields. */
  lemma {:induction false} SplitJoin(xs: seq<string>, c: char)
    requires |xs| >= 1
    requires forall x :: x in xs ==> c !in x
    ensures Split(Join(xs, [c]), c) == xs
    decreases |xs|
  {
    if |xs| == 1 {
      SplitWithoutSeparator(xs[0], c);
    } else {
      SplitJoin(xs[1..], c);
      SplitAfterField(xs[0], c, Join(xs[1..], [c]));
      assert [xs[0]] + xs[1..] == xs;
    }
  }

  /** `parts.join('')`: the parts one after another, as repeated `+=` builds them. */
  function Concat(parts: seq<string>): string
    decreases |parts|
  {
    if parts == [] then "" else Concat(parts[..|parts| - 1]) + parts[|parts| - 1]
  }

  /** Concatenating two runs of parts is concatenating their concatenations. */
  lemma {:induction false} ConcatAppend(a: seq<string>, b: seq<string>)
    ensures Concat(a + b) == Concat(a) + Concat(b)
    decreases |b|
  {
    if b == [] {
      assert a + b == a;
    } else {
      var front, last := b[..|b| - 1], b[|b| - 1];
      ConcatAppend(a, front);
      var ab := a + b;
      assert ab[..|ab| - 1] == a + front;
      assert ab[|ab| - 1] == last;
      calc {
        Concat(ab);
        Concat(a + front) + last;
        (Concat(a) + Concat(front)) + last;
        Concat(a) + (Concat(front) + last);
        Concat(a) + Concat(b);
      }
    }
  }

  lemma AppendAssoc(a: string, b: string, c: string)
    ensures (a + b) + c == a + (b + c)
  {
  }

  /** One more part: the concatenation of the first `k + 1` parts extends that of the first `k`. */
  lemma ConcatStep(parts: seq<string>, k: nat)
    requires k < |parts|
    ensures Concat(parts[..k + 1]) == Concat(parts[..k]) + parts[k]
  {
    assert parts[..k + 1][..k] == parts[..k];
  }

  /** Each part stands in the concatenation right after the parts before it. */
  lemma ConcatPart(parts: seq<string>, k: nat)
    requires k < |parts|
    ensures OccursAt(Concat(parts), parts[k], |Concat(parts[..k])|)
  {
    var before := parts[..k];
    var after := parts[k + 1..];
    assert parts == before + [parts[k]] + after;
    ConcatAppend(before + [parts[k]], after);
    assert (before + [parts[k]])[..k] == before;
    var c := Concat(parts);
    assert c == Concat(before) + parts[k] + Concat(after);
    assert c[|Concat(before)|..|Concat(before)| + |parts[k]|] == parts[k];
  }

  /** The same, with the concatenation framed by a prefix and a suffix. */
  lemma ConcatPartFramed(pre: string, parts: seq<string>, post: string, k: nat)
    requires k < |parts|
    ensures OccursAt(pre + Concat(parts) + post, parts[k], |pre| + |Concat(parts[..k])|)
  {
    ConcatPart(parts, k);
    var c := Concat(parts);
    var i := |Concat(parts[..k])|;
    var s := pre + c + post;
    assert s[|pre| + i..|pre| + i + |parts[k]|] == c[i..i + |parts[k]|];
  }

  // ---------------------------------------------------------------------------
  // `s.trim()`
  // ---------------------------------------------------------------------------

  /**
   * The characters `String.prototype.trim` removes: ECMAScript WhiteSpace (tab, vertical tab,
   * form feed, the byte-order mark and every space separator) and LineTerminator.
   */
  predicate IsSpace(c: char) {
    var n := c as int;
    n == 0x09 || n == 0x0A || n == 0x0B || n == 0x0C || n == 0x0D || n == 0x20 || n == 0xA0
    || n == 0x1680 || (0x2000 <= n <= 0x200A) || n == 0x2028 || n == 0x2029 || n == 0x202F
    || n == 0x205F || n == 0x3000 || n == 0xFEFF
  }

  /** Every character of `s` from index `lo` up to (not including) `hi` passes `p`. */
  predicate AllIn(s: string, lo: int, hi: int, p: char -> bool)
    requires 0 <= lo <= hi <= |s|
  {
    forall k :: lo <= k < hi ==> p(s[k])
  }

  /** How many characters at the front of `s` pass `p`: all of them up to the first that does not. */
  function LeadingCount(s: string, p: char -> bool): (n: nat)
    ensures n <= |s| && AllIn(s, 0, n, p)
    ensures n == |s| || !p(s[n])
    decreases |s|
  {
    if |s| > 0 && p(s[0]) then
      var m := LeadingCount(s[1..], p);
      assert forall k :: 1 <= k < m + 1 ==> s[k] == s[1..][k - 1];
      m + 1
    else 0
  }

  /** How many characters at the back of `s` pass `p`: all of them back to the last that does not. */
  function TrailingCount(s: string, p: char -> bool): (n: nat)
    ensures n <= |s| && AllIn(s, |s| - n, |s|, p)
    ensures n == |s| || !p(s[|s| - n - 1])
    decreases |s|
  {
    if |s| > 0 && p(s[|s| - 1]) then
      var m := TrailingCount(s[..|s| - 1], p);
      assert forall k :: |s| - 1 - m <= k < |s| - 1 ==> s[k] == s[..|s| - 1][k];
      m + 1
    else 0
  }

  /** `s` without its leading characters that pass `p`. */
  function DropLeading(s: string, p: char -> bool): string {
    s[LeadingCount(s, p)..]
  }

  /** `s` without its trailing characters that pass `p`. */
  function DropTrailing(s: string, p: char -> bool): string {
    s[..|s| - TrailingCount(s, p)]
  }

  /** Dropping at both ends keeps a contiguous middle part that neither starts nor ends with a dropped character. */
  lemma DropBothEnds(s: string, p: char -> bool)
    ensures var t := DropLeading(s, p); var r := DropTrailing(t, p); var i := |s| - |t|;
      i + |r| <= |s| && r == s[i..i + |r|]
      && AllIn(s, 0, i, p) && AllIn(s, i + |r|, |s|, p)
      && (r == [] || (!p(r[0]) && !p(r[|r| - 1])))
  {
    DroppedMiddle(s, p);
    DroppedEnds(s, p);
    KeptEnds(s, p);
  }

  lemma DroppedMiddle(s: string, p: char -> bool)
    ensures var i := LeadingCount(s, p); var r := DropTrailing(s[i..], p);
      i + |r| <= |s| && r == s[i..i + |r|]
  {
    var i := LeadingCount(s, p);
    var t := s[i..];
    TakeOfDrop(s, i, |t| - TrailingCount(t, p));
  }

  lemma DroppedEnds(s: string, p: char -> bool)
    ensures var i := LeadingCount(s, p); var r := DropTrailing(s[i..], p);
      AllIn(s, 0, i, p) && i + |r| <= |s| && AllIn(s, i + |r|, |s|, p)
  {
    var i := LeadingCount(s, p);
    var t := s[i..];
    var n := |t| - TrailingCount(t, p);
    assert AllIn(t, n, |t|, p);
    forall k | i + n <= k < |s| ensures p(s[k]) {
      assert s[k] == t[k - i];
    }
  }

  /** Taking `n` characters after the first `i` is slicing from `i` to `i + n`. */
  lemma TakeOfDrop(s: string, i: nat, n: nat)
    requires i + n <= |s|
    ensures s[i..][..n] == s[i..i + n]
  {
  }

  lemma KeptEnds(s: string, p: char -> bool)
    ensures var r := DropTrailing(DropLeading(s, p), p);
      r == [] || (!p(r[0]) && !p(r[|r| - 1]))
  {
    var t := DropLeading(s, p);
    var j := TrailingCount(t, p);
    var r := t[..|t| - j];
    if r != [] {
      assert r[0] == t[0] && r[|r| - 1] == t[|t| - j - 1];
    }
  }

  /** `s.trimStart()`. */
  function TrimStart(s: string): string {
    DropLeading(s, IsSpace)
  }

  /** `s.trimEnd()`. */
  function TrimEnd(s: string): string {
    DropTrailing(s, IsSpace)
  }

  /** `s.trim()`. */
  function Trim(s: string): string {
    TrimEnd(TrimStart(s))
  }

  /**
   * Trimming keeps a contiguous middle part of `s` that neither starts nor ends with a space,
   * and removes only spaces around it.
   */
  lemma TrimKeepsMiddle(s: string)
    ensures var r := Trim(s); var i := |s| - |TrimStart(s)|;
      i + |r| <= |s| && r == s[i..i + |r|]
      && AllIn(s, 0, i, IsSpace) && AllIn(s, i + |r|, |s|, IsSpace)
      && (r == [] || (!IsSpace(r[0]) && !IsSpace(r[|r| - 1])))
  {
    DropBothEnds(s, IsSpace);
  }

  // ---------------------------------------------------------------------------
  // Decimal numbers: `${n}` and `parseInt(s, 10)`
  // ---------------------------------------------------------------------------

  predicate IsDigit(c: char) { '0' <= c <= '9' }

  predicate AllDigits(s: string) { forall i :: 0 <= i < |s| ==> IsDigit(s[i]) }

  function DigitChar(d: nat): char
    requires d < 10
  {
    ('0' as int + d) as char
  }

  /** `${n}` for a non-negative integer: its decimal digits, without leading zeros. */
  function NatToString(n: nat): (r: string)
    ensures |r| >= 1 && AllDigits(r)
    ensures r[0] == '0' ==> n == 0
    decreases n
  {
    if n < 10 then [DigitChar(n)] else NatToString(n / 10) + [DigitChar(n % 10)]
  }

  /** The value of a string of decimal digits. */
  function DigitsValue(s: string): nat
    requires AllDigits(s)
    decreases |s|
  {
    if s == [] then 0 else DigitsValue(s[..|s| - 1]) * 10 + (s[|s| - 1] as int - '0' as int)
  }

  /** The longest prefix of `s` made of decimal digits. */
  function DigitPrefix(s: string): (r: string)
    ensures r <= s && AllDigits(r)
    ensures |r| == |s| || !IsDigit(s[|r|])
    decreases |s|
  {
    if s != [] && IsDigit(s[0]) then [s[0]] + DigitPrefix(s[1..]) else []
  }

  /**
   * `parseInt(s, 10)`: skip leading white space, read an optional sign and the longest run
   * of digits; `None` stands for `NaN` (no digit at all).
   */
  function ParseInt(s: string): Option<int> {
    var t := TrimStart(s);
    var negative := |t| > 0 && t[0] == '-';
    var u := if |t| > 0 && (t[0] == '-' || t[0] == '+') then t[1..] else t;
    var d := DigitPrefix(u);
    if d == [] then None
    else if negative then Some(-(DigitsValue(d) as int))
    else Some(DigitsValue(d))
  }

  /** Reading the digits `${n}` renders gives back `n`. */
  lemma {:induction false} NatToStringValue(n: nat)
    ensures DigitsValue(NatToString(n)) == n
    decreases n
  {
    if n >= 10 {
      NatToStringValue(n / 10);
      var s := NatToString(n);
      assert s[..|s| - 1] == NatToString(n / 10);
    }
  }

  /** The digit run at the front of `d + t` is `d` itself when `t` does not go on with a digit. */
  lemma {:induction false} DigitPrefixOf(d: string, t: string)
    requires AllDigits(d)
    requires t == [] || !IsDigit(t[0])
    ensures DigitPrefix(d + t) == d
    decreases |d|
  {
    if d != [] {
      DigitPrefixOf(d[1..], t);
      assert (d + t)[1..] == d[1..] + t;
      assert [d[0]] + d[1..] == d;
    } else {
      assert d + t == t;
    }
  }

  /**
   * `parseInt` reads back a rendered number, also when other text follows it that does not
   * start with a digit (`parseInt("3 days", 10) === 3`).
   */
  lemma ParseIntRendered(n: nat, t: string)
    requires t == [] || !IsDigit(t[0])
    ensures ParseInt(NatToString(n) + t) == Some(n)
  {
    var d := NatToString(n);
    var s := d + t;
    assert s[0] == d[0];
    DigitPrefixOf(d, t);
    NatToStringValue(n);
    ParseIntDigitsFirst(s);
  }

  /** A text that starts with a digit parses to the value of its leading digits. */
  lemma ParseIntDigitsFirst(s: string)
    requires |s| > 0 && IsDigit(s[0])
    ensures ParseInt(s) == Some(DigitsValue(DigitPrefix(s)))
  {
    assert !IsSpace(s[0]);
    assert LeadingCount(s, IsSpace) == 0;
    assert TrimStart(s) == s;
    assert s[0] != '-' && s[0] != '+';
    assert DigitPrefix(s) != [];
  }
}
