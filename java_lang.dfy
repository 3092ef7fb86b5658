/**
  The parts of the Java language and of java.lang.String that the core depends on, made explicit:
  exceptions, 32-bit int arithmetic with wrap-around, the truncating remainder operator,
  String.trim, blank tests, String.split on a single literal character, ASCII lower-casing and
  the decimal rendering of an int.
*/
module JavaLang {
  import opened Wrappers

  /** The exceptions the core throws or lets through, by class. */
  datatype Exception =
    | IllegalArgument(message: string)
    | IllegalState(message: string)
    | NullPointer(message: string)
    | ArrayIndexOutOfBounds(index: int)
    | Arithmetic(message: string)
      /** A java.lang.Error: no `catch (Exception e)` catches it. */
    | JvmError(message: string)
      /** An InterruptedException (or Brooklyn's RuntimeInterruptedException): an Exception all the same. */
    | Interrupted(message: string)

  /** The outcome of a Java computation: a value, or a thrown exception. */
  datatype Result<+T> = Ok(value: T) | Err(error: Exception)

  /** What Exceptions.propagateIfFatal rethrows rather than lets its caller absorb: errors and interruptions. */
  predicate IsFatal(e: Exception) {
    e.JvmError? || e.Interrupted?
  }

  // ---------------------------------------------------------------- int

  const TWO_32: int := 0x1_0000_0000
  const INT_MIN: int := -0x8000_0000
  const INT_MAX: int := 0x7fff_ffff
  const LONG_MIN: int := -0x8000_0000_0000_0000
  const LONG_MAX: int := 0x7fff_ffff_ffff_ffff

  /** A value of Java's `int`. */
  type Int32 = x: int | -0x8000_0000 <= x <= 0x7fff_ffff

  /** The `int` that Java's two's-complement arithmetic produces for the exact result `x`. */
  function Wrap32(x: int): (r: Int32)
    ensures (x - r) % TWO_32 == 0
    ensures INT_MIN <= x <= INT_MAX ==> r == x
  {
    var d := x - INT_MIN;
    assert d == TWO_32 * (d / TWO_32) + d % TWO_32;
    d % TWO_32 + INT_MIN
  }

  function Abs(x: int): nat { if x < 0 then -x else x }

  /** Java's `/` on ints: the quotient truncates toward zero. */
  function JavaDiv(a: int, b: int): int
    requires b != 0
  {
    if (a >= 0) == (b > 0) then Abs(a) / Abs(b) else -(Abs(a) / Abs(b))
  }

  /** Java's `%` on ints: the quotient truncates toward zero, so a remainder takes the sign of the dividend. */
  function JavaRem(a: int, b: int): (r: int)
    requires b != 0
    ensures Abs(r) < Abs(b) && Abs(r) <= Abs(a)
    ensures r == 0 || (r > 0 <==> a > 0)
  {
    var m, n := Abs(b), Abs(a);
    ModBounds(n, m);
    if a >= 0 then n % m else -(n % m)
  }

  lemma ModBounds(n: nat, m: nat)
    requires m > 0
    ensures 0 <= n % m < m && n % m <= n
  {
    if n < m { assert n % m == n; }
  }

  /** The quotient and the remainder recombine to the dividend, as the Java language requires. */
  lemma JavaDivRem(a: int, b: int)
    requires b != 0
    ensures a == JavaDiv(a, b) * b + JavaRem(a, b)
  {
    var m: int, n: int := Abs(b), Abs(a);
    var q: int := n / m;
    assert n == m * q + n % m;
    if a >= 0 && b > 0 {
    } else if a >= 0 {
      assert JavaDiv(a, b) * b == (-q) * (-m) == m * q;
    } else if b > 0 {
      assert JavaDiv(a, b) * b == -(q * m);
    } else {
      assert JavaDiv(a, b) * b == q * (-m) == -(m * q);
    }
  }

  // ---------------------------------------------------------------- sequences

  /** Concatenation associates; a step some proofs need spelled out. */
  lemma AppendAssociates<T>(a: seq<T>, b: seq<T>, c: seq<T>)
    ensures (a + b) + c == a + (b + c)
  {
  }

  // ---------------------------------------------------------------- String.trim and blank tests

  /** String.trim removes the chars at or below U+0020 from both ends. */
  predicate IsTrimChar(c: char) {
    c <= ' '
  }

  function TrimStart(s: string): (r: string)
    ensures |r| <= |s| && r == s[|s| - |r|..]
    ensures forall k :: 0 <= k < |s| - |r| ==> IsTrimChar(s[k])
    ensures r == [] || !IsTrimChar(r[0])
    decreases |s|
  {
    if s != [] && IsTrimChar(s[0]) then TrimStart(s[1..]) else s
  }

  function TrimEnd(s: string): (r: string)
    ensures |r| <= |s| && r == s[..|r|]
    ensures forall k :: |r| <= k < |s| ==> IsTrimChar(s[k])
    ensures r == [] || !IsTrimChar(r[|r| - 1])
    decreases |s|
  {
    if s != [] && IsTrimChar(s[|s| - 1]) then TrimEnd(s[..|s| - 1]) else s
  }

  /** `r` is `s` with only trim chars removed from the front (the first `i` of them) and the back. */
  ghost predicate TrimmedFrom(s: string, r: string, i: int) {
    && 0 <= i && i + |r| <= |s|
    && r == s[i..i + |r|]
    && (forall k :: 0 <= k < i ==> IsTrimChar(s[k]))
    && (forall k :: i + |r| <= k < |s| ==> IsTrimChar(s[k]))
  }

  /** String.trim(). */
  function Trim(s: string): (r: string)
    ensures TrimmedFrom(s, r, |s| - |TrimStart(s)|)
    ensures r == [] || (!IsTrimChar(r[0]) && !IsTrimChar(r[|r| - 1]))
  {
    var t := TrimStart(s);
    var r := TrimEnd(t);
    PrefixOfSuffix(s, |s| - |t|, t, r);
    r
  }

  /**
    `t` is the suffix of `s` from `i` after a run of trim chars, and `r` a prefix of `t` whose
    rest is trim chars: `r` is `s` trimmed at both ends.
  */
  lemma PrefixOfSuffix(s: string, i: nat, t: string, r: string)
    requires i <= |s| && t == s[i..] && |r| <= |t| && r == t[..|r|]
    requires forall k :: 0 <= k < i ==> IsTrimChar(s[k])
    requires forall k :: |r| <= k < |t| ==> IsTrimChar(t[k])
    ensures TrimmedFrom(s, r, i)
    ensures r != [] ==> r[0] == t[0]
  {
    forall k | i + |r| <= k < |s| ensures IsTrimChar(s[k]) {
      assert s[k] == t[k - i];
    }
  }

  /** Strings.isBlank on a non-null string: nothing but trim chars. */
  predicate IsBlank(s: string) {
    forall k :: 0 <= k < |s| ==> IsTrimChar(s[k])
  }

  /** Strings.isBlank, which also holds of null. */
  predicate IsBlankOrNull(s: Option<string>) {
    s.None? || IsBlank(s.value)
  }

  lemma BlankIffTrimsToEmpty(s: string)
    ensures IsBlank(s) <==> Trim(s) == []
  {
    if Trim(s) == [] {
      var i := |s| - |TrimStart(s)|;
      forall k | 0 <= k < |s| ensures IsTrimChar(s[k]) {
        if k >= i { assert i + |Trim(s)| <= k; }
      }
    }
  }

  // ---------------------------------------------------------------- String.split on one char

  /** Every `sep`-separated segment of `s`, empty ones included (String.split(sep, -1)). */
  function Segments(s: string, sep: char): (parts: seq<string>)
    ensures |parts| >= 1
    ensures forall i :: 0 <= i < |parts| ==> sep !in parts[i]
    decreases |s|
  {
    if s == [] then [""]
    else
      var rest := Segments(s[1..], sep);
      if s[0] == sep then [""] + rest else [[s[0]] + rest[0]] + rest[1..]
  }

  /** The parts separated by single `sep` chars (String.join with a one-char delimiter). */
  function Join(parts: seq<string>, sep: char): string
    decreases |parts|
  {
    if |parts| == 0 then ""
    else if |parts| == 1 then parts[0]
    else parts[0] + [sep] + Join(parts[1..], sep)
  }

  lemma {:induction false} JoinSegments(s: string, sep: char)
    ensures Join(Segments(s, sep), sep) == s
    decreases |s|
  {
    if s != [] {
      var rest := Segments(s[1..], sep);
      JoinSegments(s[1..], sep);
      if s[0] == sep {
        assert Segments(s, sep) == [""] + rest;
        assert ([""] + rest)[1..] == rest;
      } else {
        var parts := [[s[0]] + rest[0]] + rest[1..];
        assert Segments(s, sep) == parts;
        if |rest| > 1 {
          assert parts[1..] == rest[1..];
          assert Join(rest, sep) == rest[0] + [sep] + Join(rest[1..], sep);
        }
        assert s == [s[0]] + s[1..];
      }
    }
  }

  /** Drops the empty strings at the end of `parts`, as String.split does. */
  function DropTrailingEmpty(parts: seq<string>): (r: seq<string>)
    ensures r <= parts
    ensures r == [] || r[|r| - 1] != ""
    ensures forall k :: |r| <= k < |parts| ==> parts[k] == ""
    decreases |parts|
  {
    if parts != [] && parts[|parts| - 1] == "" then DropTrailingEmpty(parts[..|parts| - 1]) else parts
  }

  /** `t` is `s` followed by nothing but `sep` chars. */
  ghost predicate PaddedWith(t: string, s: string, sep: char) {
    s <= t && forall k :: |s| <= k < |t| ==> t[k] == sep
  }

  lemma {:induction false} JoinDropTrailingEmpty(parts: seq<string>, sep: char)
    ensures PaddedWith(Join(parts, sep), Join(DropTrailingEmpty(parts), sep), sep)
    decreases |parts|
  {
    if parts != [] && parts[|parts| - 1] == "" {
      var init := parts[..|parts| - 1];
      JoinDropTrailingEmpty(init, sep);
      JoinAppendEmpty(init, sep);
      assert init + [""] == parts;
      PaddedTransitive(Join(parts, sep), Join(init, sep), Join(DropTrailingEmpty(init), sep), sep);
    }
  }

  lemma PaddedTransitive(t: string, s: string, u: string, sep: char)
    requires PaddedWith(t, s, sep) && PaddedWith(s, u, sep)
    ensures PaddedWith(t, u, sep)
  {
    forall k | |u| <= k < |t| ensures t[k] == sep {
      if k < |s| { assert t[k] == s[k]; }
    }
  }

  lemma {:induction false} JoinAppendEmpty(init: seq<string>, sep: char)
    ensures PaddedWith(Join(init + [""], sep), Join(init, sep), sep)
    decreases |init|
  {
    if |init| == 1 {
      assert Join(init + [""], sep) == init[0] + [sep] + Join([""], sep);
    } else if |init| > 1 {
      JoinAppendEmpty(init[1..], sep);
      assert (init + [""])[1..] == init[1..] + [""];
    }
  }

  /** String.split with a one-character literal pattern: no match gives `[s]`; otherwise the
      segments with the trailing empty ones removed. */
  function Split(s: string, sep: char): (parts: seq<string>)
    ensures forall i :: 0 <= i < |parts| ==> sep !in parts[i]
    ensures sep !in s ==> parts == [s]
    ensures sep in s ==> parts == [] || parts[|parts| - 1] != ""
    ensures PaddedWith(s, Join(parts, sep), sep)
  {
    if sep !in s then [s]
    else
      JoinSegments(s, sep);
      JoinDropTrailingEmpty(Segments(s, sep), sep);
      DropTrailingEmpty(Segments(s, sep))
  }

  // ---------------------------------------------------------------- toLowerCase (ASCII) and Integer.toString

  function LowerChar(c: char): char {
    if 'A' <= c <= 'Z' then (c as int + 32) as char else c
  }

  /** String.toLowerCase restricted to ASCII letters. */
  function ToLower(s: string): (r: string)
    ensures |r| == |s|
    ensures forall k :: 0 <= k < |s| ==> r[k] == LowerChar(s[k])
  {
    if s == [] then [] else [LowerChar(s[0])] + ToLower(s[1..])
  }

  lemma ToLowerDistributes(a: string, b: string)
    ensures ToLower(a + b) == ToLower(a) + ToLower(b)
  {
    assert forall k :: 0 <= k < |a + b| ==> ToLower(a + b)[k] == (ToLower(a) + ToLower(b))[k];
  }

  predicate IsDigit(c: char) {
    '0' <= c <= '9'
  }

  function DigitChar(d: int): (c: char)
    requires 0 <= d < 10
    ensures IsDigit(c)
  {
    ('0' as int + d) as char
  }

  /** Decimal digits of `n`, most significant first, without leading zeros. */
  function NatToString(n: nat): (r: string)
    ensures |r| >= 1 && (r[0] == '0' ==> n == 0)
    ensures forall k :: 0 <= k < |r| ==> IsDigit(r[k])
  {
    if n < 10 then [DigitChar(n)] else NatToString(n / 10) + [DigitChar(n % 10)]
  }

  /** Integer.toString, which is also what StringBuilder.append(int) writes. */
  function IntToString(n: int): string {
    if n < 0 then "-" + NatToString(-n) else NatToString(n)
  }

  /** The value of a string of decimal digits. */
  function DigitsValue(s: string): nat
    requires forall k :: 0 <= k < |s| ==> IsDigit(s[k])
  {
    if s == [] then 0
    else
      assert IsDigit(s[|s| - 1]);
      DigitsValue(s[..|s| - 1]) * 10 + (s[|s| - 1] as int - '0' as int)
  }

  /** The integer a decimal literal denotes (an optional minus sign, then at least one digit). */
  function DecimalValue(s: string): Option<int> {
    if |s| >= 2 && s[0] == '-' && forall k :: 1 <= k < |s| ==> IsDigit(s[k]) then
      var v: int := DigitsValue(s[1..]); Some(-v)
    else if |s| >= 1 && forall k :: 0 <= k < |s| ==> IsDigit(s[k]) then Some(DigitsValue(s))
    else None
  }

  lemma {:induction false} DigitsValueOfNatToString(n: nat)
    ensures DigitsValue(NatToString(n)) == n
  {
    if n >= 10 {
      DigitsValueOfNatToString(n / 10);
      var r := NatToString(n);
      assert r[..|r| - 1] == NatToString(n / 10);
    }
  }

  /** Integer.toString is read back by DecimalValue. */
  lemma IntToStringRoundTrip(n: int)
    ensures DecimalValue(IntToString(n)) == Some(n)
  {
    if n < 0 {
      var d := NatToString(-n);
      var r := "-" + d;
      assert r[1..] == d;
      DigitsValueOfNatToString(-n);
      forall k | 1 <= k < |r| ensures IsDigit(r[k]) {
        assert r[k] == d[k - 1];
      }
      assert DecimalValue(r) == Some(n);
    } else {
      DigitsValueOfNatToString(n);
    }
  }
}
