/** The few C library behaviours the ACPI client relies on, stated over
    Dafny's unbounded integers and character sequences: `int` division,
    strcasecmp, strstr and the `%d` conversions of sscanf and printf.
    A C string is modelled by its characters without the terminating NUL. */
module CLib {

  datatype Option<T> = None | Some(value: T)

  function Abs(x: int): nat
  {
    if x < 0 then -x else x
  }

  /** C's `/` on `int`: the algebraic quotient with its fractional part
      discarded, i.e. rounded toward zero (Dafny's own `/` is Euclidean). */
  function CDiv(a: int, b: int): (q: int)
    requires b != 0
    ensures Abs(q) == Abs(a) / Abs(b)
    ensures q > 0 ==> (a > 0) == (b > 0)
    ensures q < 0 ==> (a > 0) != (b > 0)
  {
    DivFacts(Abs(a), Abs(b));
    var m: int := Abs(a) / Abs(b);
    if (a < 0) == (b < 0) then m else -m
  }

  lemma DivFacts(x: nat, y: nat)
    requires y > 0
    ensures x / y >= 0
    ensures x == 0 ==> x / y == 0
  {
  }

  /** The quotient is determined by its contract: truncation, not flooring. */
  lemma CDivExamples()
    ensures CDiv(-1, 1000) == 0 && -1 / 1000 == -1
    ensures CDiv(-7, 2) == -3 && CDiv(7, -2) == -3 && CDiv(-7, -2) == 3
  {
  }

  /** For a non-negative dividend and a positive divisor, C's and Dafny's
      division agree, so the remainder left by CDiv lies in [0, b). */
  lemma CDivNonNegative(a: int, b: int)
    requires a >= 0 && b > 0
    ensures CDiv(a, b) == a / b
    ensures 0 <= a - b * CDiv(a, b) < b
  {
  }

  /** tolower in the C locale. */
  function Lower(c: char): char
  {
    if 'A' <= c <= 'Z' then (c as int + 32) as char else c
  }

  /** The string with every letter lowered. */
  function LowerAll(s: string): string
  {
    seq(|s|, i requires 0 <= i < |s| => Lower(s[i]))
  }

  /** strcasecmp(a, b) == 0 where `b` is written in lower case, as every
      literal the client compares against is: `a` with its letters lowered is
      `b`. */
  predicate StrCaseEq(a: string, b: string)
  {
    |a| == |b| && LowerAll(a) == b
  }

  /** strcasecmp agrees with the position-wise definition for a lower-case
      `b`: equal lengths and equal characters up to case. */
  lemma StrCaseEqChars(a: string, b: string)
    requires LowerAll(b) == b
    ensures StrCaseEq(a, b) <==> |a| == |b| && forall i :: 0 <= i < |a| ==> Lower(a[i]) == Lower(b[i])
  {
    if |a| == |b| && forall i :: 0 <= i < |a| ==> Lower(a[i]) == Lower(b[i]) {
      assert LowerAll(a) == LowerAll(b);
    }
  }

  /** Lowering twice is lowering once, so the case of `a` does not matter
      to the comparison. */
  lemma StrCaseEqIgnoresCase(a: string, b: string)
    ensures LowerAll(LowerAll(a)) == LowerAll(a)
    ensures StrCaseEq(a, b) <==> StrCaseEq(LowerAll(a), b)
  {
    forall i | 0 <= i < |a| ensures Lower(Lower(a[i])) == Lower(a[i]) {
      var c := a[i];
      if 'A' <= c <= 'Z' {
        assert !('A' <= Lower(c) <= 'Z');
      }
    }
  }

  /** `needle` occurs in `hay` starting at position k. */
  predicate OccursAt(hay: string, needle: string, k: nat)
  {
    k + |needle| <= |hay| && hay[k..k + |needle|] == needle
  }

  /** strstr(hay, needle) as a scan from position k: the first position at
      or after k where `needle` occurs. */
  function StrStrFrom(hay: string, needle: string, k: nat): (r: Option<nat>)
    decreases |hay| - k
    ensures r.Some? ==> k <= r.value && OccursAt(hay, needle, r.value)
    ensures r.Some? ==> forall j: nat :: k <= j < r.value ==> !OccursAt(hay, needle, j)
    ensures r.None? ==> forall j: nat :: k <= j ==> !OccursAt(hay, needle, j)
  {
    if k + |needle| > |hay| then None
    else if OccursAt(hay, needle, k) then Some(k)
    else StrStrFrom(hay, needle, k + 1)
  }

  /** strstr(hay, needle): the position of the first occurrence of `needle`. */
  function StrStr(hay: string, needle: string): Option<nat>
  {
    StrStrFrom(hay, needle, 0)
  }

  /** strstr(hay, needle) != NULL */
  predicate Contains(hay: string, needle: string)
  {
    StrStr(hay, needle).Some?
  }

  /** isspace in the C locale. */
  predicate IsSpace(c: char)
  {
    c == ' ' || c == '\t' || c == '\n' || c == '\r' || c == '\U{B}' || c == '\U{C}'
  }

  predicate IsDigit(c: char)
  {
    '0' <= c <= '9'
  }

  /** The value of a digit character ('0' is 0, ..., '9' is 9). */
  function DigitValue(c: char): int
  {
    c as int - '0' as int
  }

  function DigitChar(d: nat): (c: char)
    requires d < 10
    ensures IsDigit(c) && DigitValue(c) == d
  {
    ('0' as int + d) as char
  }

  /** The input with its leading white space skipped. */
  function SkipSpace(s: string): (r: string)
    ensures |r| <= |s|
  {
    if s != [] && IsSpace(s[0]) then SkipSpace(s[1..]) else s
  }

  /** SkipSpace drops exactly the leading run of white space. */
  lemma {:induction false} SkipSpaceSkips(s: string)
    ensures SkipSpace(s) == s[|s| - |SkipSpace(s)|..]
    ensures SkipSpace(s) == [] || !IsSpace(SkipSpace(s)[0])
    ensures forall i :: 0 <= i < |s| - |SkipSpace(s)| ==> IsSpace(s[i])
  {
    if s != [] && IsSpace(s[0]) {
      SkipSpaceSkips(s[1..]);
    }
  }

  /** The number of leading decimal digits. */
  function DigitRun(s: string): (n: nat)
    ensures n <= |s|
  {
    if s != [] && IsDigit(s[0]) then 1 + DigitRun(s[1..]) else 0
  }

  /** DigitRun counts exactly the leading run of digits. */
  lemma {:induction false} DigitRunCounts(s: string)
    ensures forall i :: 0 <= i < DigitRun(s) ==> IsDigit(s[i])
    ensures DigitRun(s) == |s| || !IsDigit(s[DigitRun(s)])
  {
    if s != [] && IsDigit(s[0]) {
      DigitRunCounts(s[1..]);
    }
  }

  /** The value of a string of decimal digits, most significant first. */
  function DigitsValue(ds: string): int
  {
    if ds == [] then 0 else 10 * DigitsValue(ds[..|ds| - 1]) + DigitValue(ds[|ds| - 1])
  }

  /** sscanf(s, "%d", &n): white space, an optional sign, then at least one
      digit; None when the conversion fails and `n` is left untouched.
      C's overflow on more digits than an `int` holds is not modelled. */
  function ScanInt(s: string): Option<int>
  {
    var t := SkipSpace(s);
    var signed := t != [] && (t[0] == '-' || t[0] == '+');
    var u := if signed then t[1..] else t;
    var n := DigitRun(u);
    if n == 0 then None
    else if signed && t[0] == '-' then Some(-DigitsValue(u[..n]))
    else Some(DigitsValue(u[..n]))
  }

  /** The decimal digits of a natural number, as printf's `%u` writes them. */
  function NatText(n: nat): (ds: string)
    ensures |ds| > 0
  {
    if n < 10 then [DigitChar(n)] else NatText(n / 10) + [DigitChar(n % 10)]
  }

  /** printf's `%d`. */
  function DecimalText(n: int): string
  {
    if n < 0 then "-" + NatText(-n) else NatText(n)
  }

  /** NatText writes digits only, and they read back as the number. */
  lemma {:induction false} NatTextValue(n: nat)
    ensures forall i :: 0 <= i < |NatText(n)| ==> IsDigit(NatText(n)[i])
    ensures DigitsValue(NatText(n)) == n
  {
    if n >= 10 {
      var ds := NatText(n);
      assert ds[..|ds| - 1] == NatText(n / 10);
      NatTextValue(n / 10);
    }
  }

  lemma {:induction false} DigitRunOfDigits(ds: string, rest: string)
    requires forall i :: 0 <= i < |ds| ==> IsDigit(ds[i])
    requires rest == [] || !IsDigit(rest[0])
    ensures DigitRun(ds + rest) == |ds|
  {
    if ds != [] {
      assert (ds + rest)[1..] == ds[1..] + rest;
      DigitRunOfDigits(ds[1..], rest);
    } else {
      assert ds + rest == rest;
    }
  }

  /** The digits of a number, with anything but a digit after them, run
      exactly as far as the number and spell its value. */
  lemma NatTextScans(m: nat, rest: string)
    requires rest == [] || !IsDigit(rest[0])
    ensures DigitRun(NatText(m) + rest) == |NatText(m)|
    ensures (NatText(m) + rest)[..|NatText(m)|] == NatText(m)
    ensures IsDigit((NatText(m) + rest)[0])
    ensures DigitsValue(NatText(m)) == m
  {
    NatTextValue(m);
    DigitRunOfDigits(NatText(m), rest);
  }

  /** The digits of a number, followed by anything but a digit, scan back
      to the number. */
  lemma ScanNatText(m: nat, rest: string)
    requires rest == [] || !IsDigit(rest[0])
    ensures ScanInt(NatText(m) + rest) == Some(m)
  {
    NatTextScans(m, rest);
  }

  /** After a '-' sign they scan back to the negated number. */
  lemma ScanNegNatText(m: nat, rest: string)
    requires rest == [] || !IsDigit(rest[0])
    ensures ScanInt("-" + NatText(m) + rest) == Some(-(m as int))
  {
    var u := NatText(m) + rest;
    var t := "-" + NatText(m) + rest;
    assert t[0] == '-' && t[1..] == u by {
      assert t == "-" + u;
    }
    assert SkipSpace(t) == t by {
      assert !IsSpace(t[0]);
    }
    NatTextScans(m, rest);
  }

  /** sscanf's `%d` reads back what printf's `%d` wrote, whatever follows
      the number as long as it is not another digit. */
  lemma ScanDecimalText(n: int, rest: string)
    requires rest == [] || !IsDigit(rest[0])
    ensures ScanInt(DecimalText(n) + rest) == Some(n)
  {
    if n < 0 {
      ScanNegNatText(-n, rest);
    } else {
      ScanNatText(n, rest);
    }
  }
}
