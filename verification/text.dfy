/** The JavaScript string built-ins the storefront relies on:
    `String.prototype.toLowerCase`, `String.prototype.includes` and the
    global `parseInt`, over strings as sequences of characters. */
module Text {
  import opened Wrappers

  predicate IsUpper(c: char)
  {
    'A' <= c <= 'Z'
  }

  /** Case mapping of one character; only the ASCII letters are mapped. */
  function LowerChar(c: char): (r: char)
    ensures IsUpper(c) ==> r as int == c as int + 32
    ensures !IsUpper(c) ==> r == c
    ensures !IsUpper(r)
  {
    if IsUpper(c) then (c as int + 32) as char else c
  }

  /** `s.toLowerCase()`: same length, every character case-mapped in place. */
  function ToLower(s: string): (r: string)
    ensures |r| == |s|
    ensures forall i :: 0 <= i < |s| ==> r[i] == LowerChar(s[i])
  {
    seq(|s|, i requires 0 <= i < |s| => LowerChar(s[i]))
  }

  /** `n` occurs in `h` starting at index `i`. */
  predicate OccursAt(h: string, n: string, i: int)
  {
    0 <= i <= |h| - |n| && h[i..i + |n|] == n
  }

  /** `h.includes(n)`: `n` occurs in `h` at some position. */
  function Includes(h: string, n: string): (b: bool)
    ensures b <==> exists i :: OccursAt(h, n, i)
    decreases |h|
  {
    if |h| < |n| then false
    else if h[..|n|] == n then
      assert OccursAt(h, n, 0);
      true
    else
      var b := Includes(h[1..], n);
      OccursInTail(h, n);
      b
  }

  lemma OccursInTail(h: string, n: string)
    requires h != [] && !OccursAt(h, n, 0)
    ensures (exists i :: OccursAt(h, n, i)) <==> (exists i :: OccursAt(h[1..], n, i))
  {
    forall i | OccursAt(h[1..], n, i)
      ensures OccursAt(h, n, i + 1)
    {
      assert h[1..][i..i + |n|] == h[i + 1..i + 1 + |n|];
    }
    forall i | OccursAt(h, n, i)
      ensures OccursAt(h[1..], n, i - 1)
    {
      assert h[1..][i - 1..i - 1 + |n|] == h[i..i + |n|];
    }
  }

  // ---------------------------------------------------------------------
  // parseInt

  predicate IsDigit(c: char)
  {
    '0' <= c <= '9'
  }

  predicate IsSpace(c: char)
  {
    c == ' ' || c == '\t' || c == '\n' || c == '\r'
  }

  predicate AllDigits(s: string)
  {
    forall i :: 0 <= i < |s| ==> IsDigit(s[i])
  }

  function DigitValue(c: char): (d: nat)
    requires IsDigit(c)
    ensures d < 10
  {
    c as int - '0' as int
  }

  function DigitChar(d: nat): (c: char)
    requires d < 10
    ensures IsDigit(c) && DigitValue(c) == d
  {
    ('0' as int + d) as char
  }

  /** Base-10 value of a run of digits, most significant first. */
  function DigitsValue(s: string): nat
    requires AllDigits(s)
    decreases |s|
  {
    if s == [] then 0
    else DigitsValue(s[..|s| - 1]) * 10 + DigitValue(s[|s| - 1])
  }

  /** Length of the longest all-digit prefix of `s`. */
  function DigitRun(s: string): (n: nat)
    ensures n <= |s|
    ensures AllDigits(s[..n])
    ensures n < |s| ==> !IsDigit(s[n])
    decreases |s|
  {
    if s == [] || !IsDigit(s[0]) then 0
    else
      var n := 1 + DigitRun(s[1..]);
      assert forall i :: 1 <= i < n ==> s[..n][i] == s[1..][..n - 1][i - 1];
      n
  }

  function TrimStart(s: string): (r: string)
    ensures |r| <= |s| && r == s[|s| - |r|..]
    ensures r != [] ==> !IsSpace(r[0])
    ensures forall i :: 0 <= i < |s| - |r| ==> IsSpace(s[i])
    decreases |s|
  {
    if s != [] && IsSpace(s[0]) then TrimStart(s[1..]) else s
  }

  /** The run of digits at the head of `u` as a number; `None` when `u`
      does not start with a digit. */
  function ParseDigits(u: string): (r: Option<nat>)
    ensures r.None? <==> (u == [] || !IsDigit(u[0]))
  {
    var n := DigitRun(u);
    if n == 0 then None else Some(DigitsValue(u[..n]))
  }

  /** `t` without its leading sign, if it has one. */
  function Unsigned(t: string): (u: string)
    ensures |u| <= |t|
  {
    if t != [] && (t[0] == '-' || t[0] == '+') then t[1..] else t
  }

  /** An optional sign, then digits: a leading `-` negates the value. */
  function ParseSigned(t: string): (r: Option<int>)
    ensures r.None? <==> ParseDigits(Unsigned(t)).None?
    ensures r.Some? && t[0] == '-' ==> r.value == -(ParseDigits(Unsigned(t)).value as int)
    ensures r.Some? && t[0] != '-' ==> r.value == ParseDigits(Unsigned(t)).value
  {
    match ParseDigits(Unsigned(t))
    case None => None
    case Some(v) => Some(if t[0] == '-' then -(v as int) else v)
  }

  /** Global `parseInt(s)` with no radix: skip leading white space, read an
      optional sign, then the longest run of decimal digits; `None` (NaN)
      when there is no digit. Text after the digits is ignored. */
  function ParseInt(s: string): (r: Option<int>)
    ensures r.None? <==> (var u := Unsigned(TrimStart(s)); u == [] || !IsDigit(u[0]))
  {
    ParseSigned(TrimStart(s))
  }

  /** Decimal rendering of a natural number, as `String(n)` produces it. */
  function NatToString(n: nat): (s: string)
    ensures s != [] && AllDigits(s)
    decreases n
  {
    if n < 10 then [DigitChar(n)]
    else NatToString(n / 10) + [DigitChar(n % 10)]
  }

  lemma {:induction false} DigitsValueOfNatToString(n: nat)
    ensures DigitsValue(NatToString(n)) == n
    decreases n
  {
    if n >= 10 {
      var s := NatToString(n);
      assert s[..|s| - 1] == NatToString(n / 10);
      DigitsValueOfNatToString(n / 10);
    }
  }

  predicate AllSpaces(s: string)
  {
    forall i :: 0 <= i < |s| ==> IsSpace(s[i])
  }

  lemma {:induction false} TrimStartSpaces(ws: string, t: string)
    requires AllSpaces(ws)
    requires t == [] || !IsSpace(t[0])
    ensures TrimStart(ws + t) == t
    decreases |ws|
  {
    if ws != [] {
      assert (ws + t)[1..] == ws[1..] + t;
      TrimStartSpaces(ws[1..], t);
    } else {
      assert ws + t == t;
    }
  }

  lemma ParseDigitsValue(digits: string, rest: string)
    requires digits != [] && AllDigits(digits)
    requires rest == [] || !IsDigit(rest[0])
    ensures digits + rest != [] && IsDigit((digits + rest)[0])
    ensures ParseDigits(digits + rest) == Some(DigitsValue(digits))
  {
    assert (digits + rest)[0] == digits[0];
    DigitRunOfDigits(digits, rest);
    assert (digits + rest)[..|digits|] == digits;
  }

  /** The optional sign `parseInt` accepts before the digits. */
  datatype Sign = NoSign | Minus | Plus

  function SignText(sg: Sign): (t: string)
    ensures |t| <= 1
    ensures t != [] ==> t[0] == '-' || t[0] == '+'
  {
    match sg
    case NoSign => ""
    case Minus => "-"
    case Plus => "+"
  }

  function Signed(sg: Sign, v: nat): int
  {
    if sg == Minus then -(v as int) else v
  }

  lemma ParseSignedValue(sg: Sign, u: string)
    requires u != [] && IsDigit(u[0])
    ensures SignText(sg) + u != [] && !IsSpace((SignText(sg) + u)[0])
    ensures ParseDigits(u).Some?
    ensures ParseSigned(SignText(sg) + u) == Some(Signed(sg, ParseDigits(u).value))
  {
    var t := SignText(sg) + u;
    if sg == NoSign {
      assert t == u;
    } else {
      assert t[0] == SignText(sg)[0];
      assert t[1..] == u;
    }
  }

  /** Leading white space does not change what `parseInt` reads. */
  lemma ParseIntSkipsSpaces(ws: string, t: string)
    requires AllSpaces(ws)
    requires t != [] && !IsSpace(t[0])
    ensures ParseInt(ws + t) == ParseSigned(t)
  {
    TrimStartSpaces(ws, t);
  }

  /** `parseInt` on white space, an optional sign, a run of digits (leading
      zeros included) and any text that does not start with a digit yields
      the value of the digits, negated after a minus sign. */
  lemma ParseIntValue(ws: string, sg: Sign, digits: string, rest: string)
    requires AllSpaces(ws)
    requires digits != [] && AllDigits(digits)
    requires rest == [] || !IsDigit(rest[0])
    ensures ParseInt(ws + (SignText(sg) + (digits + rest))) == Some(Signed(sg, DigitsValue(digits)))
  {
    ParseDigitsValue(digits, rest);
    ParseSignedValue(sg, digits + rest);
    ParseIntSkipsSpaces(ws, SignText(sg) + (digits + rest));
  }

  /** A zero-padded numeral reads as its value: `parseInt("007")` is 7. */
  lemma ParseIntLeadingZeros()
    ensures ParseInt("007") == Some(7)
  {
    assert "007" == "" + ("" + ("007" + ""));
    assert AllDigits("007");
    assert DigitsValue("007") == 7 by {
      assert "007"[..2] == "00" && "00"[..1] == "0" && "0"[..0] == "";
    }
    ParseIntValue("", NoSign, "007", "");
  }

  /** `parseInt` reads back what `String(n)` wrote, whatever non-digit text
      follows it. */
  lemma ParseIntRoundTrip(n: nat, rest: string)
    requires rest == [] || !IsDigit(rest[0])
    ensures ParseInt(NatToString(n) + rest) == Some(n)
  {
    var s := NatToString(n);
    var m := "" + (SignText(NoSign) + (s + rest));
    assert ParseInt(m) == Some(n) by {
      DigitsValueOfNatToString(n);
      ParseIntValue("", NoSign, s, rest);
    }
    assert m == s + rest;
  }

  /** The same with a leading minus sign. */
  lemma ParseIntNegativeRoundTrip(n: nat, rest: string)
    requires rest == [] || !IsDigit(rest[0])
    ensures ParseInt("-" + (NatToString(n) + rest)) == Some(-(n as int))
  {
    var s := NatToString(n);
    var m := "" + (SignText(Minus) + (s + rest));
    assert ParseInt(m) == Some(-(n as int)) by {
      DigitsValueOfNatToString(n);
      ParseIntValue("", Minus, s, rest);
    }
    assert m == "-" + (s + rest);
  }

  lemma {:induction false} DigitRunOfDigits(s: string, rest: string)
    requires AllDigits(s)
    requires rest == [] || !IsDigit(rest[0])
    ensures DigitRun(s + rest) == |s|
    decreases |s|
  {
    if s != [] {
      assert (s + rest)[1..] == s[1..] + rest;
      DigitRunOfDigits(s[1..], rest);
    } else {
      assert s + rest == rest;
    }
  }
}
