/** Python's uuid.UUID as far as the schemas use it: a 128-bit value,
    printed by str() in the canonical 8-4-4-4-12 lower-case form, and read
    back by uuid.UUID(text), which drops the hyphens and requires exactly 32
    hexadecimal digits of either case. */
module Uuids {
  import opened Results

  /** A 128-bit value: 32 hexadecimal digits. */
  type Uuid = x: nat | x < Pow16(32)

  function Pow16(n: nat): (p: nat)
    ensures p >= 1
  {
    if n == 0 then 1 else 16 * Pow16(n - 1)
  }

  predicate IsLowerHexChar(c: char) {
    '0' <= c <= '9' || 'a' <= c <= 'f'
  }

  /** The lower-case hexadecimal digit for d. */
  function HexChar(d: nat): (c: char)
    requires d < 16
    ensures IsLowerHexChar(c)
  {
    if d < 10 then (48 + d) as char else (87 + d) as char
  }

  /** The value of one hexadecimal digit of either case, as int(c, 16) reads it. */
  function DigitValue(c: char): (r: Option<nat>)
    ensures r.Some? ==> r.value < 16
    ensures r.Some? <==> ('0' <= c <= '9' || 'a' <= c <= 'f' || 'A' <= c <= 'F')
  {
    if '0' <= c <= '9' then Some(c as nat - 48)
    else if 'a' <= c <= 'f' then Some(c as nat - 87)
    else if 'A' <= c <= 'F' then Some(c as nat - 55)
    else None
  }

  lemma DigitValueOfHexChar(d: nat)
    requires d < 16
    ensures DigitValue(HexChar(d)) == Some(d)
  {
  }

  /** The last `width` hexadecimal digits of n, most significant first. */
  function HexDigits(n: nat, width: nat): (s: string)
    ensures |s| == width
    ensures forall i :: 0 <= i < |s| ==> IsLowerHexChar(s[i])
  {
    if width == 0 then [] else HexDigits(n / 16, width - 1) + [HexChar(n % 16)]
  }

  /** The number a string of hexadecimal digits denotes; None if some
      character is not a hexadecimal digit. */
  function HexValue(s: string): (r: Option<nat>)
    decreases |s|
  {
    if s == [] then Some(0)
    else match (HexValue(s[..|s| - 1]), DigitValue(s[|s| - 1]))
      case (Some(high), Some(low)) => Some(16 * high + low)
      case _ => None
  }

  lemma {:induction false} HexValueBound(s: string)
    requires HexValue(s).Some?
    ensures HexValue(s).value < Pow16(|s|)
    decreases |s|
  {
    if s != [] {
      var init := s[..|s| - 1];
      HexValueBound(init);
      var high := HexValue(init).value;
      var low := DigitValue(s[|s| - 1]).value;
      assert HexValue(s).value == 16 * high + low;
      assert high + 1 <= Pow16(|init|);
      assert 16 * high + low < 16 * (high + 1);
      assert 16 * (high + 1) <= 16 * Pow16(|init|);
    }
  }

  lemma HexValueSnoc(init: string, c: char)
    ensures HexValue(init + [c]) ==
      if HexValue(init).Some? && DigitValue(c).Some?
      then Some(16 * HexValue(init).value + DigitValue(c).value) else None
  {
    var s := init + [c];
    assert s[..|s| - 1] == init;
    assert s[|s| - 1] == c;
  }

  lemma DivideBy16(n: nat, p: nat)
    requires n < 16 * p
    ensures n / 16 < p && n == 16 * (n / 16) + n % 16
  {
  }

  /** Reading back the digits that HexDigits writes gives the number again. */
  lemma {:induction false} HexValueOfHexDigits(n: nat, width: nat)
    requires n < Pow16(width)
    ensures HexValue(HexDigits(n, width)) == Some(n)
  {
    if width > 0 {
      DivideBy16(n, Pow16(width - 1));
      HexValueOfHexDigits(n / 16, width - 1);
      DigitValueOfHexChar(n % 16);
      HexValueSnoc(HexDigits(n / 16, width - 1), HexChar(n % 16));
    }
  }

  /** s with every '-' removed, as str.replace('-', '') does. */
  function RemoveHyphens(s: string): (r: string)
    ensures |r| <= |s|
    ensures forall i :: 0 <= i < |r| ==> r[i] != '-'
  {
    if s == [] then []
    else if s[0] == '-' then RemoveHyphens(s[1..])
    else [s[0]] + RemoveHyphens(s[1..])
  }

  lemma {:induction false} RemoveHyphensAppend(a: string, b: string)
    ensures RemoveHyphens(a + b) == RemoveHyphens(a) + RemoveHyphens(b)
  {
    if a != [] {
      var ab := a + b;
      assert ab[0] == a[0] && ab[1..] == a[1..] + b;
      RemoveHyphensAppend(a[1..], b);
      if a[0] == '-' {
        calc {
          RemoveHyphens(ab);
          RemoveHyphens(a[1..] + b);
          RemoveHyphens(a[1..]) + RemoveHyphens(b);
          RemoveHyphens(a) + RemoveHyphens(b);
        }
      } else {
        calc {
          RemoveHyphens(ab);
          [a[0]] + RemoveHyphens(a[1..] + b);
          [a[0]] + (RemoveHyphens(a[1..]) + RemoveHyphens(b));
          ([a[0]] + RemoveHyphens(a[1..])) + RemoveHyphens(b);
          RemoveHyphens(a) + RemoveHyphens(b);
        }
      }
    } else {
      assert a + b == b;
    }
  }

  lemma {:induction false} RemoveHyphensNone(s: string)
    requires forall i :: 0 <= i < |s| ==> s[i] != '-'
    ensures RemoveHyphens(s) == s
  {
    if s != [] {
      RemoveHyphensNone(s[1..]);
    }
  }

  /** 32 digits in groups of 8-4-4-4-12, joined by hyphens. */
  function Group(h: string): (s: string)
    requires |h| == 32
    ensures |s| == 36
  {
    h[..8] + "-" + h[8..12] + "-" + h[12..16] + "-" + h[16..20] + "-" + h[20..]
  }

  /** str(uuid): 32 lower-case hex digits in groups of 8-4-4-4-12. */
  function Format(u: Uuid): (s: string)
    ensures |s| == 36
    ensures forall i :: 0 <= i < 36 ==> (s[i] == '-' <==> i in {8, 13, 18, 23})
    ensures forall i :: 0 <= i < 36 && i !in {8, 13, 18, 23} ==> IsLowerHexChar(s[i])
  {
    Group(HexDigits(u, 32))
  }

  /** uuid.UUID(s): None where Python raises ValueError. */
  function Parse(s: string): (r: Option<Uuid>)
    ensures r.Some? ==> |RemoveHyphens(s)| == 32 && HexValue(RemoveHyphens(s)) == Some(r.value as nat)
    ensures r.None? ==> |RemoveHyphens(s)| != 32 || HexValue(RemoveHyphens(s)).None?
  {
    var h := RemoveHyphens(s);
    if |h| != 32 then None
    else match HexValue(h)
      case None => None
      case Some(v) =>
        HexValueBound(h);
        Some(v)
  }

  lemma RemoveHyphensJoin(a: string, b: string)
    ensures RemoveHyphens(a + "-" + b) == RemoveHyphens(a) + RemoveHyphens(b)
  {
    RemoveHyphensAppend(a + "-", b);
    RemoveHyphensAppend(a, "-");
  }

  lemma RemoveHyphensOfGroup(h: string)
    requires |h| == 32
    requires forall i :: 0 <= i < |h| ==> h[i] != '-'
    ensures RemoveHyphens(Group(h)) == h
  {
    var g1, g2, g3, g4, g5 := h[..8], h[8..12], h[12..16], h[16..20], h[20..];
    RemoveHyphensNone(g1);
    RemoveHyphensNone(g2);
    RemoveHyphensNone(g3);
    RemoveHyphensNone(g4);
    RemoveHyphensNone(g5);
    var s1 := g1 + "-" + g2;
    RemoveHyphensJoin(g1, g2);
    var s2 := s1 + "-" + g3;
    RemoveHyphensJoin(s1, g3);
    var s3 := s2 + "-" + g4;
    RemoveHyphensJoin(s2, g4);
    RemoveHyphensJoin(s3, g5);
    assert Group(h) == s3 + "-" + g5;
    assert g1 + g2 + g3 + g4 + g5 == h;
  }

  /** Printing a UUID and reading it back gives the same UUID. */
  lemma ParseFormat(u: Uuid)
    ensures Parse(Format(u)) == Some(u)
  {
    HexValueOfHexDigits(u, 32);
    RemoveHyphensOfGroup(HexDigits(u, 32));
  }
}
