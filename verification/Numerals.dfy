/** Printing 32-bit numbers in bases up to 16. */
module Numerals {
  import opened Basics

  const HEX: string := "0123456789ABCDEF"

  function Unsigned(i: int): nat {
    i % UINT32
  }

  // ----- digits -----------------------------------------------------------------------------------

  /** The digits of v, most significant first; none for 0. */
  function Digits(v: nat, base: nat): seq<nat>
    requires base >= 2
  {
    if v == 0 then [] else Digits(v / base, base) + [v % base]
  }

  function Value(ds: seq<nat>, base: nat): nat {
    if ds == [] then 0 else Value(ds[..|ds| - 1], base) * base + ds[|ds| - 1]
  }

  /** A numeral: digits below the base, and no leading zero. */
  predicate Numeral(ds: seq<nat>, base: nat) {
    (forall i :: 0 <= i < |ds| ==> ds[i] < base) && (ds != [] ==> ds[0] != 0)
  }

  lemma Monotone(a: int, b: int, c: nat)
    ensures a <= b ==> a * c <= b * c
  {
  }

  lemma Times(q: nat, base: nat)
    requires base >= 2
    ensures q * base >= q * 2
  {
  }

  lemma DivLess(v: nat, base: nat)
    requires base >= 2
    ensures v == v / base * base + v % base && v % base < base && (v > 0 ==> v / base < v)
  {
    Times(v / base, base);
  }

  /** The digits are a numeral of the number they were taken from. */
  lemma {:induction false} DigitsRead(v: nat, base: nat)
    requires base >= 2
    ensures Value(Digits(v, base), base) == v && Numeral(Digits(v, base), base)
    ensures v != 0 ==> Digits(v, base) != []
    decreases v
  {
    if v != 0 {
      DivLess(v, base);
      DigitsRead(v / base, base);
      var ds := Digits(v / base, base);
      assert Digits(v, base)[..|ds|] == ds;
      if v / base == 0 {
        assert v % base == v;
      }
    }
  }

  /** It is the only one. */
  lemma {:induction false} OnlyNumeral(ds: seq<nat>, base: nat)
    requires base >= 2 && Numeral(ds, base)
    ensures ds == Digits(Value(ds, base), base) && (ds != [] ==> Value(ds, base) > 0)
    decreases |ds|
  {
    if ds != [] {
      var front, last := ds[..|ds| - 1], ds[|ds| - 1];
      OnlyNumeral(front, base);
      var v := Value(ds, base);
      QuotientIs(Value(front, base), base, last);
      if front == [] {
        assert v == ds[0];
      } else {
        assert v >= base;
      }
      assert ds == front + [last];
    }
  }

  lemma QuotientIs(q: nat, base: nat, r: nat)
    requires r < base
    ensures (q * base + r) / base == q && (q * base + r) % base == r
    ensures q > 0 ==> q * base + r >= base
  {
    var x := q * base + r;
    var p := x / base;
    assert x == p * base + x % base;
    Monotone(p, q - 1, base);
    Monotone(q + 1, p, base);
  }

  /** A number below 2^k has at most k digits in any base. */
  lemma {:induction false} DigitsBound(v: nat, base: nat, k: nat)
    requires base >= 2 && v < Pow2(k)
    ensures |Digits(v, base)| <= k
    decreases k
  {
    if v != 0 {
      DivLess(v, base);
      Halves(v, base);
      DigitsBound(v / base, base, k - 1);
    }
  }

  lemma Halves(v: nat, base: nat)
    requires base >= 2
    ensures v / base * 2 <= v
  {
    DivLess(v, base);
    Times(v / base, base);
  }

  lemma ThirtyTwo()
    ensures Pow2(32) == UINT32
  {
    assert Pow2(8) == 256;
    assert Pow2(16) == 256 * Pow2(8);
    assert Pow2(24) == 256 * Pow2(16);
    assert Pow2(32) == 256 * Pow2(24);
  }

  // ----- texts ------------------------------------------------------------------------------------

  function Render(ds: seq<nat>): string
    requires forall i :: 0 <= i < |ds| ==> ds[i] < 16
  {
    seq(|ds|, i requires 0 <= i < |ds| => HEX[ds[i]])
  }

  /** What uitoa writes before the terminating zero. Bases above 16 print 0. */
  function UitoaText(i: int, base: nat): string
    requires IsInt32(i) && (base >= 2 || i == 0)
  {
    if i == 0 || base > 16 then "0"
    else
      DigitsRead(Unsigned(i), base);
      Render(Digits(Unsigned(i), base))
  }

  function DigitOf(c: char): nat {
    if '0' <= c <= '9' then c as nat - '0' as nat
    else if 'A' <= c <= 'F' then c as nat - 'A' as nat + 10
    else 16
  }

  /** What a reader makes of a text of digits. */
  function Read(text: string, base: nat): nat {
    Value(seq(|text|, i requires 0 <= i < |text| => DigitOf(text[i])), base)
  }

  lemma HexDigits(d: nat)
    requires d < 16
    ensures DigitOf(HEX[d]) == d && (HEX[d] == '0' <==> d == 0)
  {
  }

  lemma RenderRead(ds: seq<nat>, base: nat)
    requires forall i :: 0 <= i < |ds| ==> ds[i] < 16
    ensures Read(Render(ds), base) == Value(ds, base)
  {
    var text := Render(ds);
    forall i | 0 <= i < |ds| ensures DigitOf(text[i]) == ds[i] {
      HexDigits(ds[i]);
    }
    assert seq(|text|, i requires 0 <= i < |text| => DigitOf(text[i])) == ds;
  }

  /** For every 32-bit number and base from 2 to 16: at most 32 digits below the base, without a
      leading zero but for 0 itself, that read as the number taken without sign. */
  lemma UitoaReads(i: int, base: nat)
    requires IsInt32(i) && 2 <= base <= 16
    ensures var text := UitoaText(i, base);
      && 1 <= |text| <= 32 && Read(text, base) == Unsigned(i)
      && (forall k :: 0 <= k < |text| ==> DigitOf(text[k]) < base)
      && (text[0] == '0' <==> i == 0) && (i == 0 ==> text == "0")
  {
    var v := Unsigned(i);
    if i == 0 {
      RenderRead([0], base);
      assert Render([0]) == "0" && Value([0], base) == 0 by {
        assert Value([], base) == 0;
      }
    } else {
      DigitsRead(v, base);
      ThirtyTwo();
      DigitsBound(v, base, 32);
      RenderRead(Digits(v, base), base);
      hide Digits, Value;
      RenderedDigits(Digits(v, base), base);
    }
  }

  lemma RenderedDigits(ds: seq<nat>, base: nat)
    requires base <= 16 && Numeral(ds, base) && ds != []
    ensures |Render(ds)| == |ds| && Render(ds)[0] != '0'
    ensures forall k :: 0 <= k < |ds| ==> DigitOf(Render(ds)[k]) < base
  {
    hide DigitOf;
    forall k | 0 <= k < |ds| ensures DigitOf(Render(ds)[k]) == ds[k] {
      HexDigits(ds[k]);
    }
    HexDigits(ds[0]);
  }

  /** What itoa writes: nothing for a base above 16, and a sign in base 10. */
  function ItoaText(i: int, base: nat): string
    requires IsInt32(i) && (base >= 2 || i == 0)
  {
    if base > 16 then ""
    else if base == 10 && i < 0 then "-" + UitoaText(Int32(-i), base)
    else UitoaText(i, base)
  }

  function ReadSigned(text: string): int {
    if text != "" && text[0] == '-' then -(Read(text[1..], 10) as int) else Read(text, 10)
  }

  lemma NoSign(c: char)
    requires DigitOf(c) < 10
    ensures c != '-'
  {
  }

  /** Base 10 texts read as the number with its sign, also for the smallest number, whose negation
      is itself; in the other bases they read as the number taken without sign. */
  lemma ItoaReads(i: int, base: nat)
    requires IsInt32(i) && 2 <= base <= 16
    ensures base == 10 ==> ReadSigned(ItoaText(i, base)) == i
    ensures base != 10 ==> Read(ItoaText(i, base), base) == Unsigned(i)
  {
    hide UitoaText, Read, DigitOf;
    UitoaReads(i, base);
    if base == 10 {
      if i < 0 {
        var text := UitoaText(Int32(-i), 10);
        UitoaReads(Int32(-i), 10);
        assert ("-" + text)[1..] == text;
      } else {
        assert DigitOf(UitoaText(i, 10)[0]) < 10;
        NoSign(UitoaText(i, 10)[0]);
      }
    }
  }

  /** Two numbers that print alike are the same 32 bits. */
  lemma UitoaInjective(i: int, j: int, base: nat)
    requires IsInt32(i) && IsInt32(j) && 2 <= base <= 16 && UitoaText(i, base) == UitoaText(j, base)
    ensures i == j
  {
    hide UitoaText, Read, DigitOf;
    UitoaReads(i, base);
    UitoaReads(j, base);
    assert Unsigned(i) == Unsigned(j);
  }

  // ----- the functions ----------------------------------------------------------------------------

  function Backwards(s: string): (r: string)
    ensures |r| == |s|
  {
    if s == "" then "" else Backwards(s[1..]) + [s[0]]
  }

  lemma {:induction false} BackwardsAt(s: string, k: nat)
    requires k < |s|
    ensures Backwards(s)[k] == s[|s| - 1 - k]
  {
    if k < |s| - 1 {
      BackwardsAt(s[1..], k);
    }
  }

  lemma {:induction false} BackwardsAppend(s: string, c: char)
    ensures Backwards(s + [c]) == [c] + Backwards(s)
  {
    if s != "" {
      assert (s + [c])[1..] == s[1..] + [c];
      BackwardsAppend(s[1..], c);
    } else {
      assert [c][1..] == "" && s + [c] == [c];
    }
  }

  /** One turn of the loop that takes digits off. */
  lemma TakeOne(u: nat, base: nat, low: seq<nat>)
    requires 0 < u < UINT32 && 2 <= base <= 16
    ensures Digits(u, base) + low == Digits(u / base, base) + ([u % base] + low)
  {
    DivLess(u, base);
    assert Digits(u / base, base) + [u % base] + low == Digits(u / base, base) + ([u % base] + low);
  }

  lemma Smaller(u: nat, base: nat, pos: nat)
    requires 0 < u < UINT32 && 2 <= base <= 16 && pos <= 32 && u < Pow2(32 - pos)
    ensures pos < 32 && u / base < u && u / base < Pow2(32 - (pos + 1))
    ensures Unsigned(Int32(u / base)) == u / base && IsInt32(Int32(u / base))
  {
    Halves(u, base);
    var q := u / base;
    assert q * 2 <= u;
    HalfWord(q);
  }

  lemma HalfWord(q: nat)
    requires q < 0x8000_0000
    ensures Unsigned(Int32(q)) == q && IsInt32(Int32(q))
  {
  }

  /** Takes the digits off a number, least significant first. */
  method TakeDigits(i: int, base: nat, tmp: array<char>) returns (pos: nat)
    requires IsInt32(i) && 2 <= base <= 16 && tmp.Length == 32
    modifies tmp
    ensures pos <= 32
    ensures var ds := Digits(Unsigned(i), base);
      (forall k :: 0 <= k < |ds| ==> ds[k] < 16) && Backwards(tmp[..pos]) == Render(ds)
  {
    hide Digits, Int32, Pow2, Backwards;
    var v := i;
    pos := 0;
    ghost var ds: seq<nat> := [];
    ThirtyTwo();
    assert Digits(Unsigned(i), base) == Digits(Unsigned(i), base) + [];
    while v != 0
      invariant IsInt32(v) && pos <= 32 && Unsigned(v) < Pow2(32 - pos)
      invariant Digits(Unsigned(i), base) == Digits(Unsigned(v), base) + ds
      invariant (forall k :: 0 <= k < |ds| ==> ds[k] < 16) && Backwards(tmp[..pos]) == Render(ds)
      decreases Unsigned(v)
    {
      var u := Unsigned(v);
      TakeOne(u, base, ds);
      Smaller(u, base, pos);
      DivLess(u, base);
      var c := HEX[u % base];
      tmp[pos] := c;
      BackwardsAppend(tmp[..pos], c);
      assert tmp[..pos + 1] == tmp[..pos] + [c];
      assert Render([u % base] + ds) == [c] + Render(ds);
      ds := [u % base] + ds;
      v := Int32(u / base);
      pos := pos + 1;
    }
    NoDigits(base);
  }

  lemma NoDigits(base: nat)
    requires base >= 2
    ensures Digits(0, base) == []
  {
  }

  lemma CopyOne(was: string, text: string, at: nat, k: nat)
    requires at + |text| < |was| && k < |text|
    ensures (was[..at] + text[..k] + was[at + k..])[at + k := text[k]] == was[..at] + text[..k + 1] + was[at + k + 1..]
  {
  }

  /** Copies the digits taken off, last one first. */
  method CopyBack(tmp: array<char>, top: nat, buf: array<char>, at: nat)
    requires top <= tmp.Length && at + top < buf.Length && tmp != buf
    modifies buf
    ensures buf[..] == old(buf[..])[..at] + Backwards(tmp[..top]) + ['\0'] + old(buf[..])[at + top + 1..]
  {
    hide Backwards;
    ghost var was, text := buf[..], Backwards(tmp[..top]);
    var pos, opos := top - 1, 0;
    while opos < top
      invariant 0 <= opos <= top && pos == top - 1 - opos
      invariant buf[..] == was[..at] + text[..opos] + was[at + opos..]
    {
      BackwardsAt(tmp[..top], opos);
      CopyOne(was, text, at, opos);
      buf[at + opos] := tmp[pos];
      pos, opos := pos - 1, opos + 1;
    }
    assert text[..top] == text;
    buf[at + opos] := '\0';
  }

  /** uitoa, writing from position at on. */
  method Uitoa(i: int, buf: array<char>, at: nat, base: nat)
    requires IsInt32(i) && (base >= 2 || i == 0)
    requires at + |UitoaText(i, base)| < buf.Length
    modifies buf
    ensures var text := UitoaText(i, base);
      buf[..] == old(buf[..])[..at] + text + ['\0'] + old(buf[..])[at + |text| + 1..]
    ensures base > 16 ==> buf[at] == '0' && buf[at + 1] == '\0'
  {
    hide Digits, Render, Backwards;
    if i == 0 || base > 16 {
      buf[at] := '0';
      buf[at + 1] := '\0';
      return;
    }
    var tmp := new char[32];
    var pos := TakeDigits(i, base, tmp);
    CopyBack(tmp, pos, buf, at);
  }

  method Itoa(i: int, buf: array<char>, base: nat)
    requires IsInt32(i) && (base >= 2 || i == 0)
    requires base <= 16 ==> |ItoaText(i, base)| < buf.Length
    modifies buf
    ensures base > 16 ==> buf[..] == old(buf[..])
    ensures base <= 16 ==> var text := ItoaText(i, base);
      buf[..] == text + ['\0'] + old(buf[..])[|text| + 1..]
  {
    hide UitoaText, Int32;
    if base > 16 {
      return;
    }
    ghost var was := buf[..];
    if base == 10 && i < 0 {
      NegationFits(i);
      buf[0] := '-';
      Uitoa(Int32(-i), buf, 1, base);
      Signed(was, UitoaText(Int32(-i), base));
    } else {
      Uitoa(i, buf, 0, base);
    }
  }

  lemma NegationFits(i: int)
    requires IsInt32(i)
    ensures IsInt32(Int32(-i))
  {
  }

  lemma Signed(was: string, text: string)
    requires 1 + |text| < |was|
    ensures was[0 := '-'][..1] + text + ['\0'] + was[0 := '-'][1 + |text| + 1..]
         == "-" + text + ['\0'] + was[|"-" + text| + 1..]
  {
  }
}
