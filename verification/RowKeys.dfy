/** Row keys of the `blocks` table: a slot printed with `%016x`, read back with
    `big.Int.SetString(key, 16)`, and compared byte by byte by the table's range scan. */
module RowKeys {
  import opened Basics

  const TWO64 := 0x1_0000_0000_0000_0000

  function HexDigit(d: int): char
    requires 0 <= d < 16
  {
    if d < 10 then ('0' as int + d) as char else ('a' as int + d - 10) as char
  }

  /** `%x`: the shortest lower-case rendering. */
  function Hex(n: nat): string
  {
    if n < 16 then [HexDigit(n)] else Hex(n / 16) + [HexDigit(n % 16)]
  }

  function Zeros(n: nat): string
  {
    if n == 0 then "" else ['0'] + Zeros(n - 1)
  }

  /** `%016x`: padded on the left with zeros to at least sixteen characters. */
  function Key(slot: uint64): string
  {
    var h := Hex(slot);
    if |h| < 16 then Zeros(16 - |h|) + h else h
  }

  function DigitValue(c: char): Option<nat>
  {
    if '0' <= c <= '9' then Some(c as int - '0' as int)
    else if 'a' <= c <= 'f' then Some(c as int - 'a' as int + 10)
    else if 'A' <= c <= 'F' then Some(c as int - 'A' as int + 10)
    else None
  }

  /** Digits in base 16, most significant first; the empty text counts as zero here. */
  function Digits(s: string): Option<nat>
  {
    if s == "" then Some(0) else
      match Digits(s[..|s| - 1])
      case None => None
      case Some(v) =>
        match DigitValue(Last(s))
        case None => None
        case Some(d) => Some(16 * v + d)
  }

  /** `new(big.Int).SetString(s, 16)` followed by `Uint64()`: an optional sign, at least one
      digit of either case, and the low 64 bits of the magnitude. `None` is the nil `big.Int`. */
  function ParseKey(s: string): Option<uint64>
  {
    var digits := if s != "" && (s[0] == '+' || s[0] == '-') then s[1..] else s;
    if digits == "" then None else
      match Digits(digits)
      case None => None
      case Some(v) => Some(v % TWO64)
  }

  /** Byte-wise order, as the table sorts its keys; a proper prefix comes first. */
  predicate KeyLess(a: string, b: string)
  {
    b != "" && (a == "" || a[0] < b[0] || (a[0] == b[0] && KeyLess(a[1..], b[1..])))
  }

  /** `bigtable.NewRange(begin, "")` holds every key from `begin` on. */
  predicate InRange(begin: string, key: string) { !KeyLess(key, begin) }

  // ----- the shape of a key -----

  predicate IsLowerHex(c: char) { '0' <= c <= '9' || 'a' <= c <= 'f' }

  lemma DigitOrder(c: char, d: char)
    requires IsLowerHex(c) && IsLowerHex(d)
    ensures DigitValue(c).Some? && 0 <= DigitValue(c).value < 16
    ensures DigitValue(d).Some? && 0 <= DigitValue(d).value < 16
    ensures c < d <==> DigitValue(c).value < DigitValue(d).value
    ensures c == d <==> DigitValue(c).value == DigitValue(d).value
  {
  }

  lemma DigitsSnoc(s: string, c: char)
    requires IsLowerHex(c) && Digits(s).Some?
    ensures Digits(s + [c]) == Some(16 * Digits(s).value + DigitValue(c).value)
  {
    assert (s + [c])[..|s + [c]| - 1] == s;
    DigitOrder(c, c);
  }

  predicate LowerHex(s: string)
  {
    forall i :: 0 <= i < |s| ==> IsLowerHex(s[i])
  }

  function Pow16(n: nat): nat
  {
    if n == 0 then 1 else 16 * Pow16(n - 1)
  }

  lemma Pow16Add(m: nat, n: nat)
    ensures Pow16(m + n) == Pow16(m) * Pow16(n)
  {
    if m > 0 {
      Pow16Add(m - 1, n);
      assert Pow16(m + n) == 16 * (Pow16(m - 1) * Pow16(n));
    }
  }

  lemma Pow16At16()
    ensures Pow16(16) == TWO64
  {
    Pow16Add(1, 1);
    Pow16Add(2, 2);
    Pow16Add(4, 4);
    Pow16Add(8, 8);
  }

  lemma {:induction false} HexShape(n: nat)
    ensures LowerHex(Hex(n)) && |Hex(n)| >= 1
    ensures Digits(Hex(n)) == Some(n)
    ensures Hex(n)[0] != '+' && Hex(n)[0] != '-'
  {
    if n < 16 {
      assert Hex(n)[..0] == "";
    } else {
      HexShape(n / 16);
      assert Hex(n)[..|Hex(n)| - 1] == Hex(n / 16);
    }
  }

  lemma {:induction false} HexLength(n: nat, width: nat)
    requires 1 <= width && n < Pow16(width)
    ensures |Hex(n)| <= width
  {
    if n >= 16 {
      assert Pow16(1) == 16 * Pow16(0);
      HexLength(n / 16, width - 1);
    }
  }

  lemma {:induction false} ZerosSnoc(n: nat)
    ensures Zeros(n + 1) == Zeros(n) + ['0']
    ensures |Zeros(n)| == n
  {
    if n > 0 { ZerosSnoc(n - 1); }
  }

  lemma {:induction false} ZerosAreZero(n: nat)
    ensures |Zeros(n)| == n && LowerHex(Zeros(n)) && Digits(Zeros(n)) == Some(0)
    ensures n > 0 ==> Zeros(n)[0] == '0'
  {
    if n > 0 {
      ZerosAreZero(n - 1);
      ZerosSnoc(n - 1);
      DigitsSnoc(Zeros(n - 1), '0');
    }
  }

  /** Zeros on the left change nothing. */
  lemma {:induction false} ZerosShape(n: nat, s: string)
    requires LowerHex(s)
    ensures Digits(s).Some? && Digits(Zeros(n) + s) == Digits(s)
  {
    if s == "" {
      ZerosAreZero(n);
      assert Zeros(n) + "" == Zeros(n);
    } else {
      var init, c := s[..|s| - 1], Last(s);
      ZerosShape(n, init);
      assert s == init + [c] && Zeros(n) + s == (Zeros(n) + init) + [c];
      DigitsSnoc(init, c);
      DigitsSnoc(Zeros(n) + init, c);
    }
  }

  lemma KeyShape(slot: uint64)
    ensures |Key(slot)| == 16 && LowerHex(Key(slot))
    ensures Digits(Key(slot)) == Some(slot)
    ensures Key(slot)[0] != '+' && Key(slot)[0] != '-'
  {
    HexShape(slot);
    Pow16At16();
    HexLength(slot, 16);
    PaddedShape(Hex(slot), slot);
  }

  lemma PaddedShape(h: string, n: nat)
    requires 1 <= |h| <= 16 && LowerHex(h) && Digits(h) == Some(n)
    ensures |Zeros(16 - |h|) + h| == 16
    ensures LowerHex(Zeros(16 - |h|) + h)
    ensures Digits(Zeros(16 - |h|) + h) == Some(n)
    ensures var c := (Zeros(16 - |h|) + h)[0]; c != '+' && c != '-'
  {
    ZerosShape(16 - |h|, h);
    ZerosAreZero(16 - |h|);
    assert '0' <= (Zeros(16 - |h|) + h)[0];
  }

  // ----- keys in general -----

  /** A hexadecimal digit of either case. */
  predicate IsHex(c: char) { '0' <= c <= '9' || 'a' <= c <= 'f' || 'A' <= c <= 'F' }

  predicate IsSign(c: char) { c == '+' || c == '-' }

  lemma {:induction false} DigitsIff(s: string)
    ensures Digits(s).Some? <==> forall i :: 0 <= i < |s| ==> IsHex(s[i])
  {
    if s != "" {
      var n := |s| - 1;
      DigitsIff(s[..n]);
      assert Last(s) == s[n] && forall i :: 0 <= i < n ==> s[..n][i] == s[i];
    }
  }

  /** Which texts are keys at all: one digit or more, after a sign or none. */
  lemma KeyParsesIff(s: string)
    ensures
      var digits := if s != "" && IsSign(s[0]) then s[1..] else s;
      ParseKey(s).Some? <==> digits != "" && forall i :: 0 <= i < |digits| ==> IsHex(digits[i])
  {
    DigitsIff(if s != "" && IsSign(s[0]) then s[1..] else s);
  }

  /** A sign changes nothing: the 64 bits taken are the magnitude's. */
  lemma SignIsIgnored(s: string)
    requires s != "" && !IsSign(s[0])
    ensures ParseKey("+" + s) == ParseKey(s) == ParseKey("-" + s)
  {
    assert ("+" + s)[1..] == s && ("-" + s)[1..] == s;
  }

  predicate SameDigit(c: char, d: char)
  {
    c == d || ('a' <= c <= 'f' && c as int - d as int == 32) || ('a' <= d <= 'f' && d as int - c as int == 32)
  }

  lemma {:induction false} CaseIsIgnored(s: string, t: string)
    requires |s| == |t| && forall i :: 0 <= i < |s| ==> SameDigit(s[i], t[i])
    ensures Digits(s) == Digits(t)
  {
    if s != "" {
      var n := |s| - 1;
      CaseIsIgnored(s[..n], t[..n]);
      assert Last(s) == s[n] && Last(t) == t[n] && SameDigit(s[n], t[n]);
    }
  }

  lemma {:induction false} DigitsAppend(s: string, t: string)
    requires Digits(s).Some? && Digits(t).Some?
    ensures Digits(s + t) == Some(Digits(s).value * Pow16(|t|) + Digits(t).value)
  {
    if t == "" {
      assert s + t == s;
    } else {
      var n := |t| - 1;
      var init := t[..n];
      AppendInit(s, t);
      DigitsAppend(s, init);
      ShiftDigit(Digits(s).value, Pow16(n), Digits(init).value);
      OneDigitMore(t);
      OneDigitMore(s + t);
    }
  }

  lemma AppendInit(s: string, t: string)
    requires t != ""
    ensures (s + t)[..|s + t| - 1] == s + t[..|t| - 1] && Last(s + t) == Last(t)
  {
  }

  lemma OneDigitMore(s: string)
    requires s != ""
    ensures
      var init, d := Digits(s[..|s| - 1]), DigitValue(Last(s));
      Digits(s) == if init.Some? && d.Some? then Some(16 * init.value + d.value) else None
  {
  }

  lemma ShiftDigit(high: nat, power: nat, low: nat)
    ensures 16 * (high * power + low) == high * (16 * power) + 16 * low
  {
  }

  /** Of a key of more than sixteen digits, the last sixteen count. */
  lemma LowDigitsCount(s: string, t: string)
    requires s != "" && !IsSign(s[0]) && |t| == 16 && !IsSign(t[0])
    requires Digits(s).Some? && Digits(t).Some?
    ensures ParseKey(s + t) == ParseKey(t)
  {
    var high, low := Digits(s).value, Digits(t).value;
    AppendSixteen(s, t, high, low);
    UnsignedKey(s + t, high * TWO64 + low);
    UnsignedKey(t, low);
    LowBits(high, low);
  }

  lemma AppendSixteen(s: string, t: string, high: nat, low: nat)
    requires |t| == 16 && Digits(s) == Some(high) && Digits(t) == Some(low)
    ensures Digits(s + t) == Some(high * TWO64 + low)
  {
    DigitsAppend(s, t);
    Pow16At16();
  }

  lemma UnsignedKey(s: string, v: nat)
    requires s != "" && !IsSign(s[0]) && Digits(s) == Some(v)
    ensures ParseKey(s) == Some(v % TWO64)
  {
  }

  lemma LowBits(high: nat, low: nat)
    ensures (high * TWO64 + low) % TWO64 == low % TWO64
  {
    assert high * TWO64 + low == TWO64 * (high + low / TWO64) + low % TWO64;
  }

  // ----- round trip and order -----

  /** The key of a slot reads back as that slot. */
  lemma KeyRoundTrip(slot: uint64)
    ensures ParseKey(Key(slot)) == Some(slot)
  {
    KeyShape(slot);
  }

  lemma {:induction false} KeyLessSnoc(a: string, b: string, c: char, d: char)
    requires |a| == |b|
    ensures KeyLess(a + [c], b + [d]) <==> KeyLess(a, b) || (a == b && c < d)
  {
    if a != "" {
      assert (a + [c])[1..] == a[1..] + [c] && (b + [d])[1..] == b[1..] + [d];
      KeyLessSnoc(a[1..], b[1..], c, d);
      assert a == [a[0]] + a[1..] && b == [b[0]] + b[1..];
    }
  }

  /** On lower-case hexadecimal texts of one length, byte order is numeric order. */
  lemma {:induction false} SameLengthOrder(a: string, b: string)
    requires |a| == |b| && LowerHex(a) && LowerHex(b)
    ensures Digits(a).Some? && Digits(b).Some?
    ensures KeyLess(a, b) <==> Digits(a).value < Digits(b).value
    ensures a == b <==> Digits(a).value == Digits(b).value
  {
    if a != "" {
      var n := |a| - 1;
      var a', b', c, d := a[..n], b[..n], a[n], b[n];
      assert a == a' + [c] && b == b' + [d];
      SameLengthOrder(a', b');
      KeyLessSnoc(a', b', c, d);
      DigitOrder(c, d);
      DigitsSnoc(a', c);
      DigitsSnoc(b', d);
    }
  }

  /** Keys sort as their slots do, so a scan from one slot's key returns exactly the slots from it on. */
  lemma KeyOrder(a: uint64, b: uint64)
    ensures KeyLess(Key(a), Key(b)) <==> a < b
    ensures InRange(Key(a), Key(b)) <==> a <= b
    ensures Key(a) == Key(b) <==> a == b
  {
    KeyShape(a);
    KeyShape(b);
    SameLengthOrder(Key(a), Key(b));
    SameLengthOrder(Key(b), Key(a));
  }

  /** Only padded lower-case keys sort that way: the key "2" is inside the scan from slot 3. */
  lemma UnpaddedKeyIsMisplaced()
    ensures InRange(Key(3), "2") && ParseKey("2") == Some(2)
  {
    KeyShape(3);
    ZerosAreZero(15);
    assert Key(3)[0] == '0';
    assert "2"[..0] == "";
    assert Digits("2") == Some(2);
  }
}
