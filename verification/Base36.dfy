/** The base-36 encoder behind soultoken display codes (BFIP cryptography.md section 3). */
module Base36 {
  import opened Text

  const ALPHABET := "0123456789ABCDEFGHIJKLMNOPQRSTUVWXYZ"
  const U128: nat := 0x1_0000_0000_0000_0000_0000_0000_0000_0000
  /** 36^12, the number of 12-character codes. */
  const CODES: nat := 4738381338321616896

  /** The number the bytes denote, big-endian. */
  function Value256(bytes: seq<Byte>): nat {
    if bytes == [] then 0 else 256 * Value256(bytes[..|bytes| - 1]) + bytes[|bytes| - 1]
  }

  predicate IsCodeChar(c: char) { '0' <= c <= '9' || 'A' <= c <= 'Z' }

  predicate IsCode(s: string) { forall c :: c in s ==> IsCodeChar(c) }

  function Character(d: int): (c: char)
    requires 0 <= d < 36
    ensures IsCodeChar(c) && CharacterValue(c) == d
  {
    if d < 10 then ('0' as int + d) as char else ('A' as int + d - 10) as char
  }

  function CharacterValue(c: char): (d: int)
    requires IsCodeChar(c)
    ensures 0 <= d < 36
  {
    if c <= '9' then c as int - '0' as int else c as int - 'A' as int + 10
  }

  lemma {:induction false} AlphabetLists(d: int)
    requires 0 <= d < 36
    ensures |ALPHABET| == 36 && ALPHABET[d] == Character(d)
  {
  }

  /** The number a code denotes, most significant character first. */
  function Decode(s: string): nat
    requires IsCode(s)
  {
    if s == [] then 0
    else
      assert s[|s| - 1] in s;
      36 * Decode(s[..|s| - 1]) + CharacterValue(s[|s| - 1])
  }

  /** The last `k` base-36 digits of `n`. */
  function Digits(n: nat, k: nat): (s: string)
    ensures |s| == k && IsCode(s)
  {
    if k == 0 then [] else Digits(n / 36, k - 1) + [Character(n % 36)]
  }

  function Encode(bytes: seq<Byte>): (s: string)
    ensures |s| == 12 && IsCode(s)
  {
    Digits(Value256(bytes) % U128, 12)
  }

  /**
   * The accumulator is a u128: a shift drops whatever leaves the top, so the wrap-around is written out.
   */
  method Accumulate(bytes: seq<Byte>) returns (n: nat)
    ensures n == Value256(bytes) % U128
  {
    n := 0;
    for i := 0 to |bytes|
      invariant n == Value256(bytes[..i]) % U128
    {
      assert bytes[..i + 1][..i] == bytes[..i];
      ShiftWraps(Value256(bytes[..i]), bytes[i]);
      n := (n * 256) % U128 + bytes[i];
    }
    assert bytes[..|bytes|] == bytes;
  }

  /** Digits are filled from the last position backwards. */
  method FillDigits(value: nat) returns (digits: array<nat>)
    ensures fresh(digits) && digits.Length == 12
    ensures forall k :: 0 <= k < 12 ==> digits[k] < 36 && Character(digits[k]) == Digits(value, 12)[k]
  {
    digits := new nat[12](_ => 0);
    var n, i := value, 12;
    while i > 0
      invariant 0 <= i <= 12
      invariant forall k :: i <= k < 12 ==> digits[k] < 36 && Character(digits[k]) == Digits(value, 12)[k]
      invariant Digits(value, 12)[..i] == Digits(n, i)
    {
      i := i - 1;
      digits[i] := n % 36;
      assert Digits(value, 12)[i] == Digits(n, i + 1)[i];
      assert Digits(value, 12)[..i] == Digits(n, i + 1)[..i] == Digits(n / 36, i);
      n := n / 36;
    }
  }

  method Base36Encode(bytes: seq<Byte>) returns (code: string)
    ensures code == Encode(bytes)
    ensures |bytes| <= 16 ==> Decode(code) == Value256(bytes) % CODES
  {
    var n := Accumulate(bytes);
    var digits := FillDigits(n);
    code := [];
    ghost var spelled := Digits(n, 12);
    for k := 0 to 12
      invariant |code| == k && code == spelled[..k]
      invariant forall j :: 0 <= j < 12 ==> digits[j] < 36 && Character(digits[j]) == spelled[j]
    {
      var d := digits[k];
      AlphabetLists(d);
      code := code + [ALPHABET[d]];
    }
    assert code == spelled[..12] == spelled;
    if |bytes| <= 16 {
      DecodeEncode(bytes);
    }
  }

  const U120: nat := 0x1_00_0000_0000_0000_0000_0000_0000_0000

  /** Wrapping before the shift or only after it makes no difference. */
  lemma {:induction false} ShiftWraps(v: nat, b: Byte)
    ensures ((v % U128) * 256) % U128 + b == (256 * v + b) % U128
  {
    var q, r := v / U128, v % U128;
    var q', s := r / U120, r % U120;
    assert v == q * U128 + r && r == q' * U120 + s;
    ModUnique(r * 256, U128, q', 256 * s);
    ModUnique(256 * v + b, U128, 256 * q + q', 256 * s + b);
  }

  lemma {:induction false} DivMod(v: nat, m: nat)
    requires m > 0
    ensures v == (v / m) * m + v % m && v % m < m
  {
  }

  lemma {:induction false} Scale(q: nat, m: nat, r: nat, c: nat)
    ensures c * (q * m + r) == q * (c * m) + c * r
  {
    Swap(c, q, m);
  }

  lemma {:induction false} Swap(c: nat, q: nat, m: nat)
    ensures c * (q * m) == q * (c * m) == (c * q) * m
  {
  }

  // ---- the encoder is positional arithmetic ----

  lemma {:induction false} DigitsDecode(n: nat, k: nat)
    ensures Decode(Digits(n, k)) == n % Pow(36, k)
  {
    if k > 0 {
      var d := Digits(n, k);
      DigitsDecode(n / 36, k - 1);
      assert d[..k - 1] == Digits(n / 36, k - 1);
      ModSplit(n, Pow(36, k - 1));
    }
  }

  lemma {:induction false} ModSplit(n: nat, m: nat)
    requires m > 0
    ensures 36 * ((n / 36) % m) + n % 36 == n % (36 * m)
  {
    var h, l := n / 36, n % 36;
    var q, r := h / m, h % m;
    DivMod(h, m);
    Scale(q, m, r, 36);
    ModUnique(n, 36 * m, q, 36 * r + l);
  }

  lemma {:induction false} ModUnique(n: nat, m: nat, q: nat, r: nat)
    requires m > 0 && r < m && n == q * m + r
    ensures n % m == r
  {
    var q', r' := n / m, n % m;
    assert n == q' * m + r' && r' < m;
    if q < q' {
      MulAtLeast(q' - q, m);
    } else if q' < q {
      MulAtLeast(q - q', m);
    }
  }

  lemma {:induction false} MulAtLeast(d: nat, m: nat)
    requires d >= 1
    ensures d * m >= m
  {
  }

  lemma {:induction false} BytePowers()
    ensures Pow(256, 7) == 0x100_0000_0000_0000
    ensures Pow(256, 16) == U128
  {
    assert Pow(256, 1) == 256 * Pow(256, 0);
    assert Pow(256, 2) == 256 * Pow(256, 1) == 0x1_0000;
    assert Pow(256, 4) == 256 * Pow(256, 3) == 0x1_0000_0000;
    assert Pow(256, 6) == 256 * Pow(256, 5) == 0x1_0000_0000_0000;
    assert Pow(256, 7) == 256 * Pow(256, 6);
    assert Pow(256, 9) == 256 * Pow(256, 8) == 0x1_00_0000_0000_0000_0000;
    assert Pow(256, 11) == 256 * Pow(256, 10) == 0x1_00_0000_0000_0000_0000_0000;
    assert Pow(256, 13) == 256 * Pow(256, 12) == 0x1_00_0000_0000_0000_0000_0000_0000;
    assert Pow(256, 15) == 256 * Pow(256, 14) == 0x1_00_0000_0000_0000_0000_0000_0000_0000;
  }

  lemma {:induction false} CodesIsPow()
    ensures CODES == Pow(36, 12)
  {
    assert Pow(36, 3) == 46656;
    assert Pow(36, 6) == 46656 * 46656 == 2176782336;
    assert Pow(36, 9) == 46656 * 2176782336 == 101559956668416;
  }

  lemma {:induction false} ValueBound(bytes: seq<Byte>)
    ensures Value256(bytes) < Pow(256, |bytes|)
  {
    if bytes == [] {
    } else {
      ValueBound(bytes[..|bytes| - 1]);
    }
  }

  lemma {:induction false} PowMonotone(b: nat, i: nat, j: nat)
    requires b > 0 && i <= j
    ensures Pow(b, i) <= Pow(b, j)
  {
    if i < j {
      PowMonotone(b, i, j - 1);
      assert b * Pow(b, j - 1) >= Pow(b, j - 1);
    }
  }

  lemma {:induction false} ValueFits(bytes: seq<Byte>)
    ensures |bytes| <= 16 ==> Value256(bytes) < U128
    ensures |bytes| <= 7 ==> Value256(bytes) < CODES
  {
    ValueBound(bytes);
    BytePowers();
    if |bytes| <= 7 {
      PowMonotone(256, |bytes|, 7);
    } else if |bytes| <= 16 {
      PowMonotone(256, |bytes|, 16);
    }
  }

  lemma {:induction false} SmallMod(v: nat, m: nat)
    requires v < m
    ensures v % m == v
  {
  }

  lemma {:induction false} SelfMod(m: nat)
    requires m > 0
    ensures m % m == 0 % m == 0
  {
  }

  lemma {:induction false} TwelveDigits(n: nat)
    ensures Decode(Digits(n, 12)) == n % CODES
  {
    DigitsDecode(n, 12);
    CodesIsPow();
  }

  /** Up to 16 bytes the accumulator never overflows, and the code denotes the value modulo 36^12. */
  lemma {:induction false} DecodeEncode(bytes: seq<Byte>)
    requires |bytes| <= 16
    ensures Value256(bytes) < U128
    ensures Decode(Encode(bytes)) == Value256(bytes) % CODES
  {
    ValueFits(bytes);
    SmallMod(Value256(bytes), U128);
    TwelveDigits(Value256(bytes));
  }

  lemma {:induction false} DecodeLast(s: string)
    requires IsCode(s) && s != []
    ensures IsCodeChar(s[|s| - 1]) && IsCode(s[..|s| - 1])
    ensures Decode(s) == 36 * Decode(s[..|s| - 1]) + CharacterValue(s[|s| - 1])
  {
    assert s[|s| - 1] in s;
  }

  lemma {:induction false} CharacterInjective(c: char, d: char)
    requires IsCodeChar(c) && IsCodeChar(d) && CharacterValue(c) == CharacterValue(d)
    ensures c == d
  {
  }

  lemma {:induction false} DecodeInjective(a: string, b: string)
    requires |a| == |b| && IsCode(a) && IsCode(b)
    requires Decode(a) == Decode(b)
    ensures a == b
  {
    if a == [] {
    } else {
      var n := |a| - 1;
      DecodeLast(a);
      DecodeLast(b);
      DecodeInjective(a[..n], b[..n]);
      CharacterInjective(a[n], b[n]);
      assert a == a[..n] + [a[n]] && b == b[..n] + [b[n]];
    }
  }

  /** Two inputs share a code exactly when their values agree modulo 36^12. */
  lemma {:induction false} SameCodeIff(a: seq<Byte>, b: seq<Byte>)
    requires |a| <= 16 && |b| <= 16
    ensures Encode(a) == Encode(b) <==> Value256(a) % CODES == Value256(b) % CODES
  {
    DecodeEncode(a);
    DecodeEncode(b);
    if Value256(a) % CODES == Value256(b) % CODES {
      DecodeInjective(Encode(a), Encode(b));
    }
  }

  lemma {:induction false} ValueInjective(a: seq<Byte>, b: seq<Byte>)
    requires |a| == |b| && Value256(a) == Value256(b)
    ensures a == b
  {
    if a == [] {
    } else {
      var n := |a| - 1;
      ValueInjective(a[..n], b[..n]);
      assert a == a[..n] + [a[n]] && b == b[..n] + [b[n]];
    }
  }

  ghost predicate CollisionFree(len: nat) {
    forall a: seq<Byte>, b: seq<Byte> :: |a| == len && |b| == len && Encode(a) == Encode(b) ==> a == b
  }

  lemma {:induction false} LeadingZeros(k: nat, s: seq<Byte>)
    ensures Value256(seq(k, _ => 0) + s) == Value256(s)
  {
    var z: seq<Byte> := seq(k, _ => 0) + s;
    if s != [] {
      assert z[..|z| - 1] == seq(k, _ => 0) + s[..|s| - 1];
      LeadingZeros(k, s[..|s| - 1]);
    } else if k > 0 {
      assert z[..|z| - 1] == seq(k - 1, _ => 0) + [];
      LeadingZeros(k - 1, []);
    }
  }

  /** 36^12 as bytes: the smallest non-zero value that encodes like zero. */
  const WRAP: seq<Byte> := [0x41, 0xC2, 0x1C, 0xB8, 0xE1, 0, 0, 0]

  lemma {:induction false} WrapValue()
    ensures Value256(WRAP) == CODES
  {
    assert WRAP[..7][..6] == WRAP[..6] && WRAP[..6][..5] == WRAP[..5] && WRAP[..5][..4] == WRAP[..4];
    assert WRAP[..4][..3] == WRAP[..3] && WRAP[..3][..2] == WRAP[..2] && WRAP[..2][..1] == WRAP[..1];
    assert WRAP[..1][..0] == [];
    assert Value256(WRAP[..1]) == 0x41;
    assert Value256(WRAP[..2]) == 0x41C2;
    assert Value256(WRAP[..3]) == 0x41C21C;
    assert Value256(WRAP[..4]) == 0x41C21CB8;
    assert Value256(WRAP[..5]) == 0x41C21CB8E1;
    assert Value256(WRAP[..6]) == 0x41C21CB8E100;
    assert Value256(WRAP[..7]) == 0x41C21CB8E10000;
  }

  lemma {:induction false} ShortInputsDiffer(a: seq<Byte>, b: seq<Byte>)
    requires |a| == |b| <= 7 && Encode(a) == Encode(b)
    ensures a == b
  {
    SameCodeIff(a, b);
    ValueFits(a);
    ValueFits(b);
    SmallMod(Value256(a), CODES);
    SmallMod(Value256(b), CODES);
    ValueInjective(a, b);
  }

  /** From 8 bytes on, zero and 36^12 collide. */
  lemma {:induction false} LongInputsCollide(len: nat) returns (a: seq<Byte>, b: seq<Byte>)
    requires 8 <= len <= 16
    ensures |a| == |b| == len && a != b && Encode(a) == Encode(b)
  {
    a := seq(len - 8, _ => 0) + WRAP;
    b := seq(len, _ => 0);
    LeadingZeros(len - 8, WRAP);
    LeadingZeros(len, []);
    assert b + [] == b;
    WrapValue();
    assert Value256(a) == CODES && Value256(b) == 0;
    SelfMod(CODES);
    SameCodeIff(a, b);
    assert a[len - 8] == 0x41;
  }

  /**
   * Inputs of one length never collide exactly up to 7 bytes. The display code takes 9 bytes of the
   * HMAC tag, so distinct tags can share a display code.
   */
  lemma {:induction false} CollisionFreeIff(len: nat)
    requires len <= 16
    ensures CollisionFree(len) <==> len <= 7
  {
    if len <= 7 {
      forall a: seq<Byte>, b: seq<Byte> | |a| == len && |b| == len && Encode(a) == Encode(b) ensures a == b {
        ShortInputsDiffer(a, b);
      }
    } else {
      var a, b := LongInputsCollide(len);
    }
  }

  // ---- display codes ----

  /** `XXXX-XXXX-XXXX` */
  function Hyphenate(code: string): (s: string)
    requires |code| == 12
    ensures |s| == 14
  {
    code[0..4] + "-" + code[4..8] + "-" + code[8..12]
  }

  /** The display code of an HMAC tag: its first nine bytes, encoded and grouped. */
  function DisplayCode(tag: seq<Byte>): (s: string)
    requires |tag| >= 9
    ensures |s| == 14
  {
    Hyphenate(Encode(tag[..9]))
  }

  /** Dropping the hyphens recovers the code, so a display code denotes the tag prefix modulo 36^12. */
  lemma {:induction false} DisplayCodeDecodes(tag: seq<Byte>)
    requires |tag| >= 9
    ensures var d := DisplayCode(tag);
            var code := d[0..4] + d[5..9] + d[10..14];
            d[4] == '-' && d[9] == '-' && IsCode(code) && Decode(code) == Value256(tag[..9]) % CODES
  {
    var c, d := Encode(tag[..9]), DisplayCode(tag);
    assert d[0..4] + d[5..9] + d[10..14] == c by {
      assert d[0..4] == c[0..4] && d[5..9] == c[4..8] && d[10..14] == c[8..12];
    }
    DecodeEncode(tag[..9]);
  }

  lemma {:induction false} SameDisplayCodeIff(s: seq<Byte>, t: seq<Byte>)
    requires |s| >= 9 && |t| >= 9
    ensures DisplayCode(s) == DisplayCode(t) <==> Value256(s[..9]) % CODES == Value256(t[..9]) % CODES
  {
    DisplayCodeDecodes(s);
    DisplayCodeDecodes(t);
    SameCodeIff(s[..9], t[..9]);
  }
}
