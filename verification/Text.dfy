/** Rust's Display for integers, zero padding, hex, and splitting at a separator. */
module Text {
  import opened Common

  type Byte = b: int | 0 <= b < 256

  predicate IsDigit(c: char) { '0' <= c <= '9' }

  predicate AllDigits(s: string) { forall c :: c in s ==> IsDigit(c) }

  function Digit(d: int): (c: char)
    requires 0 <= d < 10
    ensures IsDigit(c) && c as int - '0' as int == d
  {
    ('0' as int + d) as char
  }

  /** The number a digit string denotes. */
  function Value(s: string): nat
    requires AllDigits(s)
  {
    if s == [] then 0
    else
      var last := s[|s| - 1];
      assert IsDigit(last);
      10 * Value(s[..|s| - 1]) + (last as int - '0' as int)
  }

  function DecNat(n: nat): (s: string)
    ensures s != [] && AllDigits(s)
  {
    if n < 10 then [Digit(n)] else DecNat(n / 10) + [Digit(n % 10)]
  }

  function Dec(n: int): (s: string)
    ensures s != [] && forall c :: c in s ==> IsDigit(c) || c == '-'
  {
    if n < 0 then "-" + DecNat(-n) else DecNat(n)
  }

  lemma {:induction false} DecNatValue(n: nat)
    ensures Value(DecNat(n)) == n
  {
    if n < 10 {
      assert DecNat(n)[..0] == [];
    } else {
      DecNatValue(n / 10);
      assert DecNat(n)[..|DecNat(n)| - 1] == DecNat(n / 10);
    }
  }

  /** No leading zero, and no sign on zero. */
  lemma {:induction false} DecCanonical(n: int)
    ensures n == 0 ==> Dec(n) == "0"
    ensures n > 0 ==> Dec(n)[0] in "123456789"
    ensures n < 0 ==> Dec(n) == "-" + Dec(-n)
  {
    if n >= 10 {
      DecCanonical(n / 10);
    }
  }

  lemma {:induction false} DecInjective(a: int, b: int)
    requires Dec(a) == Dec(b)
    ensures a == b
  {
    assert Dec(a)[0] == '-' <==> a < 0 by { if a >= 0 { assert DecNat(a)[0] in DecNat(a); } }
    assert Dec(b)[0] == '-' <==> b < 0 by { if b >= 0 { assert DecNat(b)[0] in DecNat(b); } }
    if a < 0 {
      assert DecNat(-a) == Dec(a)[1..] == Dec(b)[1..] == DecNat(-b);
      DecNatValue(-a);
      DecNatValue(-b);
    } else {
      DecNatValue(a);
      DecNatValue(b);
    }
  }

  // ---- zero padding ----

  function Zeros(k: nat): (s: string)
    ensures |s| == k && AllDigits(s)
  {
    seq(k, _ => '0')
  }

  /** `{:0w}`: at least `w` digits. */
  function Pad(n: nat, w: nat): (s: string)
    ensures |s| >= w && AllDigits(s)
  {
    var d := DecNat(n);
    if |d| >= w then d else Zeros(w - |d|) + d
  }

  lemma {:induction false} ValueZeros(k: nat, s: string)
    requires AllDigits(s)
    ensures AllDigits(Zeros(k) + s)
    ensures Value(Zeros(k) + s) == Value(s)
  {
    var z := Zeros(k) + s;
    if s != [] {
      assert z[..|z| - 1] == Zeros(k) + s[..|s| - 1];
      ValueZeros(k, s[..|s| - 1]);
    } else if k > 0 {
      assert z[..|z| - 1] == Zeros(k - 1) + [];
      ValueZeros(k - 1, []);
    }
  }

  lemma {:induction false} PadValue(n: nat, w: nat)
    ensures Value(Pad(n, w)) == n
  {
    var k := if |DecNat(n)| >= w then 0 else w - |DecNat(n)|;
    assert Zeros(0) + DecNat(n) == DecNat(n);
    ValueZeros(k, DecNat(n));
    DecNatValue(n);
  }

  lemma {:induction false} PadInjective(a: nat, b: nat, w: nat)
    requires Pad(a, w) == Pad(b, w)
    ensures a == b
  {
    ValueZeros(if |DecNat(a)| >= w then 0 else w - |DecNat(a)|, DecNat(a));
    ValueZeros(if |DecNat(b)| >= w then 0 else w - |DecNat(b)|, DecNat(b));
    assert Zeros(0) + DecNat(a) == DecNat(a) && Zeros(0) + DecNat(b) == DecNat(b);
    DecNatValue(a);
    DecNatValue(b);
  }

  function Pow(b: nat, e: nat): (p: nat)
    ensures b > 0 ==> p > 0
  {
    if e == 0 then 1 else b * Pow(b, e - 1)
  }

  lemma {:induction false} DecNatLength(n: nat, w: nat, bound: nat)
    requires w >= 1 && n < bound && bound == Pow(10, w)
    ensures |DecNat(n)| <= w
  {
    if n >= 10 {
      assert w > 1;
      DecNatLength(n / 10, w - 1, Pow(10, w - 1));
    }
  }

  /** Below `10^w` a padded number takes exactly `w` characters. */
  lemma {:induction false} PadWidth(n: nat, w: nat)
    requires w >= 1 && n < Pow(10, w)
    ensures |Pad(n, w)| == w
  {
    DecNatLength(n, w, Pow(10, w));
  }

  // ---- separators ----

  /** The first separator decides where a joined string splits. */
  lemma {:induction false} SplitUnique(a: string, x: string, b: string, y: string, sep: char)
    requires sep !in a && sep !in b
    requires a + [sep] + x == b + [sep] + y
    ensures a == b && x == y
  {
    var l, r := a + [sep] + x, b + [sep] + y;
    assert l[|a|] == sep && r[|b|] == sep;
    assert |a| == |b|;
    assert a == l[..|a|] == r[..|b|] == b;
    assert x == l[|a| + 1..] == r[|b| + 1..] == y;
  }

  /** The fields of a `{}|{}|{}` format string, in order. */
  function Join(fields: seq<string>, sep: char): string
    requires fields != []
  {
    if |fields| == 1 then fields[0] else fields[0] + [sep] + Join(fields[1..], sep)
  }

  /** All fields but the last are free of the separator. */
  predicate Separable(fields: seq<string>, sep: char) {
    fields != [] && forall i :: 0 <= i < |fields| - 1 ==> sep !in fields[i]
  }

  /** Only the last field may contain the separator; then the joined string determines every field. */
  lemma {:induction false} JoinInjective(f: seq<string>, g: seq<string>, sep: char)
    requires Separable(f, sep) && Separable(g, sep) && |f| == |g|
    requires Join(f, sep) == Join(g, sep)
    ensures f == g
  {
    if |f| > 1 {
      SplitUnique(f[0], Join(f[1..], sep), g[0], Join(g[1..], sep), sep);
      JoinInjective(f[1..], g[1..], sep);
      assert f == [f[0]] + f[1..] && g == [g[0]] + g[1..];
    }
  }

  /** A string of more fields is never a string of fewer, when the shorter one's last field has no separator. */
  lemma {:induction false} JoinLengths(f: seq<string>, g: seq<string>, sep: char)
    requires Separable(f, sep) && Separable(g, sep) && |f| < |g|
    requires sep !in f[|f| - 1]
    ensures Join(f, sep) != Join(g, sep)
  {
    var rest := Join(g[1..], sep);
    if |f| == 1 {
      assert (g[0] + [sep] + rest)[|g[0]|] == sep;
    } else if Join(f, sep) == Join(g, sep) {
      SplitUnique(f[0], Join(f[1..], sep), g[0], rest, sep);
      JoinLengths(f[1..], g[1..], sep);
    }
  }

  /** Rust's `split_once`: around the first occurrence of the separator. */
  function SplitOnce(s: string, sep: char): (r: Option<(string, string)>)
    ensures r.None? <==> sep !in s
    ensures r.Some? ==> s == r.value.0 + [sep] + r.value.1 && sep !in r.value.0
  {
    if s == [] then None
    else if s[0] == sep then
      assert s == [] + [sep] + s[1..];
      Some(([], s[1..]))
    else
      match SplitOnce(s[1..], sep)
      case None => None
      case Some((l, r)) =>
        assert s == [s[0]] + s[1..];
        assert [s[0]] + (l + [sep] + r) == ([s[0]] + l) + [sep] + r;
        Some(([s[0]] + l, r))
  }

  // ---- hex ----

  function HexDigit(d: int): (c: char)
    requires 0 <= d < 16
    ensures HexValue(c) == Some(d)
  {
    if d < 10 then ('0' as int + d) as char else ('a' as int + d - 10) as char
  }

  function HexValue(c: char): (r: Option<int>)
    ensures r.Some? ==> 0 <= r.value < 16 && c != ':' && c != '|'
  {
    if '0' <= c <= '9' then Some(c as int - '0' as int)
    else if 'a' <= c <= 'f' then Some(c as int - 'a' as int + 10)
    else if 'A' <= c <= 'F' then Some(c as int - 'A' as int + 10)
    else None
  }

  function HexEncode(bytes: seq<Byte>): (s: string)
    ensures |s| == 2 * |bytes|
    ensures forall c :: c in s ==> HexValue(c).Some?
  {
    if bytes == [] then []
    else [HexDigit(bytes[0] / 16), HexDigit(bytes[0] % 16)] + HexEncode(bytes[1..])
  }

  /** `hex::decode`: an even number of hex digits of either case, two per byte. */
  function HexDecode(s: string): (r: Option<seq<Byte>>)
    ensures r.Some? ==> |s| == 2 * |r.value|
    ensures r.Some? ==> forall c :: c in s ==> HexValue(c).Some?
  {
    if s == [] then Some([])
    else if |s| == 1 then None
    else
      var hi, lo, rest := HexValue(s[0]), HexValue(s[1]), HexDecode(s[2..]);
      if hi.None? || lo.None? || rest.None? then None
      else
        assert s == [s[0], s[1]] + s[2..];
        Some([hi.value * 16 + lo.value] + rest.value)
  }

  predicate IsLowerHex(c: char) { '0' <= c <= '9' || 'a' <= c <= 'f' }

  lemma {:induction false} HexEncodeLower(bytes: seq<Byte>)
    ensures forall c :: c in HexEncode(bytes) ==> IsLowerHex(c)
  {
    if bytes == [] {
    } else {
      HexEncodeLower(bytes[1..]);
    }
  }

  /** Lower-case hex digits in pairs are the rendering of some bytes. */
  lemma {:induction false} LowerHexDecodes(s: string) returns (bytes: seq<Byte>)
    requires |s| % 2 == 0 && forall c :: c in s ==> IsLowerHex(c)
    ensures HexEncode(bytes) == s
  {
    if s == [] {
      bytes := [];
    } else {
      assert s[0] in s && s[1] in s;
      var rest := LowerHexDecodes(s[2..]);
      var hi, lo := HexValue(s[0]).value, HexValue(s[1]).value;
      bytes := [16 * hi + lo] + rest;
      assert bytes[1..] == rest && bytes[0] / 16 == hi && bytes[0] % 16 == lo;
      assert s == [s[0], s[1]] + s[2..];
    }
  }

  /** The sixteen digits, written in lower case and read in either. */
  lemma {:induction false} HexDigitsRead(d: int)
    requires 0 <= d < 16
    ensures HexDigit(d) == "0123456789abcdef"[d]
    ensures HexValue("0123456789abcdef"[d]) == Some(d) && HexValue("0123456789ABCDEF"[d]) == Some(d)
  {
  }

  predicate IsHex(c: char) { '0' <= c <= '9' || 'a' <= c <= 'f' || 'A' <= c <= 'F' }

  /**
   * Decoding succeeds iff there are only hex digits, of either case, in pairs; each pair is one byte, high half
   * first.
   */
  lemma {:induction false} HexDecodeIff(s: string)
    ensures HexDecode(s).Some? <==> |s| % 2 == 0 && forall c :: c in s ==> IsHex(c)
    ensures HexDecode(s).Some? ==>
              |HexDecode(s).value| == |s| / 2 &&
              forall i :: 0 <= i < |s| / 2 ==>
                && HexValue(s[2 * i]).Some? && HexValue(s[2 * i + 1]).Some?
                && HexDecode(s).value[i] == 16 * HexValue(s[2 * i]).value + HexValue(s[2 * i + 1]).value
  {
    if |s| >= 2 {
      HexDecodeIff(s[2..]);
      assert s == [s[0], s[1]] + s[2..];
      assert (forall c :: c in s ==> IsHex(c)) <==> IsHex(s[0]) && IsHex(s[1]) && forall c :: c in s[2..] ==> IsHex(c);
      assert forall c :: IsHex(c) <==> HexValue(c).Some?;
      if HexDecode(s).Some? {
        forall i | 0 <= i < |s| / 2
          ensures HexValue(s[2 * i]).Some? && HexValue(s[2 * i + 1]).Some?
          ensures HexDecode(s).value[i] == 16 * HexValue(s[2 * i]).value + HexValue(s[2 * i + 1]).value
        {
          if i > 0 {
            assert s[2..][2 * (i - 1)] == s[2 * i] && s[2..][2 * (i - 1) + 1] == s[2 * i + 1];
          }
        }
      }
    }
  }

  lemma {:induction false} HexRoundTrip(bytes: seq<Byte>)
    ensures HexDecode(HexEncode(bytes)) == Some(bytes)
  {
    if bytes == [] {
    } else {
      HexRoundTrip(bytes[1..]);
      var h := HexEncode(bytes);
      assert h[0] == HexDigit(bytes[0] / 16) && h[1] == HexDigit(bytes[0] % 16);
      assert h[2..] == HexEncode(bytes[1..]);
      assert [bytes[0]] + bytes[1..] == bytes;
    }
  }
}
