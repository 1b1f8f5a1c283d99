/**
 * The strings that get signed or MACed: what each field contributes, and that no two different
 * inputs produce the same string.
 */
module Payloads {
  import opened Common
  import opened Text

  // ---- calendar values, as chrono renders them ----

  datatype Date = Date(year: int, month: nat, day: nat)

  /** Whole seconds and nanoseconds of a UTC day. */
  datatype DateTime = DateTime(date: Date, hour: nat, minute: nat, second: nat, nanos: nat)

  /** What every `NaiveDate` satisfies. */
  predicate ValidDate(d: Date) { 1 <= d.month <= 12 && 1 <= d.day <= 31 }

  /** What every `DateTime<Utc>` without a leap second satisfies. */
  predicate ValidDateTime(t: DateTime) {
    ValidDate(t.date) && t.hour < 24 && t.minute < 60 && t.second < 60 && t.nanos < SECOND
  }

  /** `%Y`: four digits, or a sign and at least four digits outside 0..9999. */
  function YearText(y: int): (s: string)
    ensures s != [] && forall c :: c in s ==> IsDigit(c) || c == '-' || c == '+'
  {
    if y < 0 then "-" + Pad(-y, 4) else if y > 9999 then "+" + Pad(y, 4) else Pad(y, 4)
  }

  /** `%Y-%m-%d` */
  function DateText(d: Date): (s: string)
    ensures forall c :: c in s ==> IsDigit(c) || c == '-' || c == '+'
  {
    YearText(d.year) + "-" + Pad(d.month, 2) + "-" + Pad(d.day, 2)
  }

  /** The fraction `to_rfc3339` prints: none, or 3, 6 or 9 digits, the fewest that are exact. */
  function FractionText(nanos: nat): (s: string)
    ensures forall c :: c in s ==> IsDigit(c) || c == '.'
  {
    if nanos == 0 then ""
    else if nanos % 1_000_000 == 0 then "." + Pad(nanos / 1_000_000, 3)
    else if nanos % 1_000 == 0 then "." + Pad(nanos / 1_000, 6)
    else "." + Pad(nanos, 9)
  }

  function ClockText(t: DateTime): (s: string)
    ensures '|' !in s
  {
    Pad(t.hour, 2) + [':'] + (Pad(t.minute, 2) + [':'] + Pad(t.second, 2))
  }

  function TimeText(t: DateTime): (s: string)
    ensures '|' !in s
  {
    ClockText(t) + FractionText(t.nanos) + "+00:00"
  }

  function Rfc3339(t: DateTime): (s: string)
    ensures '|' !in s
  {
    DateText(t.date) + ['T'] + TimeText(t)
  }

  lemma {:induction false} TwoDigits(n: nat)
    requires n < 100
    ensures |Pad(n, 2)| == 2
  {
    assert Pow(10, 2) == 10 * Pow(10, 1) == 100 by { assert Pow(10, 1) == 10 * Pow(10, 0); }
    PadWidth(n, 2);
  }

  lemma {:induction false} PrefixSuffix(a: string, x: string, b: string, y: string)
    requires a + x == b + y && (|a| == |b| || |x| == |y|)
    ensures a == b && x == y
  {
    assert |a + x| == |a| + |x| && |b + y| == |b| + |y|;
    assert a == (a + x)[..|a|] && x == (a + x)[|a|..];
    assert b == (b + y)[..|b|] && y == (b + y)[|b|..];
  }

  lemma {:induction false} YearTextInjective(a: int, b: int)
    requires YearText(a) == YearText(b)
    ensures a == b
  {
    forall y: int ensures YearText(y)[0] == '-' <==> y < 0
                  ensures YearText(y)[0] == '+' <==> y > 9999 {
      if 0 <= y <= 9999 {
        assert Pad(y, 4)[0] in Pad(y, 4);
      }
    }
    if a < 0 {
      assert Pad(-a, 4) == YearText(a)[1..] == YearText(b)[1..] == Pad(-b, 4);
      PadInjective(-a, -b, 4);
    } else if a > 9999 {
      assert Pad(a, 4) == YearText(a)[1..] == YearText(b)[1..] == Pad(b, 4);
      PadInjective(a, b, 4);
    } else {
      PadInjective(a, b, 4);
    }
  }

  lemma {:induction false} DateTextInjective(a: Date, b: Date)
    requires ValidDate(a) && ValidDate(b)
    requires DateText(a) == DateText(b)
    ensures a == b
  {
    TwoDigits(a.month); TwoDigits(a.day); TwoDigits(b.month); TwoDigits(b.day);
    PrefixSuffix(YearText(a.year) + "-" + Pad(a.month, 2) + "-", Pad(a.day, 2),
                 YearText(b.year) + "-" + Pad(b.month, 2) + "-", Pad(b.day, 2));
    PrefixSuffix(YearText(a.year) + "-" + Pad(a.month, 2), "-", YearText(b.year) + "-" + Pad(b.month, 2), "-");
    PrefixSuffix(YearText(a.year) + "-", Pad(a.month, 2), YearText(b.year) + "-", Pad(b.month, 2));
    PrefixSuffix(YearText(a.year), "-", YearText(b.year), "-");
    YearTextInjective(a.year, b.year);
    PadInjective(a.month, b.month, 2);
    PadInjective(a.day, b.day, 2);
  }

  lemma {:induction false} NanosWidth(nanos: nat)
    requires nanos < SECOND
    ensures |FractionText(nanos)| ==
            if nanos == 0 then 0 else if nanos % 1_000_000 == 0 then 4 else if nanos % 1_000 == 0 then 7 else 10
  {
    assert Pow(10, 1) == 10 * Pow(10, 0) && Pow(10, 2) == 10 * Pow(10, 1) && Pow(10, 3) == 10 * Pow(10, 2) == 1000;
    assert Pow(10, 4) == 10 * Pow(10, 3) && Pow(10, 5) == 10 * Pow(10, 4) && Pow(10, 6) == 10 * Pow(10, 5) == 1_000_000;
    assert Pow(10, 7) == 10 * Pow(10, 6) && Pow(10, 8) == 10 * Pow(10, 7) && Pow(10, 9) == 10 * Pow(10, 8) == SECOND;
    PadWidth(nanos / 1_000_000, 3);
    PadWidth(nanos / 1_000, 6);
    PadWidth(nanos, 9);
  }

  lemma {:induction false} FractionTextInjective(a: nat, b: nat)
    requires a < SECOND && b < SECOND && FractionText(a) == FractionText(b)
    ensures a == b
  {
    NanosWidth(a);
    NanosWidth(b);
    if a != 0 {
      var x, y := FractionText(a)[1..], FractionText(b)[1..];
      if a % 1_000_000 == 0 {
        assert x == Pad(a / 1_000_000, 3) && y == Pad(b / 1_000_000, 3);
        PadInjective(a / 1_000_000, b / 1_000_000, 3);
      } else if a % 1_000 == 0 {
        assert x == Pad(a / 1_000, 6) && y == Pad(b / 1_000, 6);
        PadInjective(a / 1_000, b / 1_000, 6);
      } else {
        assert x == Pad(a, 9) && y == Pad(b, 9);
        PadInjective(a, b, 9);
      }
    }
  }

  lemma {:induction false} ClockTextInjective(a: DateTime, b: DateTime)
    requires ValidDateTime(a) && ValidDateTime(b) && ClockText(a) == ClockText(b)
    ensures a.hour == b.hour && a.minute == b.minute && a.second == b.second
  {
    var ha, ma, sa := Pad(a.hour, 2), Pad(a.minute, 2), Pad(a.second, 2);
    var hb, mb, sb := Pad(b.hour, 2), Pad(b.minute, 2), Pad(b.second, 2);
    SplitUnique(ha, ma + [':'] + sa, hb, mb + [':'] + sb, ':');
    SplitUnique(ma, sa, mb, sb, ':');
    PadInjective(a.hour, b.hour, 2);
    PadInjective(a.minute, b.minute, 2);
    PadInjective(a.second, b.second, 2);
  }

  lemma {:induction false} ClockTextWidth(t: DateTime)
    requires ValidDateTime(t)
    ensures |ClockText(t)| == 8
  {
    TwoDigits(t.hour);
    TwoDigits(t.minute);
    TwoDigits(t.second);
  }

  lemma {:induction false} TimeTextInjective(a: DateTime, b: DateTime)
    requires ValidDateTime(a) && ValidDateTime(b) && TimeText(a) == TimeText(b)
    ensures a.(date := b.date) == b
  {
    PrefixSuffix(ClockText(a) + FractionText(a.nanos), "+00:00", ClockText(b) + FractionText(b.nanos), "+00:00");
    ClockTextWidth(a);
    ClockTextWidth(b);
    PrefixSuffix(ClockText(a), FractionText(a.nanos), ClockText(b), FractionText(b.nanos));
    ClockTextInjective(a, b);
    FractionTextInjective(a.nanos, b.nanos);
  }

  lemma {:induction false} Rfc3339Injective(a: DateTime, b: DateTime)
    requires ValidDateTime(a) && ValidDateTime(b)
    requires Rfc3339(a) == Rfc3339(b)
    ensures a == b
  {
    SplitUnique(DateText(a.date), TimeText(a), DateText(b.date), TimeText(b), 'T');
    DateTextInjective(a.date, b.date);
    TimeTextInjective(a, b);
  }

  /** A slice that reads back as a number, with the character behind it. */
  predicate Reads(s: string, from: nat, to: nat, n: nat) {
    from <= to <= |s| && AllDigits(s[from..to]) && Value(s[from..to]) == n
  }

  lemma {:induction false} PadReads(before: string, n: nat, w: nat, after: string)
    requires w >= 1 && n < Pow(10, w)
    ensures Reads(before + Pad(n, w) + after, |before|, |before| + w, n)
  {
    PadWidth(n, w);
    PadValue(n, w);
    assert (before + Pad(n, w) + after)[|before|..|before| + w] == Pad(n, w);
  }

  lemma {:induction false} SmallPowers()
    ensures Pow(10, 2) == 100 && Pow(10, 3) == 1000 && Pow(10, 4) == 10_000
    ensures Pow(10, 6) == 1_000_000 && Pow(10, 9) == 1_000_000_000
  {
    assert Pow(10, 1) == 10 * Pow(10, 0) && Pow(10, 2) == 10 * Pow(10, 1) && Pow(10, 3) == 10 * Pow(10, 2);
    assert Pow(10, 4) == 10 * Pow(10, 3) && Pow(10, 5) == 10 * Pow(10, 4) && Pow(10, 6) == 10 * Pow(10, 5);
    assert Pow(10, 7) == 10 * Pow(10, 6) && Pow(10, 8) == 10 * Pow(10, 7) && Pow(10, 9) == 10 * Pow(10, 8);
  }

  /** `YYYY-MM-DD`, for the years with four digits. */
  lemma {:induction false} DateReads(d: Date)
    requires ValidDate(d) && 0 <= d.year <= 9999
    ensures var s := DateText(d);
            |s| == 10 && Reads(s, 0, 4, d.year) && s[4] == '-' && Reads(s, 5, 7, d.month) && s[7] == '-'
            && Reads(s, 8, 10, d.day)
  {
    SmallPowers();
    PadWidth(d.year, 4);
    TwoDigits(d.month);
    TwoDigits(d.day);
    var y, m, e := Pad(d.year, 4), Pad(d.month, 2), Pad(d.day, 2);
    var s := DateText(d);
    assert s[0..4] == y && s[5..7] == m && s[8..10] == e;
    PadValue(d.year, 4);
    PadValue(d.month, 2);
    PadValue(d.day, 2);
    hide Value, Pad, Pow;
  }

  /** `hh:mm:ss`, the fraction if there is one, and the offset of UTC. */
  lemma {:induction false} TimeReads(t: DateTime)
    requires ValidDateTime(t)
    ensures var s := TimeText(t);
            && |s| >= 14 && Reads(s, 0, 2, t.hour) && s[2] == ':' && Reads(s, 3, 5, t.minute) && s[5] == ':'
            && Reads(s, 6, 8, t.second) && s[|s| - 6..] == "+00:00" && s[8..|s| - 6] == FractionText(t.nanos)
  {
    TwoDigits(t.hour);
    TwoDigits(t.minute);
    TwoDigits(t.second);
    PadValue(t.hour, 2);
    PadValue(t.minute, 2);
    PadValue(t.second, 2);
    hide Value, Pad, FractionText;
    var h, m, e, f, s := Pad(t.hour, 2), Pad(t.minute, 2), Pad(t.second, 2), FractionText(t.nanos), TimeText(t);
    assert s == h + [':'] + m + [':'] + e + f + "+00:00";
    assert s[0..2] == h && s[3..5] == m && s[6..8] == e;
  }

  /** A dot and 3, 6 or 9 digits, as few as are exact; nothing when there is no fraction. */
  lemma {:induction false} FractionReads(nanos: nat)
    requires nanos < SECOND
    ensures var s := FractionText(nanos);
            if nanos == 0 then s == ""
            else if nanos % 1_000_000 == 0 then |s| == 4 && s[0] == '.' && Reads(s, 1, 4, nanos / 1_000_000)
            else if nanos % 1_000 == 0 then |s| == 7 && s[0] == '.' && Reads(s, 1, 7, nanos / 1_000)
            else |s| == 10 && s[0] == '.' && Reads(s, 1, 10, nanos)
  {
    NanosWidth(nanos);
    SmallPowers();
    hide Pow, Value, Pad;
    if nanos % 1_000_000 == 0 {
      FractionDigits(nanos / 1_000_000, 3);
    } else if nanos % 1_000 == 0 {
      FractionDigits(nanos / 1_000, 6);
    } else {
      FractionDigits(nanos, 9);
    }
  }

  lemma {:induction false} FractionDigits(n: nat, w: nat)
    requires w >= 1 && n < Pow(10, w)
    ensures var s := "." + Pad(n, w); |s| == w + 1 && s[0] == '.' && Reads(s, 1, w + 1, n)
  {
    PadWidth(n, w);
    PadReads(".", n, w, "");
    assert "." + Pad(n, w) + "" == "." + Pad(n, w);
  }

  /** The date, a `T`, and the time. */
  lemma {:induction false} Rfc3339Reads(t: DateTime)
    requires ValidDateTime(t) && 0 <= t.date.year <= 9999
    ensures var s := Rfc3339(t);
            && |s| >= 25 && s[..10] == DateText(t.date) && s[10] == 'T' && s[11..] == TimeText(t)
  {
    DateReads(t.date);
    TimeReads(t);
    hide DateText, TimeText;
  }

  // ---- attestation evidence ----

  function HashText(photoHash: Option<string>): string {
    if photoHash.Some? then photoHash.value else ""
  }

  function AttestationFields(id: int, visit: int, user: int, photoHash: Option<string>): (f: seq<string>)
    ensures Separable(f, '|')
  {
    [Dec(id), Dec(visit), Dec(user), HashText(photoHash) + "|BFIP_ATTESTATION_V1"]
  }

  /** `attestation_id|visit_id|user_id|photo_hash|BFIP_ATTESTATION_V1` */
  function AttestationPayload(id: int, visit: int, user: int, photoHash: Option<string>): string {
    Join(AttestationFields(id, visit, user, photoHash), '|')
  }

  /**
   * Attestation payloads agree exactly when id, visit, user and photo hash agree, an absent hash
   * counting as the empty one, even when the hash itself contains the separator.
   */
  lemma {:induction false} AttestationPayloadInjective(id: int, v: int, u: int, h: Option<string>,
                                                      id': int, v': int, u': int, h': Option<string>)
    ensures AttestationPayload(id, v, u, h) == AttestationPayload(id', v', u', h')
       <==> id == id' && v == v' && u == u' && HashText(h) == HashText(h')
  {
    if AttestationPayload(id, v, u, h) == AttestationPayload(id', v', u', h') {
      var f, f' := AttestationFields(id, v, u, h), AttestationFields(id', v', u', h');
      JoinInjective(f, f', '|');
      assert f[0] == f'[0] && f[1] == f'[1] && f[2] == f'[2] && f[3] == f'[3];
      DecInjective(id, id');
      DecInjective(v, v');
      DecInjective(u, u');
      PrefixSuffix(HashText(h), "|BFIP_ATTESTATION_V1", HashText(h'), "|BFIP_ATTESTATION_V1");
    }
  }

  /** The fields in order, each behind a bar, and the version tag last. */
  lemma {:induction false} AttestationLayout(id: int, visit: int, user: int, photoHash: Option<string>)
    ensures AttestationPayload(id, visit, user, photoHash)
         == Dec(id) + "|" + Dec(visit) + "|" + Dec(user) + "|" + (if photoHash.Some? then photoHash.value else "")
            + "|BFIP_ATTESTATION_V1"
  {
    var f := AttestationFields(id, visit, user, photoHash);
    JoinThree(f[1..], '|');
    assert f[1..][1..] == [f[2], f[3]] && f[1..][0] == f[1] && f[1..][2] == f[3];
    hide Dec;
    assert AttestationPayload(id, visit, user, photoHash) == f[0] + ['|'] + Join(f[1..], '|');
  }

  lemma {:induction false} JoinThree(f: seq<string>, sep: char)
    requires |f| == 3
    ensures Join(f, sep) == f[0] + [sep] + (f[1] + [sep] + f[2])
  {
    assert f[1..][1..] == [f[2]] && f[1..][0] == f[1];
    assert Join([f[2]], sep) == f[2];
  }

  // ---- soultokens ----

  /** The hyphenated 8-4-4-4-12 rendering of 16 bytes. */
  function UuidText(uuid: seq<Byte>): (s: string)
    requires |uuid| == 16
    ensures forall c :: c in s ==> HexValue(c).Some? || c == '-'
  {
    var h := HexEncode(uuid);
    h[0..8] + "-" + h[8..12] + "-" + h[12..16] + "-" + h[16..20] + "-" + h[20..32]
  }

  /** Hyphens behind 8, 12, 16 and 20 of the 32 hex digits, which decode to the bytes. */
  lemma {:induction false} UuidReads(u: seq<Byte>)
    requires |u| == 16
    ensures var t := UuidText(u);
            && |t| == 36 && t[8] == '-' && t[13] == '-' && t[18] == '-' && t[23] == '-'
            && HexDecode(t[0..8] + t[9..13] + t[14..18] + t[19..23] + t[24..36]) == Some(u)
  {
    var h, t := HexEncode(u), UuidText(u);
    HexRoundTrip(u);
    hide HexEncode, HexDecode;
    assert t[0..8] == h[0..8] && t[9..13] == h[8..12] && t[14..18] == h[12..16];
    assert t[19..23] == h[16..20] && t[24..36] == h[20..32];
    assert h == h[0..8] + h[8..12] + h[12..16] + h[16..20] + h[20..32];
  }

  lemma {:induction false} UuidTextInjective(a: seq<Byte>, b: seq<Byte>)
    requires |a| == |b| == 16 && UuidText(a) == UuidText(b)
    ensures a == b
  {
    forall u: seq<Byte> | |u| == 16
      ensures var t := UuidText(u);
              |t| == 36 && HexEncode(u) == t[0..8] + t[9..13] + t[14..18] + t[19..23] + t[24..36] {
      var h, t := HexEncode(u), UuidText(u);
      assert t[0..8] == h[0..8] && t[9..13] == h[8..12] && t[14..18] == h[12..16];
      assert t[19..23] == h[16..20] && t[24..36] == h[20..32];
    }
    HexRoundTrip(a);
    HexRoundTrip(b);
  }

  function SoultokenFields(uuid: seq<Byte>, holder: int, issued: string, expires: string,
                           code: string): (f: seq<string>)
    requires |uuid| == 16
    ensures '|' !in issued && '|' !in expires ==> Separable(f, '|')
  {
    [UuidText(uuid), Dec(holder), issued, expires, code]
  }

  /** `uuid|holder|issued_at|expires_at|display_code` */
  function SoultokenPayload(uuid: seq<Byte>, holder: int, issued: string, expires: string, code: string): string
    requires |uuid| == 16
  {
    Join(SoultokenFields(uuid, holder, issued, expires, code), '|')
  }

  lemma {:induction false} SoultokenLayout(uuid: seq<Byte>, holder: int, issued: string, expires: string, code: string)
    requires |uuid| == 16
    ensures SoultokenPayload(uuid, holder, issued, expires, code)
         == UuidText(uuid) + "|" + Dec(holder) + "|" + issued + "|" + expires + "|" + code
  {
    var f := SoultokenFields(uuid, holder, issued, expires, code);
    hide Dec, UuidText;
    JoinThree(f[2..], '|');
    assert f[1..][1..] == f[2..] && f[1..][0] == f[1];
    assert Join(f[1..], '|') == f[1] + ['|'] + Join(f[2..], '|');
    assert Join(f, '|') == f[0] + ['|'] + Join(f[1..], '|');
  }

  /** Soultoken payloads agree exactly when every field does. */
  lemma {:induction false} SoultokenPayloadInjective(u: seq<Byte>, h: int, i: DateTime, e: DateTime, c: string,
                                                    u': seq<Byte>, h': int, i': DateTime, e': DateTime, c': string)
    requires |u| == |u'| == 16
    requires ValidDateTime(i) && ValidDateTime(e) && ValidDateTime(i') && ValidDateTime(e')
    ensures SoultokenPayload(u, h, Rfc3339(i), Rfc3339(e), c) == SoultokenPayload(u', h', Rfc3339(i'), Rfc3339(e'), c')
       <==> u == u' && h == h' && i == i' && e == e' && c == c'
  {
    var f, f' := SoultokenFields(u, h, Rfc3339(i), Rfc3339(e), c),
        SoultokenFields(u', h', Rfc3339(i'), Rfc3339(e'), c');
    if Join(f, '|') == Join(f', '|') {
      JoinInjective(f, f', '|');
      assert f[0] == f'[0] && f[1] == f'[1] && f[2] == f'[2] && f[3] == f'[3] && f[4] == f'[4];
      UuidTextInjective(u, u');
      DecInjective(h, h');
      Rfc3339Injective(i, i');
      Rfc3339Injective(e, e');
    }
  }

  // ---- beacons ----

  /** The MAC input of a beacon's daily UUID. */
  function DailyUuidInput(business: int, date: Date): string {
    Join([Dec(business), DateText(date)], ':')
  }

  /** The MAC input of a user's presence witness. */
  function WitnessInput(business: int, date: Date, user: int): string {
    Join([Dec(business), DateText(date), Dec(user)], ':')
  }

  lemma {:induction false} WitnessLayout(business: int, date: Date, user: int)
    ensures WitnessInput(business, date, user) == Dec(business) + ":" + DateText(date) + ":" + Dec(user)
    ensures DailyUuidInput(business, date) == Dec(business) + ":" + DateText(date)
  {
    hide Dec, DateText;
    JoinThree([Dec(business), DateText(date), Dec(user)], ':');
    assert [Dec(business), DateText(date)][1..] == [DateText(date)];
    assert Join([DateText(date)], ':') == DateText(date);
  }

  /** A witness input determines the business, the date and the user. */
  lemma {:induction false} WitnessInputInjective(b: int, d: Date, u: int, b': int, d': Date, u': int)
    requires ValidDate(d) && ValidDate(d')
    ensures WitnessInput(b, d, u) == WitnessInput(b', d', u') <==> b == b' && d == d' && u == u'
  {
    var f, f' := [Dec(b), DateText(d), Dec(u)], [Dec(b'), DateText(d'), Dec(u')];
    if Join(f, ':') == Join(f', ':') {
      JoinInjective(f, f', ':');
      assert f[0] == f'[0] && f[1] == f'[1] && f[2] == f'[2];
      DecInjective(b, b');
      DateTextInjective(d, d');
      DecInjective(u, u');
    }
  }

  lemma {:induction false} DailyUuidInputInjective(b: int, d: Date, b': int, d': Date)
    requires ValidDate(d) && ValidDate(d')
    ensures DailyUuidInput(b, d) == DailyUuidInput(b', d') <==> b == b' && d == d'
  {
    var f, f' := [Dec(b), DateText(d)], [Dec(b'), DateText(d')];
    if Join(f, ':') == Join(f', ':') {
      JoinInjective(f, f', ':');
      assert f[0] == f'[0] && f[1] == f'[1];
      DecInjective(b, b');
      DateTextInjective(d, d');
    }
  }

  /** The two uses of a beacon's key never MAC the same string. */
  lemma {:induction false} UsesAreSeparated(b: int, d: Date, b': int, d': Date, u': int)
    ensures DailyUuidInput(b, d) != WitnessInput(b', d', u')
  {
    JoinLengths([Dec(b), DateText(d)], [Dec(b'), DateText(d'), Dec(u')], ':');
  }
}
