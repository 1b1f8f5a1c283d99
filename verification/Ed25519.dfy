/**
 * Signature checking around the Ed25519 primitive (section 5.1 of RFC 8032), which stays uninterpreted,
 * and the `key:signature` records the service stores.
 */
module Ed25519 {
  import opened Common
  import opened Text

  /** The library calls: is this a curve point, SHA-256, and raw verification of a hashed message. */
  datatype Primitives = Primitives(
    isPoint: seq<Byte> -> bool,
    sha256: string -> seq<Byte>,
    checks: (seq<Byte>, seq<Byte>, seq<Byte>) -> bool)

  datatype KeyError = InvalidHex | InvalidKey | InvalidSignature

  datatype Verdict = Checked(valid: bool) | Failed(why: KeyError)

  /** Key first, then signature, each hex-decoded and length-checked before it is used. */
  function Verify(p: Primitives, keyHex: string, payload: string, sigHex: string): (v: Verdict)
    ensures v == Checked(true) ==> WellFormed(keyHex, sigHex)
  {
    var key := HexDecode(keyHex);
    if key.None? then Failed(InvalidHex)
    else if |key.value| != 32 || !p.isPoint(key.value) then Failed(InvalidKey)
    else
      var sig := HexDecode(sigHex);
      if sig.None? then Failed(InvalidHex)
      else if |sig.value| != 64 then Failed(InvalidSignature)
      else Checked(p.checks(key.value, p.sha256(payload), sig.value))
  }

  /** 64 and 128 hex digits. */
  predicate WellFormed(keyHex: string, sigHex: string) {
    |keyHex| == 64 && |sigHex| == 128 && HexDecode(keyHex).Some? && HexDecode(sigHex).Some?
  }

  /** A signature is accepted exactly when both strings are well formed and the primitive accepts their bytes. */
  lemma {:induction false} AcceptedIff(p: Primitives, keyHex: string, payload: string, sigHex: string)
    ensures Verify(p, keyHex, payload, sigHex) == Checked(true)
       <==> WellFormed(keyHex, sigHex) && p.isPoint(HexDecode(keyHex).value)
            && p.checks(HexDecode(keyHex).value, p.sha256(payload), HexDecode(sigHex).value)
  {
  }

  /** The decoded key is a curve point of 32 bytes. */
  predicate KeyUsable(p: Primitives, keyHex: string) {
    HexDecode(keyHex).Some? && |HexDecode(keyHex).value| == 32 && p.isPoint(HexDecode(keyHex).value)
  }

  /** Which error is reported: what is wrong with the key comes first. */
  lemma {:induction false} FailsIff(p: Primitives, keyHex: string, payload: string, sigHex: string)
    ensures var v, key, sig := Verify(p, keyHex, payload, sigHex), HexDecode(keyHex), HexDecode(sigHex);
            && (v == Failed(InvalidHex) <==> key.None? || (KeyUsable(p, keyHex) && sig.None?))
            && (v == Failed(InvalidKey) <==> key.Some? && !KeyUsable(p, keyHex))
            && (v == Failed(InvalidSignature) <==> KeyUsable(p, keyHex) && sig.Some? && |sig.value| != 64)
  {
  }

  predicate AllAccepted(p: Primitives, keys: seq<string>, payload: string, sigs: seq<string>) {
    |keys| == |sigs| && |keys| > 0
    && forall i :: 0 <= i < |keys| ==> Verify(p, keys[i], payload, sigs[i]) == Checked(true)
  }

  /** The loop's answer as a function of the remaining pairs. */
  function Scan(p: Primitives, keys: seq<string>, payload: string, sigs: seq<string>): Verdict
    requires |keys| == |sigs|
  {
    if keys == [] then Checked(true)
    else
      var v := Verify(p, keys[0], payload, sigs[0]);
      if v == Checked(true) then Scan(p, keys[1..], payload, sigs[1..]) else v
  }

  function Aggregated(p: Primitives, keys: seq<string>, payload: string, sigs: seq<string>): Verdict {
    if |keys| != |sigs| || keys == [] then Checked(false) else Scan(p, keys, payload, sigs)
  }

  method VerifyAggregated(p: Primitives, keys: seq<string>, payload: string, sigs: seq<string>) returns (v: Verdict)
    ensures v == Aggregated(p, keys, payload, sigs)
    ensures v == Checked(true) <==> AllAccepted(p, keys, payload, sigs)
  {
    AggregatedIff(p, keys, payload, sigs);
    if |keys| != |sigs| || keys == [] {
      return Checked(false);
    }
    for i := 0 to |keys|
      invariant Scan(p, keys, payload, sigs) == Scan(p, keys[i..], payload, sigs[i..])
    {
      var one := Verify(p, keys[i], payload, sigs[i]);
      assert keys[i..][0] == keys[i] && sigs[i..][0] == sigs[i];
      assert keys[i..][1..] == keys[i + 1..] && sigs[i..][1..] == sigs[i + 1..];
      if one != Checked(true) {
        return one;
      }
    }
    return Checked(true);
  }

  lemma {:induction false} ScanIff(p: Primitives, keys: seq<string>, payload: string, sigs: seq<string>)
    requires |keys| == |sigs|
    ensures Scan(p, keys, payload, sigs) == Checked(true)
       <==> forall i :: 0 <= i < |keys| ==> Verify(p, keys[i], payload, sigs[i]) == Checked(true)
  {
    if keys == [] {
    } else {
      ScanIff(p, keys[1..], payload, sigs[1..]);
      if Scan(p, keys, payload, sigs) == Checked(true) {
        forall i | 0 <= i < |keys| ensures Verify(p, keys[i], payload, sigs[i]) == Checked(true) {
          if i > 0 {
            assert keys[i] == keys[1..][i - 1] && sigs[i] == sigs[1..][i - 1];
          }
        }
      }
    }
  }

  /** True only if there is at least one pair and every pair is accepted over the one payload. */
  lemma {:induction false} AggregatedIff(p: Primitives, keys: seq<string>, payload: string, sigs: seq<string>)
    ensures Aggregated(p, keys, payload, sigs) == Checked(true) <==> AllAccepted(p, keys, payload, sigs)
  {
    if |keys| == |sigs| {
      ScanIff(p, keys, payload, sigs);
    }
  }

  // ---- stored records ----

  function EncodeRecord(keyHex: string, sigHex: string): string {
    keyHex + [':'] + sigHex
  }

  function ParseRecord(stored: string): Result<(string, string)> {
    match SplitOnce(stored, ':')
    case None => Err(InvalidInput)
    case Some((key, sig)) => if key == "" || sig == "" then Err(InvalidInput) else Ok((key, sig))
  }

  /** The stored form loses nothing exactly when the key holds no colon and neither part is empty. */
  lemma {:induction false} RecordRoundTripIff(keyHex: string, sigHex: string)
    ensures ParseRecord(EncodeRecord(keyHex, sigHex)) == Ok((keyHex, sigHex))
       <==> ':' !in keyHex && keyHex != "" && sigHex != ""
  {
    var stored := EncodeRecord(keyHex, sigHex);
    assert stored[|keyHex|] == ':';
    var (l, r) := SplitOnce(stored, ':').value;
    if ':' !in keyHex {
      SplitUnique(l, r, keyHex, sigHex, ':');
    }
  }

  /** Whatever passed verification is stored without loss. */
  lemma {:induction false} VerifiedRoundTrips(p: Primitives, keyHex: string, payload: string, sigHex: string)
    requires Verify(p, keyHex, payload, sigHex) == Checked(true)
    ensures ParseRecord(EncodeRecord(keyHex, sigHex)) == Ok((keyHex, sigHex))
  {
    RecordRoundTripIff(keyHex, sigHex);
  }

  /** A stored record whose key and signature verify over `payload`. */
  predicate RecordVerifies(p: Primitives, stored: string, payload: string) {
    var r := ParseRecord(stored);
    r.Ok? && Verify(p, r.value.0, payload, r.value.1) == Checked(true)
  }
}
