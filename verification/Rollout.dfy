/** Feature flags and their gradual rollout by user id. */
module Rollout {
  import opened Common

  /** A `feature_flags` row. */
  datatype Flag = Flag(enabled: bool, allowed: seq<int>, pct: int)

  /** `rem_euclid(100)`; an anonymous caller falls in bucket 0. */
  function Bucket(user: Option<int>): int { (if user.Some? then user.value else 0) % 100 }

  predicate Enabled(flag: Option<Flag>, user: Option<int>) {
    flag.Some?
    && (flag.value.enabled
        || (user.Some? && user.value in flag.value.allowed)
        || (flag.value.pct > 0 && Bucket(user) < flag.value.pct))
  }

  /** A flag that does not exist is off, one that is on is on for all, and a listed user has it. */
  lemma {:induction false} ResolvesFirst(flag: Option<Flag>, user: Option<int>)
    ensures flag.None? ==> !Enabled(flag, user)
    ensures flag.Some? && (flag.value.enabled || (user.Some? && user.value in flag.value.allowed)) ==>
              Enabled(flag, user)
  {
  }

  /** For anyone else the percentage decides, by the last two digits of the user id, counted upwards. */
  lemma {:induction false} RolloutIff(flag: Flag, user: int, hundreds: int, rest: nat)
    requires !flag.enabled && user == 100 * hundreds + rest && rest < 100
    ensures user !in flag.allowed ==> (Enabled(Some(flag), Some(user)) <==> rest < flag.pct)
    ensures Enabled(Some(flag), None) <==> 0 < flag.pct
  {
    assert user % 100 == rest;
  }

  function EnabledAmong(flag: Flag, lo: int, hi: int): set<int> {
    set u | lo <= u < hi && Enabled(Some(flag), Some(u))
  }

  function Share(pct: int): nat { if pct <= 0 then 0 else if pct > 100 then 100 else pct }

  function UpTo(n: nat): (r: set<int>)
    ensures |r| == n && forall u :: u in r <==> 0 <= u < n
  {
    if n == 0 then {} else UpTo(n - 1) + {n - 1}
  }

  lemma {:induction false} BucketRepeats(u: int)
    ensures Bucket(Some(u + 100)) == Bucket(Some(u))
  {
  }

  /** Sliding the window by one loses a user and gains one of the same bucket. */
  lemma {:induction false} Slide(flag: Flag, a: int)
    requires !flag.enabled && flag.allowed == []
    ensures |EnabledAmong(flag, a, a + 100)| == |EnabledAmong(flag, a + 1, a + 101)|
  {
    BucketRepeats(a);
    hide Bucket;
    var middle := EnabledAmong(flag, a + 1, a + 100);
    if Enabled(Some(flag), Some(a)) {
      assert EnabledAmong(flag, a, a + 100) == {a} + middle;
      assert EnabledAmong(flag, a + 1, a + 101) == middle + {a + 100};
    } else {
      assert EnabledAmong(flag, a, a + 100) == middle;
      assert EnabledAmong(flag, a + 1, a + 101) == middle;
    }
  }

  /**
   * The rollout is exact: of any 100 consecutive user ids, negative ones included, exactly `pct` are enabled
   * (none below 0, all above 100), for a flag that is globally off with nobody on its allow-list.
   */
  lemma {:induction false} RolloutIsExact(flag: Flag, a: int)
    requires !flag.enabled && flag.allowed == []
    ensures |EnabledAmong(flag, a, a + 100)| == Share(flag.pct)
    decreases if a < 0 then -a else a
  {
    if a == 0 {
      assert EnabledAmong(flag, 0, 100) == UpTo(Share(flag.pct));
    } else if a > 0 {
      RolloutIsExact(flag, a - 1);
      Slide(flag, a - 1);
    } else {
      RolloutIsExact(flag, a + 1);
      Slide(flag, a);
    }
  }

  /** Raising the percentage never disables anyone, whatever the flag's other settings. */
  lemma {:induction false} RaisingKeepsEnabled(flag: Flag, higher: int, user: Option<int>)
    requires flag.pct <= higher && Enabled(Some(flag), user)
    ensures Enabled(Some(flag.(pct := higher)), user)
  {
  }
}
