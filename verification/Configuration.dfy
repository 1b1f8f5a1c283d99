/** Platform configuration (BFIP section 15): typed values, seeded defaults, and the history of changes. */
module Configuration {
  import opened Common
  import opened Text

  // ---- typed values ----

  /** Rust's `str::parse::<i64>`: an optional sign, at least one ASCII digit, within range. */
  function ParseI64(s: string): Option<int> {
    if s == "" then None
    else
      var body := if s[0] == '-' || s[0] == '+' then s[1..] else s;
      if body == "" || !AllDigits(body) then None
      else
        var magnitude: int := Value(body);
        var n := if s[0] == '-' then -magnitude else magnitude;
        if -0x8000_0000_0000_0000 <= n < 0x8000_0000_0000_0000 then Some(n) else None
  }

  /** `validate_value` */
  predicate Validates(value: string, kind: string) {
    if kind == "integer" then ParseI64(value).Some?
    else if kind == "boolean" then value == "true" || value == "false"
    else if kind == "interval" then ParseI64(value).Some? && ParseI64(value).value > 0
    else kind == "text"
  }

  /** An integer written out is accepted exactly when it fits 64 bits, and reads back as itself. */
  lemma {:induction false} IntegerRoundTrip(n: int)
    ensures Validates(Dec(n), "integer") <==> -0x8000_0000_0000_0000 <= n < 0x8000_0000_0000_0000
    ensures ParseI64(Dec(n)).Some? ==> ParseI64(Dec(n)) == Some(n)
  {
    if n < 0 {
      DecNatValue(-n);
      hide DecNat, Value;
      assert Dec(n)[1..] == DecNat(-n);
    } else {
      DecNatValue(n);
      hide DecNat, Value;
      assert IsDigit(Dec(n)[0]) by { assert DecNat(n)[0] in DecNat(n); }
    }
  }

  /** Digits, with an optional sign. */
  predicate Spells(s: string, negative: bool, digits: string) {
    digits != "" && AllDigits(digits)
    && if negative then s == "-" + digits else s == digits || s == "+" + digits
  }

  function Signed(negative: bool, digits: string): int
    requires AllDigits(digits)
  {
    var magnitude: int := Value(digits);
    if negative then -magnitude else magnitude
  }

  /** What parses is exactly an optional sign before digits whose value fits 64 bits. */
  lemma {:induction false} ParseI64Iff(s: string, n: int)
    ensures ParseI64(s) == Some(n)
       <==> && -0x8000_0000_0000_0000 <= n < 0x8000_0000_0000_0000
            && exists negative, digits :: Spells(s, negative, digits)
                 && n == Signed(negative, digits)
  {
    if ParseI64(s) == Some(n) {
      var body := if s[0] == '-' || s[0] == '+' then s[1..] else s;
      assert s[0] == '-' || s[0] == '+' ==> s == [s[0]] + s[1..];
      assert Spells(s, s[0] == '-', body);
    }
    if negative, digits :| Spells(s, negative, digits) && n == Signed(negative, digits) {
      SpelledParses(s, negative, digits);
    }
  }

  lemma {:induction false} SpelledParses(s: string, negative: bool, digits: string)
    requires Spells(s, negative, digits)
    ensures var n := Signed(negative, digits);
            ParseI64(s) == if -0x8000_0000_0000_0000 <= n < 0x8000_0000_0000_0000 then Some(n) else None
  {
    hide Value;
    assert digits[0] in digits;
    assert IsDigit(digits[0]);
    if s == digits {
      assert s[0] != '-' && s[0] != '+';
    } else {
      assert s[1..] == digits;
      assert s[0] == if negative then '-' else '+';
    }
  }

  /** Which values each type admits; an unknown type admits none. */
  lemma {:induction false} ValidatesIff(value: string, kind: string)
    ensures Validates(value, "integer") <==> exists n :: ParseI64(value) == Some(n)
    ensures Validates(value, "interval") <==> exists n :: n > 0 && ParseI64(value) == Some(n)
    ensures Validates(value, "boolean") <==> value in {"true", "false"}
    ensures Validates(value, "text")
    ensures kind !in {"integer", "interval", "boolean", "text"} ==> !Validates(value, kind)
  {
    if ParseI64(value).Some? {
      assert ParseI64(value) == Some(ParseI64(value).value);
    }
    hide ParseI64;
  }

  // ---- tables ----

  datatype Default = Default(key: string, value: string, kind: string)

  const DEFAULTS: seq<Default> := [
    Default("cooling_period_days", "7", "integer"),
    Default("cooling_app_opens_required", "3", "integer"),
    Default("presence_events_required", "3", "integer"),
    Default("presence_days_required", "3", "integer"),
    Default("min_dwell_minutes", "15", "integer"),
    Default("default_rssi_threshold", "-70", "integer"),
    Default("soultoken_expiry_months", "12", "integer"),
    Default("attestation_token_expiry_minutes", "15", "integer"),
    Default("co_sign_deadline_hours", "48", "integer"),
    Default("platform_gift_limit_months", "6", "integer"),
    Default("delivery_staff_reveal_hours", "2", "integer"),
    Default("business_notification_hours", "4", "integer"),
    Default("background_check_expiry_months", "12", "integer"),
    Default("cleared_requires_all_checks", "true", "boolean"),
    Default("rate_limit_attestations_per_hour", "10", "integer"),
    Default("rate_limit_background_checks_per_day", "5", "integer"),
    Default("rate_limit_identity_initiations_per_day", "3", "integer"),
    Default("rate_limit_dorotka_per_hour", "20", "integer")]

  /** A `platform_configuration` row; its id is its position. */
  datatype Row = Row(key: string, value: string, kind: string, updatedBy: Option<int>)

  /** A `platform_configuration_history` row. */
  datatype Change = Change(config: nat, previous: string, next: string, changedBy: int)

  datatype Tables = Tables(rows: seq<Row>, history: seq<Change>)

  function FindKey(rows: seq<Row>, key: string): (r: Option<nat>)
    ensures r.Some? ==> r.value < |rows| && rows[r.value].key == key
    ensures r.None? ==> forall i :: 0 <= i < |rows| ==> rows[i].key != key
  {
    if rows == [] then None
    else if rows[|rows| - 1].key == key then Some(|rows| - 1)
    else FindKey(rows[..|rows| - 1], key)
  }

  /** `INSERT … ON CONFLICT (key) DO NOTHING` */
  function InsertIfAbsent(rows: seq<Row>, d: Default): seq<Row> {
    if FindKey(rows, d.key).Some? then rows else rows + [Row(d.key, d.value, d.kind, None)]
  }

  function Seeded(rows: seq<Row>, defaults: seq<Default>): seq<Row> {
    if defaults == [] then rows
    else InsertIfAbsent(Seeded(rows, defaults[..|defaults| - 1]), defaults[|defaults| - 1])
  }

  /** `update_configuration`; `admin` is the requester's flag, if there is such a user. */
  function Update(t: Tables, uid: int, admin: Option<bool>, key: string, value: string): Result<Tables> {
    var found := FindKey(t.rows, key);
    if admin.None? then Err(Unauthorized)
    else if !admin.value then Err(Forbidden)
    else if found.None? then Err(NotFound)
    else
      var row := t.rows[found.value];
      if !Validates(value, row.kind) then Err(InvalidInput)
      else Ok(Tables(t.rows[found.value := row.(value := value, updatedBy := Some(uid))],
                     t.history + [Change(found.value, row.value, value, uid)]))
  }

  /** An update by an administrator of a stored key to a valid value changes that row and logs the change. */
  lemma {:induction false} UpdateAnswer(t: Tables, uid: int, admin: Option<bool>, key: string, value: string)
    ensures var r, found := Update(t, uid, admin, key, value), FindKey(t.rows, key);
            && Refusal(r) == (if admin.None? then Some(Unauthorized)
                              else if admin == Some(false) then Some(Forbidden)
                              else if forall i :: 0 <= i < |t.rows| ==> t.rows[i].key != key then Some(NotFound)
                              else if !Validates(value, t.rows[found.value].kind) then Some(InvalidInput)
                              else None)
            && (r.Ok? ==>
                  && found.Some?
                  && var row := t.rows[found.value];
                     && row.key == key
                     && r.value.rows == t.rows[found.value := Row(key, value, row.kind, Some(uid))]
                     && r.value.history == t.history + [Change(found.value, row.value, value, uid)])
  {
    hide FindKey, Validates;
  }

  class ConfigurationStore {
    var rows: seq<Row>
    var history: seq<Change>

    function Contents(): Tables
      reads this
    {
      Tables(rows, history)
    }

    constructor ()
      ensures Contents() == Tables([], [])
    {
      rows, history := [], [];
    }

    /** The seeding loop of server startup. */
    method SeedDefaults()
      modifies this`rows
      ensures Contents() == old(Contents()).(rows := Seeded(old(rows), DEFAULTS))
    {
      hide FindKey;
      assert DEFAULTS[..0] == [];
      for i := 0 to |DEFAULTS|
        invariant rows == Seeded(old(rows), DEFAULTS[..i])
      {
        var d := DEFAULTS[i];
        if FindKey(rows, d.key).None? {
          rows := rows + [Row(d.key, d.value, d.kind, None)];
        }
        assert DEFAULTS[..i + 1][..i] == DEFAULTS[..i];
      }
      assert DEFAULTS[..|DEFAULTS|] == DEFAULTS;
    }

    method UpdateConfiguration(uid: int, admin: Option<bool>, key: string, value: string) returns (r: Result<Row>)
      modifies this
      ensures match Update(old(Contents()), uid, admin, key, value)
              case Ok(after) =>
                Contents() == after && FindKey(old(rows), key).Some? && r == Ok(rows[FindKey(old(rows), key).value])
              case Err(e) => r == Err(e) && Contents() == old(Contents())
    {
      hide FindKey, Validates;
      if admin.None? {
        return Err(Unauthorized);
      }
      if !admin.value {
        return Err(Forbidden);
      }
      var found := FindKey(rows, key);
      if found.None? {
        return Err(NotFound);
      }
      var current := rows[found.value];
      if !Validates(value, current.kind) {
        return Err(InvalidInput);
      }
      rows := rows[found.value := current.(value := value, updatedBy := Some(uid))];
      history := history + [Change(found.value, current.value, value, uid)];
      return Ok(rows[found.value]);
    }
  }

  // ---- runs ----

  datatype Command = Seed | Set(uid: int, admin: Option<bool>, key: string, value: string)

  function Step(defaults: seq<Default>, t: Tables, cmd: Command): Tables {
    match cmd
    case Seed => t.(rows := Seeded(t.rows, defaults))
    case Set(uid, admin, key, value) =>
      var r := Update(t, uid, admin, key, value);
      if r.Ok? then r.value else t
  }

  function Play(defaults: seq<Default>, cmds: seq<Command>): Tables {
    if cmds == [] then Tables([], []) else Step(defaults, Play(defaults, cmds[..|cmds| - 1]), cmds[|cmds| - 1])
  }

  /** The first default with this key. */
  function FirstDefault(defaults: seq<Default>, key: string): (d: Option<Default>)
    ensures d.Some? ==> d.value in defaults && d.value.key == key
  {
    if defaults == [] then None
    else
      var earlier := FirstDefault(defaults[..|defaults| - 1], key);
      if earlier.Some? then earlier
      else if defaults[|defaults| - 1].key == key then Some(defaults[|defaults| - 1]) else None
  }

  /** What the history makes of a starting value. */
  function Fold(history: seq<Change>, config: nat, start: string): string {
    if history == [] then start
    else if history[|history| - 1].config == config then history[|history| - 1].next
    else Fold(history[..|history| - 1], config, start)
  }

  /** Each change of `config` starts from the value that the changes before it led to. */
  predicate Linked(history: seq<Change>, config: nat, start: string) {
    forall j :: 0 <= j < |history| && history[j].config == config ==>
        history[j].previous == Fold(history[..j], config, start)
  }

  /** Row `i` began as the default of its key, keeps that type, and is what the history makes of that default. */
  predicate RowAgrees(defaults: seq<Default>, t: Tables, i: nat) {
    && i < |t.rows|
    && var row, d := t.rows[i], FirstDefault(defaults, t.rows[i].key);
       && d.Some? && row.kind == d.value.kind && Validates(row.value, row.kind)
       && row.value == Fold(t.history, i, d.value.value) && Linked(t.history, i, d.value.value)
  }

  predicate ChangeValid(t: Tables, j: nat)
    requires j < |t.history|
  {
    var c := t.history[j];
    c.config < |t.rows| && Validates(c.previous, t.rows[c.config].kind) && Validates(c.next, t.rows[c.config].kind)
  }

  predicate UniqueKeys(rows: seq<Row>) {
    forall i, j :: 0 <= i < j < |rows| ==> rows[i].key != rows[j].key
  }

  predicate Consistent(defaults: seq<Default>, t: Tables) {
    && UniqueKeys(t.rows)
    && (forall i :: 0 <= i < |t.rows| ==> RowAgrees(defaults, t, i))
    && (forall j :: 0 <= j < |t.history| ==> ChangeValid(t, j))
  }

  // ---- the defaults ----

  lemma {:induction false} ValueBound(s: string)
    requires AllDigits(s)
    ensures Value(s) < Pow(10, |s|)
  {
    if s == [] {
    } else {
      ValueBound(s[..|s| - 1]);
      assert IsDigit(s[|s| - 1]);
    }
  }

  lemma {:induction false} ShortInteger(s: string)
    requires 1 <= |s| <= 3 && AllDigits(if s[0] == '-' then s[1..] else s) && s != "-" && s[0] != '+'
    ensures Validates(s, "integer")
  {
    var body := if s[0] == '-' then s[1..] else s;
    ValueBound(body);
    assert Pow(10, 1) == 10 && Pow(10, 2) == 100 && Pow(10, 3) == 1000;
  }

  predicate AllValid(defaults: seq<Default>) {
    forall d :: d in defaults ==> Validates(d.value, d.kind)
  }

  lemma {:induction false} DefaultValidates(i: nat)
    requires i < |DEFAULTS|
    ensures Validates(DEFAULTS[i].value, DEFAULTS[i].kind)
  {
    hide Validates;
    var d := DEFAULTS[i];
    if d.kind == "integer" {
      ShortInteger(d.value);
    } else {
      BooleanDefault(d);
    }
  }

  /** Every default has a value of its own type. */
  lemma {:induction false} DefaultsValidate()
    ensures AllValid(DEFAULTS)
  {
    hide Validates, AllValid;
    var n := |DEFAULTS|;
    forall i | 0 <= i < n ensures Validates(DEFAULTS[i].value, DEFAULTS[i].kind) {
      DefaultValidates(i);
    }
    ValidByIndex(DEFAULTS);
  }

  lemma {:induction false} ValidByIndex(defaults: seq<Default>)
    requires forall i :: 0 <= i < |defaults| ==> Validates(defaults[i].value, defaults[i].kind)
    ensures AllValid(defaults)
  {
  }

  lemma {:induction false} BooleanDefault(d: Default)
    requires d.kind == "boolean" && d.value == "true"
    ensures Validates(d.value, d.kind)
  {
  }

  // ---- seeding ----

  predicate AllPresent(rows: seq<Row>, defaults: seq<Default>) {
    forall d :: d in defaults ==> FindKey(rows, d.key).Some?
  }

  predicate FromDefault(row: Row, defaults: seq<Default>) {
    var d := FirstDefault(defaults, row.key);
    d.Some? && row == Row(d.value.key, d.value.value, d.value.kind, None)
  }

  /**
   * Rows there before stay as they are; each added row is the first default of its key; every default's key is
   * present.
   */
  predicate SeedsFrom(rows: seq<Row>, defaults: seq<Default>, after: seq<Row>) {
    && rows <= after && AllPresent(after, defaults) && (UniqueKeys(rows) ==> UniqueKeys(after))
    && forall i :: |rows| <= i < |after| ==> FromDefault(after[i], defaults)
  }

  lemma {:induction false} SeededFrom(rows: seq<Row>, defaults: seq<Default>)
    ensures SeedsFrom(rows, defaults, Seeded(rows, defaults))
  {
    hide InsertIfAbsent;
    if defaults == [] {
    } else {
      SeededFrom(rows, defaults[..|defaults| - 1]);
      InsertSeeds(rows, defaults, Seeded(rows, defaults[..|defaults| - 1]));
    }
  }

  lemma {:induction false} InsertSeeds(rows: seq<Row>, defaults: seq<Default>, before: seq<Row>)
    requires defaults != [] && SeedsFrom(rows, defaults[..|defaults| - 1], before)
    ensures SeedsFrom(rows, defaults, InsertIfAbsent(before, defaults[|defaults| - 1]))
  {
    hide FindKey, FirstDefault;
    var earlier, d := defaults[..|defaults| - 1], defaults[|defaults| - 1];
    var after := InsertIfAbsent(before, d);
    assert defaults == earlier + [d];
    assert AllPresent(after, defaults) by {
      forall e | e in defaults ensures FindKey(after, e.key).Some? {
        InsertFinds(before, d, e.key);
      }
    }
    assert forall i :: |rows| <= i < |after| ==> FromDefault(after[i], defaults) by {
      forall i | |rows| <= i < |after| ensures FromDefault(after[i], defaults) {
        if i < |before| {
          assert FromDefault(before[i], earlier);
          EarlierDefault(defaults, before[i]);
        } else {
          NewDefault(before, defaults);
        }
      }
    }
  }

  lemma {:induction false} InsertFinds(rows: seq<Row>, d: Default, key: string)
    requires FindKey(rows, key).Some? || key == d.key
    ensures FindKey(InsertIfAbsent(rows, d), key).Some?
  {
    var after := InsertIfAbsent(rows, d);
    if FindKey(rows, key).Some? {
      assert after[FindKey(rows, key).value].key == key;
    } else {
      assert after[|rows|].key == key;
    }
  }

  lemma {:induction false} EarlierDefault(defaults: seq<Default>, row: Row)
    requires defaults != [] && FromDefault(row, defaults[..|defaults| - 1])
    ensures FromDefault(row, defaults)
  {
  }

  /** A key still absent when its default is reached has no earlier default. */
  lemma {:induction false} NewDefault(before: seq<Row>, defaults: seq<Default>)
    requires defaults != [] && AllPresent(before, defaults[..|defaults| - 1])
    requires FindKey(before, defaults[|defaults| - 1].key).None?
    ensures var d := defaults[|defaults| - 1]; FromDefault(Row(d.key, d.value, d.kind, None), defaults)
  {
    hide FindKey;
    var earlier, d := defaults[..|defaults| - 1], defaults[|defaults| - 1];
    assert FirstDefault(earlier, d.key).None?;
  }

  /** Re-seeding never touches a row that is there, and seeding twice is seeding once. */
  lemma {:induction false} SeedingIsHarmless(rows: seq<Row>, defaults: seq<Default>)
    ensures var after := Seeded(rows, defaults);
            rows <= after && Seeded(after, defaults) == after && AllPresent(after, defaults)
  {
    hide Seeded, AllPresent;
    SeededFrom(rows, defaults);
    NothingToSeed(Seeded(rows, defaults), defaults);
  }

  lemma {:induction false} NothingToSeed(rows: seq<Row>, defaults: seq<Default>)
    requires AllPresent(rows, defaults)
    ensures Seeded(rows, defaults) == rows
  {
    hide FindKey;
    if defaults == [] {
    } else {
      NothingToSeed(rows, defaults[..|defaults| - 1]);
    }
  }

  // ---- every step keeps the agreement ----

  lemma {:induction false} Untouched(history: seq<Change>, config: nat, start: string)
    requires forall j :: 0 <= j < |history| ==> history[j].config != config
    ensures Fold(history, config, start) == start
  {
    if history == [] {
    } else {
      Untouched(history[..|history| - 1], config, start);
    }
  }

  lemma {:induction false} SeedConsistent(defaults: seq<Default>, t: Tables)
    requires Consistent(defaults, t) && AllValid(defaults)
    ensures Consistent(defaults, Step(defaults, t, Seed))
  {
    hide Seeded, FindKey, Validates, Fold, FirstDefault;
    var t' := Step(defaults, t, Seed);
    SeededFrom(t.rows, defaults);
    forall i | 0 <= i < |t'.rows| ensures RowAgrees(defaults, t', i) {
      if i < |t.rows| {
        assert RowAgrees(defaults, t, i);
      } else {
        assert FromDefault(t'.rows[i], defaults);
        var d := FirstDefault(defaults, t'.rows[i].key).value;
        forall j | 0 <= j < |t.history| ensures t.history[j].config != i {
          assert ChangeValid(t, j);
        }
        Untouched(t.history, i, d.value);
      }
    }
    forall j | 0 <= j < |t'.history| ensures ChangeValid(t', j) {
      assert ChangeValid(t, j);
    }
  }

  lemma {:induction false} SetConsistent(defaults: seq<Default>, t: Tables, uid: int, admin: Option<bool>, key: string,
                                         value: string)
    requires Consistent(defaults, t) && Update(t, uid, admin, key, value).Ok?
    ensures Consistent(defaults, Update(t, uid, admin, key, value).value)
  {
    hide FindKey, Validates, FirstDefault;
    var t' := Update(t, uid, admin, key, value).value;
    var id := FindKey(t.rows, key).value;
    forall i | 0 <= i < |t'.rows| ensures RowAgrees(defaults, t', i) {
      assert RowAgrees(defaults, t, i);
      FoldExtends(t.history, t'.history[|t.history|], i, FirstDefault(defaults, t.rows[i].key).value.value);
    }
    forall j | 0 <= j < |t'.history| ensures ChangeValid(t', j) {
      if j < |t.history| {
        assert ChangeValid(t, j);
      } else {
        assert RowAgrees(defaults, t, id);
      }
    }
  }

  /** One more change: it moves the fold of its own row and stays linked if it starts from it. */
  lemma {:induction false} FoldExtends(history: seq<Change>, c: Change, config: nat, start: string)
    requires Linked(history, config, start)
    requires c.config == config ==> c.previous == Fold(history, config, start)
    ensures Fold(history + [c], config, start) == if c.config == config then c.next else Fold(history, config, start)
    ensures Linked(history + [c], config, start)
  {
    assert (history + [c])[..|history|] == history;
    forall j | 0 <= j < |history| + 1 && (history + [c])[j].config == config
      ensures (history + [c])[j].previous == Fold((history + [c])[..j], config, start)
    {
      assert j < |history| ==> (history + [c])[..j] == history[..j];
    }
  }

  lemma {:induction false} PlayConsistent(defaults: seq<Default>, cmds: seq<Command>)
    requires AllValid(defaults)
    ensures Consistent(defaults, Play(defaults, cmds))
  {
    hide Consistent, Update;
    if cmds == [] {
      EmptyConsistent(defaults);
    } else {
      var before := Play(defaults, cmds[..|cmds| - 1]);
      PlayConsistent(defaults, cmds[..|cmds| - 1]);
      match cmds[|cmds| - 1]
      case Seed => SeedConsistent(defaults, before);
      case Set(uid, admin, key, value) =>
        if Update(before, uid, admin, key, value).Ok? {
          SetConsistent(defaults, before, uid, admin, key, value);
        }
    }
  }

  lemma {:induction false} EmptyConsistent(defaults: seq<Default>)
    ensures Consistent(defaults, Tables([], []))
  {
  }

  /** What holds of a stored key. */
  predicate KeyAgrees(defaults: seq<Default>, t: Tables, key: string)
    requires FindKey(t.rows, key).Some?
  {
    var id := FindKey(t.rows, key).value;
    var d := FirstDefault(defaults, key);
    && d.Some? && t.rows[id].kind == d.value.kind
    && t.rows[id].value == Fold(t.history, id, d.value.value) && Linked(t.history, id, d.value.value)
    && Validates(t.rows[id].value, d.value.kind)
    && forall j :: 0 <= j < |t.history| && t.history[j].config == id ==>
         Validates(t.history[j].previous, d.value.kind) && Validates(t.history[j].next, d.value.kind)
  }

  lemma {:induction false} StoredKeyAgrees(defaults: seq<Default>, t: Tables, key: string)
    requires Consistent(defaults, t) && FindKey(t.rows, key).Some?
    ensures KeyAgrees(defaults, t, key)
  {
    hide FindKey, Validates, Fold, Linked, FirstDefault;
    var id := FindKey(t.rows, key).value;
    assert RowAgrees(defaults, t, id);
    forall j | 0 <= j < |t.history| && t.history[j].config == id
      ensures Validates(t.history[j].previous, t.rows[id].kind) && Validates(t.history[j].next, t.rows[id].kind)
    {
      assert ChangeValid(t, j);
    }
  }

  /**
   * After any mix of seeding and updates, for every stored key: the history read from the key's seeded default
   * gives the current value, each change starts from the value before it, the type is still the
   * default's, and the current and all historical values are valid for it.
   */
  lemma {:induction false} ConfigurationAgrees(cmds: seq<Command>, key: string)
    requires FindKey(Play(DEFAULTS, cmds).rows, key).Some?
    ensures KeyAgrees(DEFAULTS, Play(DEFAULTS, cmds), key)
  {
    hide FindKey, KeyAgrees, Consistent, Play, AllValid;
    DefaultsValidate();
    PlayConsistent(DEFAULTS, cmds);
    StoredKeyAgrees(DEFAULTS, Play(DEFAULTS, cmds), key);
  }

  /** An update sticks: seeding again, any number of times, leaves every row and the history as they are. */
  lemma {:induction false} SeedingNeverOverwrites(defaults: seq<Default>, cmds: seq<Command>, seeds: seq<Command>)
    requires forall k :: 0 <= k < |seeds| ==> seeds[k] == Seed
    ensures var t, t' := Play(defaults, cmds), Play(defaults, cmds + seeds);
            t.rows <= t'.rows && t'.history == t.history
  {
    if seeds == [] {
      assert cmds + seeds == cmds;
    } else {
      var n := |seeds| - 1;
      SeedingNeverOverwrites(defaults, cmds, seeds[..n]);
      assert (cmds + seeds)[..|cmds + seeds| - 1] == cmds + seeds[..n];
      hide Seeded, AllPresent, UniqueKeys, FromDefault;
      SeededFrom(Play(defaults, cmds + seeds[..n]).rows, defaults);
    }
  }

  /** Once seeded, every default's key is stored for good. */
  lemma {:induction false} SeededIsStored(defaults: seq<Default>, cmds: seq<Command>)
    requires Seed in cmds
    ensures AllPresent(Play(defaults, cmds).rows, defaults)
  {
    hide AllPresent, FindKey, Seeded;
    var before, last := cmds[..|cmds| - 1], cmds[|cmds| - 1];
    var rows := Play(defaults, before).rows;
    if last == Seed {
      SeedingIsHarmless(rows, defaults);
    } else {
      assert cmds == before + [last];
      SeededIsStored(defaults, before);
      SetKeepsKeys(Play(defaults, before), defaults, last);
    }
  }

  lemma {:induction false} SetKeepsKeys(t: Tables, defaults: seq<Default>, cmd: Command)
    requires cmd.Set? && AllPresent(t.rows, defaults)
    ensures AllPresent(Step(defaults, t, cmd).rows, defaults)
  {
    hide FindKey, Validates;
    var rows := Step(defaults, t, cmd).rows;
    forall d | d in defaults ensures FindKey(rows, d.key).Some? {
      assert rows[FindKey(t.rows, d.key).value].key == d.key;
    }
  }

  /**
   * A valid update by an administrator takes effect and sticks: after any seeding that follows, the key's row holds
   * the new value and names who set it.
   */
  lemma {:induction false} UpdateSticks(defaults: seq<Default>, cmds: seq<Command>, uid: int, key: string,
                                        value: string, seeds: seq<Command>)
    requires forall k :: 0 <= k < |seeds| ==> seeds[k] == Seed
    requires var found := FindKey(Play(defaults, cmds).rows, key);
             found.Some? && Validates(value, Play(defaults, cmds).rows[found.value].kind)
    ensures var found := FindKey(Play(defaults, cmds).rows, key).value;
            var rows := Play(defaults, cmds + [Set(uid, Some(true), key, value)] + seeds).rows;
            && found < |rows| && rows[found].key == key && rows[found].value == value
            && rows[found].updatedBy == Some(uid)
  {
    var t, updated := Play(defaults, cmds), cmds + [Set(uid, Some(true), key, value)];
    assert updated[..|cmds|] == cmds;
    UpdateAnswer(t, uid, Some(true), key, value);
    SeedingNeverOverwrites(defaults, updated, seeds);
    hide Validates, FindKey, Update;
  }

  /** A new store that is seeded and updated in any order: every stored key agrees with its history. */
  method Operate(cmds: seq<Command>) returns (store: ConfigurationStore)
    ensures fresh(store) && store.Contents() == Play(DEFAULTS, cmds)
    ensures forall key :: FindKey(store.rows, key).Some? ==> KeyAgrees(DEFAULTS, store.Contents(), key)
  {
    hide KeyAgrees, Seeded, Update, FindKey;
    store := new ConfigurationStore();
    assert cmds[..0] == [];
    for n := 0 to |cmds|
      invariant fresh(store) && store.Contents() == Play(DEFAULTS, cmds[..n])
    {
      assert cmds[..n + 1][..n] == cmds[..n];
      match cmds[n] {
        case Seed => store.SeedDefaults();
        case Set(uid, admin, key, value) => var _ := store.UpdateConfiguration(uid, admin, key, value);
      }
    }
    assert cmds[..|cmds|] == cmds;
    forall key | FindKey(store.rows, key).Some? ensures KeyAgrees(DEFAULTS, store.Contents(), key) {
      ConfigurationAgrees(cmds, key);
    }
  }
}
