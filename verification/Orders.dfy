/** NFC boxes and orders (BFIP section 9): single-use boxes, and orders collected through them. */
module Orders {
  import opened Common

  /** A `visit_boxes` row; its id is its position. */
  datatype Box = Box(visit: int, chip: string, order: Option<nat>, activatedAt: Option<nat>, expiresAt: Option<nat>,
                     tappedBy: Option<int>, tappedAt: Option<nat>, cloneDetected: bool)

  datatype OrderStatus = Pending | Paid | Collected | Cancelled

  datatype Order = Order(user: int, business: int, boxCount: int, amount: int, status: OrderStatus,
                         box: Option<nat>, deadline: nat)

  datatype Tables = Tables(boxes: seq<Box>, orders: seq<Order>)

  /** `get_box_by_uid` */
  function FindBox(boxes: seq<Box>, chip: string): (r: Option<nat>)
    ensures r.Some? ==> r.value < |boxes| && boxes[r.value].chip == chip
    ensures r.None? ==> forall i :: 0 <= i < |boxes| ==> boxes[i].chip != chip
  {
    if boxes == [] then None
    else
      var r := FindBox(boxes[..|boxes| - 1], chip);
      if r.Some? then r else if boxes[|boxes| - 1].chip == chip then Some(|boxes| - 1) else None
  }

  /** `find_pending_order_for_visit`: the oldest pending order of the user at a business of the visit's location. */
  function FindPending(orders: seq<Order>, user: int, businesses: set<int>): (r: Option<nat>)
    ensures r.Some? ==> r.value < |orders| && IsPendingFor(orders[r.value], user, businesses)
    ensures r.Some? ==> forall i :: 0 <= i < r.value ==> !IsPendingFor(orders[i], user, businesses)
    ensures r.None? ==> forall i :: 0 <= i < |orders| ==> !IsPendingFor(orders[i], user, businesses)
  {
    if orders == [] then None
    else
      var r := FindPending(orders[..|orders| - 1], user, businesses);
      if r.Some? then r
      else if IsPendingFor(orders[|orders| - 1], user, businesses) then Some(|orders| - 1) else None
  }

  predicate IsPendingFor(o: Order, user: int, businesses: set<int>) {
    o.user == user && o.status == Pending && o.business in businesses
  }

  function Activated(visit: int, chip: string, expiresAt: nat, now: nat): Box {
    Box(visit, chip, None, Some(Micros(now)), Some(Micros(expiresAt)), None, None, false)
  }

  function Tapped(b: Box, user: int, now: nat): Box {
    b.(tappedBy := Some(user), tappedAt := Some(Micros(now)))
  }

  /** The order a tapped box settles: the one assigned to it, or a pending one of the user. */
  function OrderFor(orders: seq<Order>, b: Box, user: int, businesses: set<int>): (r: Option<nat>)
    ensures r.Some? ==> r.value < |orders|
  {
    if b.order.Some? then (if b.order.value < |orders| then b.order else None)
    else FindPending(orders, user, businesses)
  }

  /** Everything `collect_order` does to the tables once the user is admitted. */
  function Collect(t: Tables, user: int, chip: string, businesses: set<int>, now: nat): Result<Tables> {
    var found := FindBox(t.boxes, chip);
    if found.None? then Err(NotFound)
    else
      var b := t.boxes[found.value];
      if b.activatedAt.None? then Err(InvalidInput)
      else if b.expiresAt.Some? && now > b.expiresAt.value then Err(InvalidInput)
      else if b.tappedAt.Some? then Err(Conflict)
      else
        var order := OrderFor(t.orders, b, user, businesses);
        if order.None? then Err(NotFound)
        else Ok(Tables(t.boxes[found.value := Tapped(b, user, now)],
                       t.orders[order.value := t.orders[order.value].(status := Collected, box := found)]))
  }

  function Cancel(t: Tables, id: nat, user: int): Result<Tables> {
    if id >= |t.orders| then Err(NotFound)
    else
      var o := t.orders[id];
      if o.user != user then Err(Forbidden)
      else if o.status == Collected || o.status == Cancelled then Err(Conflict)
      else Ok(t.(orders := t.orders[id := o.(status := Cancelled)]))
  }

  /** What `record_nfc_tap` asks of the box before it looks at the witness. */
  function TapCheck(boxes: seq<Box>, id: nat, now: nat): Result<Box> {
    if id >= |boxes| then Err(NotFound)
    else
      var b := boxes[id];
      if b.activatedAt.None? then Err(InvalidInput)
      else if b.expiresAt.Some? && b.expiresAt.value < now then Err(InvalidInput)
      else if b.tappedBy.Some? then Err(Conflict)
      else Ok(b)
  }

  // ---- facts the tables keep ----

  predicate BoxValid(b: Box) {
    && (b.tappedBy.Some? <==> b.tappedAt.Some?)
    && (b.tappedAt.Some? ==> b.activatedAt.Some?)
    && !b.cloneDetected
  }

  predicate OrderValid(boxes: seq<Box>, o: Order) {
    && (o.status == Collected <==> o.box.Some?)
    && (o.box.Some? ==> o.box.value < |boxes| && boxes[o.box.value].tappedBy == Some(o.user))
  }

  predicate DistinctBoxes(orders: seq<Order>) {
    forall i, j :: 0 <= i < j < |orders| && orders[i].box.Some? ==> orders[i].box != orders[j].box
  }

  /** No box carries a pre-assigned order: so it is with boxes made by `activate_box`. */
  predicate Unassigned(boxes: seq<Box>) {
    forall i :: 0 <= i < |boxes| ==> boxes[i].order.None?
  }

  predicate Valid(t: Tables) {
    && (forall i :: 0 <= i < |t.boxes| ==> BoxValid(t.boxes[i]))
    && (forall i :: 0 <= i < |t.orders| ==> OrderValid(t.boxes, t.orders[i]))
    && DistinctBoxes(t.orders)
    && Unassigned(t.boxes)
  }

  /** Conservation between two states: taps, collections and cancellations are final. */
  predicate Final(t: Tables, t': Tables) {
    && |t.boxes| <= |t'.boxes| && |t.orders| <= |t'.orders|
    && (forall i :: 0 <= i < |t.boxes| && t.boxes[i].tappedAt.Some? ==> t'.boxes[i] == t.boxes[i])
    && (forall i :: 0 <= i < |t.orders| ==> t'.orders[i].user == t.orders[i].user)
    && (forall i :: 0 <= i < |t.orders| && (t.orders[i].status == Collected || t.orders[i].status == Cancelled)
          ==> t'.orders[i] == t.orders[i])
  }

  lemma {:induction false} CollectKeeps(t: Tables, user: int, chip: string, businesses: set<int>, now: nat)
    requires Valid(t) && Collect(t, user, chip, businesses, now).Ok?
    ensures var t' := Collect(t, user, chip, businesses, now).value; Valid(t') && Final(t, t')
  {
    var t' := Collect(t, user, chip, businesses, now).value;
    var b, o := FindBox(t.boxes, chip).value, FindPending(t.orders, user, businesses).value;
    assert t.boxes[b].order.None?;
    assert t.boxes[b].tappedBy.None?;
    forall i | 0 <= i < |t'.orders| ensures OrderValid(t'.boxes, t'.orders[i]) {
      assert OrderValid(t.boxes, t.orders[i]);
    }
    forall i | 0 <= i < |t.orders| ensures t.orders[i].box != Some(b) {
      assert OrderValid(t.boxes, t.orders[i]);
    }
  }

  lemma {:induction false} CancelKeeps(t: Tables, id: nat, user: int)
    requires Valid(t) && Cancel(t, id, user).Ok?
    ensures var t' := Cancel(t, id, user).value; Valid(t') && Final(t, t')
  {
    var t' := Cancel(t, id, user).value;
    forall i | 0 <= i < |t'.orders| ensures OrderValid(t'.boxes, t'.orders[i]) {
      assert OrderValid(t.boxes, t.orders[i]);
    }
  }

  lemma {:induction false} TapKeeps(t: Tables, id: nat, user: int, now: nat, at: nat)
    requires Valid(t) && TapCheck(t.boxes, id, at).Ok?
    ensures var t' := t.(boxes := t.boxes[id := Tapped(t.boxes[id], user, now)]); Valid(t') && Final(t, t')
  {
    var t' := t.(boxes := t.boxes[id := Tapped(t.boxes[id], user, now)]);
    forall i | 0 <= i < |t'.orders| ensures OrderValid(t'.boxes, t'.orders[i]) {
      assert OrderValid(t.boxes, t.orders[i]);
      assert BoxValid(t.boxes[id]);
    }
  }

  lemma {:induction false} AddBoxKeeps(t: Tables, visit: int, chip: string, expiresAt: nat, now: nat)
    requires Valid(t)
    ensures var t' := t.(boxes := t.boxes + [Activated(visit, chip, expiresAt, now)]); Valid(t') && Final(t, t')
  {
    var t' := t.(boxes := t.boxes + [Activated(visit, chip, expiresAt, now)]);
    forall i | 0 <= i < |t'.orders| ensures OrderValid(t'.boxes, t'.orders[i]) {
      assert OrderValid(t.boxes, t.orders[i]);
    }
  }

  lemma {:induction false} AddOrderKeeps(t: Tables, o: Order)
    requires Valid(t) && o.status == Pending && o.box.None?
    ensures var t' := t.(orders := t.orders + [o]); Valid(t') && Final(t, t')
  {
    var t' := t.(orders := t.orders + [o]);
    forall i | 0 <= i < |t'.orders| ensures OrderValid(t'.boxes, t'.orders[i]) {
      assert i < |t.orders| ==> OrderValid(t.boxes, t.orders[i]);
    }
  }

  /**
   * With pre-assigned boxes, which no command makes: one collection respects finality exactly when the
   * box it taps carries no pre-assigned order, or one that is still pending or paid; and it collects an order
   * of the tapping user exactly when the box carries none, or one of that user.
   */
  lemma {:induction false} CollectIsFinalIff(t: Tables, user: int, chip: string, businesses: set<int>, now: nat)
    requires Collect(t, user, chip, businesses, now).Ok?
    requires forall i :: 0 <= i < |t.orders| ==> OrderValid(t.boxes, t.orders[i])
    requires forall i :: 0 <= i < |t.boxes| ==> BoxValid(t.boxes[i])
    ensures var t' := Collect(t, user, chip, businesses, now).value;
            var b := t.boxes[FindBox(t.boxes, chip).value];
            && (Final(t, t') <==> b.order.None? || t.orders[b.order.value].status in {Pending, Paid})
            && var o := OrderFor(t.orders, b, user, businesses).value;
               && t'.orders[o] == t.orders[o].(status := Collected, box := FindBox(t.boxes, chip))
               && (t'.orders[o].user == user <==> b.order.None? || t.orders[b.order.value].user == user)
  {
    var t' := Collect(t, user, chip, businesses, now).value;
    var id := FindBox(t.boxes, chip).value;
    var b := t.boxes[id];
    if b.order.Some? {
      var o := t.orders[b.order.value];
      assert OrderValid(t.boxes, o) && BoxValid(b);
      assert t'.orders[b.order.value].box == Some(id) != o.box;
    }
  }
}
