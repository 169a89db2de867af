// What the workers receive over a run of the ring. Each frame written is named by the
// position of its add in the run, and each initial placeholder by its slot.

module RingDeliveries {
  import opened Common
  import opened Ring
  import opened RingRuns

  datatype Token = Placeholder(slot: nat) | Write(op: nat)

  /** An add carries only its clock reading here; the frame written is named by position. */
  datatype Call = AddAt(now: int) | NoFrame | Take

  function Placeholders(n: nat): seq<Token> {
    seq(n, i requires 0 <= i < n => Placeholder(i))
  }

  function Start(n: nat, t0: int): (r: Ring<Token>)
    requires n > 0
    ensures WellFormed(r) && |r.slots| == n
  {
    Created(Placeholders(n), t0)
  }

  function OpOf(call: Call, position: nat): Op<Token> {
    match call
    case AddAt(now) => AddOp(Write(position), now)
    case NoFrame => Miss
    case Take => GetOp
  }

  /** The ring after the calls. */
  function After(n: nat, t0: int, calls: seq<Call>): (r: Ring<Token>)
    requires n > 0
    ensures WellFormed(r) && |r.slots| == n
  {
    if calls == [] then Start(n, t0)
    else Apply(After(n, t0, calls[..|calls| - 1]), OpOf(calls[|calls| - 1], |calls| - 1))
  }

  datatype Delivery = Delivery(token: Token, slot: nat, stamp: int, at: nat)

  /**
   * The deliveries made, in order: what the get answered, from which slot, and the age limit it
   * left; `at` is the position of the get.
   */
  function Deliveries(n: nat, t0: int, calls: seq<Call>): seq<Delivery>
    requires n > 0
  {
    if calls == [] then []
    else
      var init := calls[..|calls| - 1];
      var r := After(n, t0, init);
      FoundIff(r);
      Deliveries(n, t0, init) +
      (if calls[|calls| - 1].Take? && Get(r).1.Some? then
         [Delivery(Get(r).1.value, Found(r).value, Get(r).0.maxAge, |init|)]
       else [])
  }

  /** Searching back for the last add that chose slot i. */
  function LastWrite(n: nat, t0: int, calls: seq<Call>, i: nat): Token
    requires n > 0 && i < n
  {
    if calls == [] then Placeholder(i)
    else
      var init := calls[..|calls| - 1];
      if calls[|calls| - 1].AddAt? && Victim(After(n, t0, init)) == i then Write(|init|)
      else LastWrite(n, t0, init, i)
  }

  lemma {:induction false} SlotHoldsLastWrite(n: nat, t0: int, calls: seq<Call>, i: nat)
    requires n > 0 && i < n
    ensures After(n, t0, calls).slots[i].element == LastWrite(n, t0, calls, i)
  {
    if calls == [] {
    } else {
      SlotHoldsLastWrite(n, t0, calls[..|calls| - 1], i);
      FoundIff(After(n, t0, calls[..|calls| - 1]));
    }
  }

  /** No token is written later than now, and a token in two places is in the same slot. */
  ghost predicate Named(r: Ring<Token>, length: nat) {
    && (forall i :: 0 <= i < |r.slots| && r.slots[i].element.Write? ==> r.slots[i].element.op < length)
    && (forall i :: 0 <= i < |r.slots| && r.slots[i].element.Placeholder? ==> r.slots[i].element.slot == i)
    && (forall i, j :: 0 <= i < j < |r.slots| ==> r.slots[i].element != r.slots[j].element)
  }

  lemma {:induction false} TokensAreNamed(n: nat, t0: int, calls: seq<Call>)
    requires n > 0
    ensures Named(After(n, t0, calls), |calls|)
  {
    if calls == [] {
    } else {
      TokensAreNamed(n, t0, calls[..|calls| - 1]);
      FoundIff(After(n, t0, calls[..|calls| - 1]));
    }
  }

  /** A delivered token never becomes pending again. */
  ghost predicate Gone(r: Ring<Token>, length: nat, d: seq<Delivery>) {
    && (forall k :: 0 <= k < |d| ==> (d[k].token.Write? ==> d[k].token.op < length))
    && (forall k, i :: 0 <= k < |d| && 0 <= i < |r.slots| && r.slots[i].element == d[k].token ==> r.slots[i].processed)
  }

  lemma {:induction false} DeliveredIsGone(n: nat, t0: int, calls: seq<Call>)
    requires n > 0
    ensures Gone(After(n, t0, calls), |calls|, Deliveries(n, t0, calls))
  {
    if calls == [] {
    } else {
      var init := calls[..|calls| - 1];
      var r := After(n, t0, init);
      DeliveredIsGone(n, t0, init);
      TokensAreNamed(n, t0, init);
      FoundIff(r);
    }
  }

  /** maxAge is the stamp of the last delivery. */
  lemma {:induction false} AgeOfLastDelivery(n: nat, t0: int, calls: seq<Call>)
    requires n > 0
    ensures var d := Deliveries(n, t0, calls);
      After(n, t0, calls).maxAge == if d == [] then t0 else d[|d| - 1].stamp
  {
    if calls == [] {
    } else {
      AgeOfLastDelivery(n, t0, calls[..|calls| - 1]);
      FoundIff(After(n, t0, calls[..|calls| - 1]));
    }
  }

  ghost predicate Honest(n: nat, t0: int, calls: seq<Call>, d: Delivery)
    requires n > 0
  {
    && d.at < |calls| && d.slot < n && calls[d.at].Take?
    && d.token == LastWrite(n, t0, calls[..d.at], d.slot)
    && (d.token.Write? ==> d.token.op < d.at && calls[d.token.op] == AddAt(d.stamp))
    && (d.token.Placeholder? ==> d.token.slot == d.slot && d.stamp == t0)
  }

  /** The stamp of a slot is the clock reading of the add that wrote it. */
  ghost predicate Stamped(t0: int, calls: seq<Call>, s: Slot<Token>) {
    && (s.element.Write? ==> s.element.op < |calls| && calls[s.element.op] == AddAt(s.stamp))
    && (s.element.Placeholder? ==> s.stamp == t0)
  }

  lemma {:induction false} StampsAreReadings(n: nat, t0: int, calls: seq<Call>)
    requires n > 0
    ensures forall i :: 0 <= i < n ==> Stamped(t0, calls, After(n, t0, calls).slots[i])
  {
    if calls == [] {
    } else {
      var r := After(n, t0, calls[..|calls| - 1]);
      StampsAreReadings(n, t0, calls[..|calls| - 1]);
      FoundIff(r);
      forall i | 0 <= i < n
        ensures Stamped(t0, calls, After(n, t0, calls).slots[i])
      {
        assert Stamped(t0, calls[..|calls| - 1], r.slots[i]);
      }
    }
  }

  /** The deliveries before the last call, and the one it makes, if any. */
  lemma LastCallDelivers(n: nat, t0: int, calls: seq<Call>)
    requires n > 0 && calls != []
    ensures var init := calls[..|calls| - 1];
      var r, d0, d := After(n, t0, init), Deliveries(n, t0, init), Deliveries(n, t0, calls);
      d == d0 ||
      (Found(r).Some? && Found(r).value < n && calls[|init|].Take? &&
       var s := r.slots[Found(r).value];
       Fresh(s, r.maxAge) && d == d0 + [Delivery(s.element, Found(r).value, s.stamp, |init|)])
  {
    FoundIff(After(n, t0, calls[..|calls| - 1]));
  }

  lemma {:induction false} DeliveriesDistinct(n: nat, t0: int, calls: seq<Call>)
    requires n > 0
    ensures var d := Deliveries(n, t0, calls);
      forall j, k :: 0 <= j < k < |d| ==> d[j].token != d[k].token
  {
    if calls == [] {
    } else {
      DeliveriesDistinct(n, t0, calls[..|calls| - 1]);
      LastCallDelivers(n, t0, calls);
      DeliveredIsGone(n, t0, calls[..|calls| - 1]);
    }
  }

  /** Stamps that start at t0 or later and never decrease. */
  ghost predicate Ascending(t0: int, d: seq<Delivery>) {
    && (forall j, k :: 0 <= j < k < |d| ==> d[j].stamp <= d[k].stamp)
    && (forall k :: 0 <= k < |d| ==> t0 <= d[k].stamp)
  }

  lemma AscendingSnoc(t0: int, d: seq<Delivery>, x: Delivery)
    requires Ascending(t0, d) && (if d == [] then t0 else d[|d| - 1].stamp) <= x.stamp
    ensures Ascending(t0, d + [x])
  {
  }

  lemma {:induction false} DeliveriesAge(n: nat, t0: int, calls: seq<Call>)
    requires n > 0
    ensures Ascending(t0, Deliveries(n, t0, calls))
  {
    if calls == [] {
    } else {
      var init := calls[..|calls| - 1];
      var d0, d := Deliveries(n, t0, init), Deliveries(n, t0, calls);
      DeliveriesAge(n, t0, init);
      LastCallDelivers(n, t0, calls);
      AgeOfLastDelivery(n, t0, init);
      if d != d0 {
        AscendingSnoc(t0, d0, d[|d0|]);
      }
    }
  }

  lemma HonestLater(n: nat, t0: int, calls: seq<Call>, d: Delivery)
    requires n > 0 && calls != [] && Honest(n, t0, calls[..|calls| - 1], d)
    ensures Honest(n, t0, calls, d)
  {
    assert calls[..|calls| - 1][..d.at] == calls[..d.at];
  }

  lemma HonestNow(n: nat, t0: int, calls: seq<Call>, i: nat)
    requires n > 0 && calls != [] && calls[|calls| - 1].Take? && i < n
    ensures var s := After(n, t0, calls[..|calls| - 1]).slots[i];
      Honest(n, t0, calls, Delivery(s.element, i, s.stamp, |calls| - 1))
  {
    var init := calls[..|calls| - 1];
    TokensAreNamed(n, t0, init);
    StampsAreReadings(n, t0, init);
    SlotHoldsLastWrite(n, t0, init, i);
    assert Stamped(t0, init, After(n, t0, init).slots[i]);
  }

  lemma {:induction false} DeliveriesHonest(n: nat, t0: int, calls: seq<Call>)
    requires n > 0
    ensures var d := Deliveries(n, t0, calls);
      forall k :: 0 <= k < |d| ==> Honest(n, t0, calls, d[k])
  {
    if calls == [] {
    } else {
      var init := calls[..|calls| - 1];
      var d0, d := Deliveries(n, t0, init), Deliveries(n, t0, calls);
      DeliveriesHonest(n, t0, init);
      LastCallDelivers(n, t0, calls);
      forall k | 0 <= k < |d|
        ensures Honest(n, t0, calls, d[k])
      {
        if k < |d0| {
          HonestLater(n, t0, calls, d0[k]);
        } else {
          HonestNow(n, t0, calls, d[k].slot);
        }
      }
    }
  }

  /**
   * Over every run and any clock: no write and no placeholder is delivered twice; each
   * delivery is the last value written to its slot, with that write's clock reading, or the
   * slot's placeholder; and the stamps delivered never decrease.
   */
  lemma EveryRunDelivers(n: nat, t0: int, calls: seq<Call>)
    requires n > 0
    ensures var d := Deliveries(n, t0, calls);
      && (forall j, k :: 0 <= j < k < |d| ==> d[j].token != d[k].token && d[j].stamp <= d[k].stamp)
      && (forall k :: 0 <= k < |d| ==> Honest(n, t0, calls, d[k]) && t0 <= d[k].stamp)
  {
    DeliveriesDistinct(n, t0, calls);
    DeliveriesAge(n, t0, calls);
    DeliveriesHonest(n, t0, calls);
  }

  // ------------------------------------------------------------------------------------
  // Slots that have become too old

  /** No add among the ops, run from r, chooses slot i. */
  predicate Untouched<T>(r: Ring<T>, ops: seq<Op<T>>, i: nat)
    requires WellFormed(r)
  {
    ops == [] ||
    (Untouched(r, ops[..|ops| - 1], i) &&
     (ops[|ops| - 1].AddOp? ==> Victim(Run(r, ops[..|ops| - 1])) != i))
  }

  /** A slot older than maxAge stays so, and no get takes it, until an add chooses it. */
  lemma {:induction false} StaleIsNeverDelivered<T>(r: Ring<T>, ops: seq<Op<T>>, i: nat)
    requires WellFormed(r) && i < |r.slots| && r.slots[i].stamp < r.maxAge
    requires Untouched(r, ops, i)
    ensures var t := Run(r, ops);
      && t.slots[i] == r.slots[i] && r.maxAge <= t.maxAge
      && Found(t) != Some(i)
  {
    FoundIff(Run(r, ops));
    if ops == [] {
    } else {
      StaleIsNeverDelivered(r, ops[..|ops| - 1], i);
      FoundIff(Run(r, ops[..|ops| - 1]));
    }
  }
}
