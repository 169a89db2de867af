// Whole runs of the ring: any interleaving of one producer's adds and the workers' gets.
// The mutex makes each call one step.

module RingRuns {
  import opened Common
  import opened Ring

  datatype Op<T> =
    | AddOp(elem: T, now: int)
    | Miss                      // the camera delivered no frame, so nothing was added
    | GetOp

  function Apply<T>(r: Ring<T>, op: Op<T>): (t: Ring<T>)
    requires WellFormed(r)
    ensures WellFormed(t) && |t.slots| == |r.slots|
  {
    StaysWellFormedGet(r);
    match op
    case AddOp(elem, now) => Add(r, elem, now).0
    case Miss => r
    case GetOp => Get(r).0
  }

  lemma StaysWellFormedGet<T>(r: Ring<T>)
    requires WellFormed(r)
    ensures WellFormed(Get(r).0) && |Get(r).0.slots| == |r.slots|
  {
  }

  function Run<T>(r: Ring<T>, ops: seq<Op<T>>): (t: Ring<T>)
    requires WellFormed(r)
    ensures WellFormed(t) && |t.slots| == |r.slots|
  {
    if ops == [] then r else Apply(Run(r, ops[..|ops| - 1]), ops[|ops| - 1])
  }

  // ------------------------------------------------------------------------------------
  // The ledger

  function Pending<T>(slots: seq<Slot<T>>): (n: nat)
    ensures n <= |slots|
  {
    if slots == [] then 0
    else Pending(slots[..|slots| - 1]) + (if slots[|slots| - 1].processed then 0 else 1)
  }

  lemma {:induction false} PendingUpdate<T>(slots: seq<Slot<T>>, i: nat, s: Slot<T>)
    requires i < |slots|
    ensures Pending(slots[i := s])
         == Pending(slots) - (if slots[i].processed then 0 else 1) + (if s.processed then 0 else 1)
  {
    var n := |slots| - 1;
    if i == n {
      assert slots[i := s][..n] == slots[..n];
    } else {
      PendingUpdate(slots[..n], i, s);
      assert slots[i := s][..n] == slots[..n][i := s];
    }
  }

  lemma {:induction false} AllPending<T>(slots: seq<Slot<T>>)
    ensures Pending(slots) == |slots| <==> forall i :: 0 <= i < |slots| ==> !slots[i].processed
  {
    if slots == [] {
    } else {
      var init := slots[..|slots| - 1];
      AllPending(init);
      assert forall i :: 0 <= i < |init| ==> slots[i] == init[i];
    }
  }

  function TrueAdds<T>(r: Ring<T>, ops: seq<Op<T>>): nat
    requires WellFormed(r)
  {
    if ops == [] then 0
    else
      var before := Run(r, ops[..|ops| - 1]);
      var op := ops[|ops| - 1];
      TrueAdds(r, ops[..|ops| - 1]) + (if op.AddOp? && Add(before, op.elem, op.now).1 then 1 else 0)
  }

  function TrueGets<T>(r: Ring<T>, ops: seq<Op<T>>): nat
    requires WellFormed(r)
  {
    if ops == [] then 0
    else
      TrueGets(r, ops[..|ops| - 1]) +
      (if ops[|ops| - 1].GetOp? && Get(Run(r, ops[..|ops| - 1])).1.Some? then 1 else 0)
  }

  /** An add answers false exactly when the slot it overwrites holds a pending frame. */
  lemma FalseAddOverwrites<T>(r: Ring<T>, elem: T, now: int)
    requires WellFormed(r)
    ensures Add(r, elem, now).1 <==> r.slots[Victim(r)].processed
    ensures Add(r, elem, now).1 ==> Victim(r) == r.next
  {
    if !r.slots[r.next].processed {
      BestIsNewest(r, |r.slots|);
    }
  }

  lemma {:induction false} Ledger<T>(r: Ring<T>, ops: seq<Op<T>>)
    requires WellFormed(r)
    ensures Pending(Run(r, ops).slots) == Pending(r.slots) + TrueAdds(r, ops) - TrueGets(r, ops)
  {
    if ops == [] {
    } else {
      var init, op := ops[..|ops| - 1], ops[|ops| - 1];
      var before := Run(r, init);
      Ledger(r, init);
      match op {
        case AddOp(elem, now) =>
          FalseAddOverwrites(before, elem, now);
          PendingUpdate(before.slots, Victim(before), Slot(elem, false, now));
        case Miss =>
        case GetOp =>
          FoundIff(before);
          if Found(before).Some? {
            var i := Found(before).value;
            PendingUpdate(before.slots, i, before.slots[i].(processed := true));
          }
      }
    }
  }

  /**
   * From a new ring of N slots: N + true adds - true gets slots are pending, so the producer
   * is never ahead of the workers and never more than N behind.
   */
  lemma LedgerFromCreated<T>(placeholders: seq<T>, t0: int, ops: seq<Op<T>>)
    requires placeholders != []
    ensures var n, r := |placeholders|, Created(placeholders, t0);
      && Pending(Run(r, ops).slots) == n + TrueAdds(r, ops) - TrueGets(r, ops)
      && TrueGets(r, ops) - n <= TrueAdds(r, ops) <= TrueGets(r, ops)
  {
    var r := Created(placeholders, t0);
    Ledger(r, ops);
    AllPending(r.slots);
  }

  // ------------------------------------------------------------------------------------
  // availableElements against the number of pending slots

  /** What an op adds to availableElements - #pending: it is off only at the cap or on a loss. */
  function Drift<T>(r: Ring<T>, ops: seq<Op<T>>): int
    requires WellFormed(r)
  {
    if ops == [] then 0
    else
      var before := Run(r, ops[..|ops| - 1]);
      var op := ops[|ops| - 1];
      var full := before.available == |before.slots|;
      Drift(r, ops[..|ops| - 1]) +
      (if !op.AddOp? then 0
       else if Add(before, op.elem, op.now).1 then (if full then -1 else 0)
       else (if full then 0 else 1))
  }

  lemma {:induction false} AvailableDrifts<T>(r: Ring<T>, ops: seq<Op<T>>)
    requires WellFormed(r)
    ensures Run(r, ops).available - Pending(Run(r, ops).slots) == r.available - Pending(r.slots) + Drift(r, ops)
  {
    if ops == [] {
    } else {
      var init, op := ops[..|ops| - 1], ops[|ops| - 1];
      var before := Run(r, init);
      AvailableDrifts(r, init);
      match op {
        case AddOp(elem, now) =>
          FalseAddOverwrites(before, elem, now);
          PendingUpdate(before.slots, Victim(before), Slot(elem, false, now));
        case Miss =>
        case GetOp =>
          FoundIff(before);
          if Found(before).Some? {
            var i := Found(before).value;
            PendingUpdate(before.slots, i, before.slots[i].(processed := true));
          }
      }
    }
  }

  /**
   * The header promises that availableElements is the number of unprocessed slots. From a new
   * ring of N slots that holds exactly when the overwrites below the cap outnumber the true
   * adds at the cap by N.
   */
  lemma AvailableIsPendingIff<T>(placeholders: seq<T>, t0: int, ops: seq<Op<T>>)
    requires placeholders != []
    ensures var r := Created(placeholders, t0);
      Run(r, ops).available == Pending(Run(r, ops).slots) <==> Drift(r, ops) == |placeholders|
  {
    var r := Created(placeholders, t0);
    AvailableDrifts(r, ops);
    AllPending(r.slots);
  }

  /** It already fails on every new ring. */
  lemma AvailableIsNotPending<T>(placeholders: seq<T>, t0: int)
    requires placeholders != []
    ensures var r := Created(placeholders, t0); r.available == 0 && Pending(r.slots) == |placeholders|
  {
    AllPending(Created(placeholders, t0).slots);
  }

  // ------------------------------------------------------------------------------------
  // A get right after an add

  /** With any clock: such a get succeeds unless the new stamp and every pending one are too old. */
  lemma GetAfterAddIff<T>(r: Ring<T>, elem: T, now: int)
    requires WellFormed(r)
    ensures var t := Add(r, elem, now).0;
      Get(t).1.Some? <==>
        r.maxAge <= now || exists i :: 0 <= i < |r.slots| && i != Victim(r) && Fresh(r.slots[i], r.maxAge)
  {
    var t, v := Add(r, elem, now).0, Victim(r);
    FoundIff(t);
    assert forall i :: 0 <= i < |r.slots| && i != v ==> t.slots[i] == r.slots[i];
    if r.maxAge <= now {
      assert Fresh(t.slots[v], t.maxAge);
    }
    if i :| 0 <= i < |r.slots| && i != v && Fresh(r.slots[i], r.maxAge) {
      assert Fresh(t.slots[i], t.maxAge);
    }
  }

  /** The clock readings of the adds never go back, from t0 on. */
  predicate Clocked<T>(t0: int, ops: seq<Op<T>>) {
    ops == [] ||
    (var op := ops[|ops| - 1];
     Clocked(t0, ops[..|ops| - 1]) && (op.AddOp? ==> LastReading(t0, ops[..|ops| - 1]) <= op.now))
  }

  function LastReading<T>(t0: int, ops: seq<Op<T>>): int {
    if ops == [] then t0
    else if ops[|ops| - 1].AddOp? then ops[|ops| - 1].now
    else LastReading(t0, ops[..|ops| - 1])
  }

  lemma {:induction false} StampsBehindClock<T>(placeholders: seq<T>, t0: int, ops: seq<Op<T>>)
    requires placeholders != [] && Clocked(t0, ops)
    ensures var r := Run(Created(placeholders, t0), ops);
      && r.maxAge <= LastReading(t0, ops)
      && forall i :: 0 <= i < |r.slots| ==> r.slots[i].stamp <= LastReading(t0, ops)
  {
    if ops == [] {
    } else {
      StampsBehindClock(placeholders, t0, ops[..|ops| - 1]);
      FoundIff(Run(Created(placeholders, t0), ops[..|ops| - 1]));
    }
  }

  /** With a clock that never goes back, in every reachable state, it always succeeds. */
  lemma GetAfterAddSucceeds<T>(placeholders: seq<T>, t0: int, ops: seq<Op<T>>, elem: T, now: int)
    requires placeholders != [] && Clocked(t0, ops) && LastReading(t0, ops) <= now
    ensures var r := Run(Created(placeholders, t0), ops);
      Get(Add(r, elem, now).0).1.Some?
  {
    StampsBehindClock(placeholders, t0, ops);
    GetAfterAddIff(Run(Created(placeholders, t0), ops), elem, now);
  }

  // ------------------------------------------------------------------------------------
  // Workers that keep up

  /** No add overwrites a pending frame. */
  predicate NothingLost<T>(r: Ring<T>, ops: seq<Op<T>>)
    requires WellFormed(r)
  {
    ops == [] ||
    (var init, op := ops[..|ops| - 1], ops[|ops| - 1];
     NothingLost(r, init) && (op.AddOp? ==> Add(Run(r, init), op.elem, op.now).1))
  }

  /** The index k steps behind i. */
  function StepsBehind(n: nat, i: nat, k: nat): (j: nat)
    requires i < n
    ensures j < n
  {
    if k == 0 then i else Behind(n, StepsBehind(n, i, k - 1))
  }

  function AddCount<T>(ops: seq<Op<T>>): nat {
    if ops == [] then 0 else AddCount(ops[..|ops| - 1]) + (if ops[|ops| - 1].AddOp? then 1 else 0)
  }

  /** Then the adds fill the slots in turn, whatever the gets take between them, and none is skipped. */
  lemma {:induction false} AddsGoRound<T>(r: Ring<T>, ops: seq<Op<T>>)
    requires WellFormed(r) && NothingLost(r, ops)
    ensures Run(r, ops).next == StepsBehind(|r.slots|, r.next, AddCount(ops))
    ensures Run(r, ops).skipped == r.skipped && TrueAdds(r, ops) == AddCount(ops)
    ensures ops != [] && ops[|ops| - 1].AddOp? ==>
      Run(r, ops).slots[StepsBehind(|r.slots|, r.next, AddCount(ops) - 1)].element == ops[|ops| - 1].elem
  {
    if ops == [] {
    } else {
      var init, op := ops[..|ops| - 1], ops[|ops| - 1];
      var before := Run(r, init);
      AddsGoRound(r, init);
      if op.AddOp? {
        FalseAddOverwrites(before, op.elem, op.now);
      }
    }
  }

  // ------------------------------------------------------------------------------------
  // Adding to a full ring

  function Adds<T>(frames: seq<(T, int)>): seq<Op<T>> {
    if frames == [] then []
    else
      var last := frames[|frames| - 1];
      Adds(frames[..|frames| - 1]) + [AddOp(last.0, last.1)]
  }

  /** The first frame comes later than t0, and the times never go back. */
  predicate LaterFrames<T>(t0: int, frames: seq<(T, int)>) {
    frames == [] ||
    (var init, last := frames[..|frames| - 1], frames[|frames| - 1];
     if init == [] then t0 < last.1 else LaterFrames(t0, init) && init[|init| - 1].1 <= last.1)
  }

  lemma {:induction false} LastIsLater<T>(t0: int, frames: seq<(T, int)>)
    requires LaterFrames(t0, frames) && frames != []
    ensures t0 < frames[|frames| - 1].1
  {
    var init := frames[..|frames| - 1];
    if init != [] {
      LastIsLater(t0, init);
    }
  }

  predicate Full<T>(r: Ring<T>) {
    WellFormed(r) && forall i :: 0 <= i < |r.slots| ==> !r.slots[i].processed
  }

  /**
   * On a ring whose slots are all pending, if the first of a burst of adds comes later than all
   * of them and the clock does not go back, all overwrite one slot: the other N - 1 pending
   * frames survive, and all adds answer false.
   */
  lemma {:induction false} BurstKeepsOthers<T>(r: Ring<T>, t0: int, frames: seq<(T, int)>)
    requires Full(r) && LaterFrames(t0, frames)
    requires forall i :: 0 <= i < |r.slots| ==> r.slots[i].stamp <= t0
    ensures frames != [] ==>
      var last := frames[|frames| - 1];
      Run(r, Adds(frames)).slots == r.slots[Victim(r) := Slot(last.0, false, last.1)]
    ensures TrueAdds(r, Adds(frames)) == 0
  {
    if frames == [] {
    } else {
      var init, last := frames[..|frames| - 1], frames[|frames| - 1];
      var ops := Adds(frames);
      assert ops[..|ops| - 1] == Adds(init);
      BurstKeepsOthers(r, t0, init);
      var before, v := Run(r, Adds(init)), Victim(r);
      assert Run(r, ops) == Add(before, last.0, last.1).0;
      if init == [] {
        assert before == r;
      } else {
        LastIsLater(t0, init);
        NewestIsVictim(before, v);
      }
    }
  }

  /**
   * Exactly when, on a full ring and with a clock that does not go back, a second add overwrites
   * the frame of the first: no other pending frame has the first one's stamp. Stamps are whole
   * seconds, so others may well have it.
   */
  lemma SecondAddSameSlotIff<T>(r: Ring<T>, elem: T, now: int)
    requires Full(r) && forall i :: 0 <= i < |r.slots| ==> r.slots[i].stamp <= now
    ensures Victim(Add(r, elem, now).0) == Victim(r)
       <==> forall i :: 0 <= i < |r.slots| && i != Victim(r) ==> r.slots[i].stamp < now
  {
    var t, v, n := Add(r, elem, now).0, Victim(r), |r.slots|;
    if i :| 0 <= i < n && i != v && r.slots[i].stamp == now {
      VictimIsNewest(t);
      LastOfWalk(n, v, i);
      var b, j := Distance(n, t.next, v), Distance(n, t.next, i);
      assert Walk(t, j).stamp == now && Walk(t, b).stamp == now && j < b;
      assert !Newest(t, n, b);
    } else {
      NewestIsVictim(t, v);
    }
  }

  /** Seen from just behind slot v, slot v itself comes last, and any other slot i before it. */
  lemma LastOfWalk(n: nat, v: nat, i: nat)
    requires v < n && i < n
    ensures Distance(n, Behind(n, v), v) == n - 1
    ensures i != v ==> Distance(n, Behind(n, v), i) < n - 1
  {
  }

  function AddsAt<T>(elems: seq<T>, now: int): seq<Op<T>> {
    if elems == [] then [] else AddsAt(elems[..|elems| - 1], now) + [AddOp(elems[|elems| - 1], now)]
  }

  /**
   * With ties the other frames do not survive: on a full ring of equal stamps, k <= N adds
   * with that stamp overwrite the k slots from nextIndex on, one after the other.
   */
  lemma {:induction false} TiedBurst<T>(r: Ring<T>, elems: seq<T>, now: int)
    requires Full(r) && |elems| <= |r.slots|
    requires forall i :: 0 <= i < |r.slots| ==> r.slots[i].stamp == now
    ensures var t, n := Run(r, AddsAt(elems, now)), |r.slots|;
      && (|elems| < n ==> t.next == At(n, r.next, |elems|))
      && (forall j :: 0 <= j < |elems| ==> t.slots[At(n, r.next, j)] == Slot(elems[j], false, now))
      && (forall j :: |elems| <= j < n ==> t.slots[At(n, r.next, j)] == Walk(r, j))
  {
    if elems == [] {
    } else {
      var init, n, ops := elems[..|elems| - 1], |r.slots|, AddsAt(elems, now);
      assert ops[..|ops| - 1] == AddsAt(init, now);
      TiedBurst(r, init, now);
      var before := Run(r, AddsAt(init, now));
      AllTied(r, before, now);
      AddToTied(before, elems[|init|], now);
      AtNext(n, r.next, |init|);
    }
  }

  /** From one slot of the walk to the next. */
  lemma AtNext(n: nat, next: nat, k: nat)
    requires next < n && k < n
    ensures k + 1 < n ==> Behind(n, At(n, next, k)) == At(n, next, k + 1)
    ensures forall j :: 0 <= j < n && j != k ==> At(n, next, j) != At(n, next, k)
  {
  }

  /** Every slot is on the walk, so if those on it are pending with one stamp, all are. */
  lemma AllTied<T>(r: Ring<T>, t: Ring<T>, now: int)
    requires WellFormed(r) && WellFormed(t) && |t.slots| == |r.slots|
    requires forall j :: 0 <= j < |r.slots| ==>
      !t.slots[At(|r.slots|, r.next, j)].processed && t.slots[At(|r.slots|, r.next, j)].stamp == now
    ensures Full(t) && forall i :: 0 <= i < |t.slots| ==> t.slots[i].stamp == now
  {
    forall i | 0 <= i < |t.slots|
      ensures !t.slots[i].processed && t.slots[i].stamp == now
    {
      assert At(|r.slots|, r.next, Distance(|r.slots|, r.next, i)) == i;
    }
  }

  lemma AddToTied<T>(r: Ring<T>, elem: T, now: int)
    requires Full(r) && forall i :: 0 <= i < |r.slots| ==> r.slots[i].stamp == now
    ensures var t := Add(r, elem, now).0;
      t.slots == r.slots[r.next := Slot(elem, false, now)] && t.next == Behind(|r.slots|, r.next)
  {
    VictimIsNewest(r);
    assert Newest(r, |r.slots|, 0);
  }

  /** A pending slot strictly newer than all others is the next victim of a full ring. */
  lemma NewestIsVictim<T>(r: Ring<T>, v: nat)
    requires Full(r) && v < |r.slots|
    requires forall i :: 0 <= i < |r.slots| && i != v ==> r.slots[i].stamp < r.slots[v].stamp
    ensures Victim(r) == v
  {
    VictimIsNewest(r);
    var b := Distance(|r.slots|, r.next, v);
    WalkVisitsOnce(|r.slots|, r.next, v);
    assert Newest(r, |r.slots|, b);
  }
}
