// The lossy ring of time-stamped frames on values: what an add and a get do, and how the
// slot each of them touches is chosen.

module Ring {
  import opened Common

  datatype Slot<T> = Slot(element: T, processed: bool, stamp: int)

  datatype Ring<T> = Ring(
    slots: seq<Slot<T>>,
    next: nat,        // nextIndex
    available: nat,   // availableElements
    skipped: nat,     // skippedElements
    maxAge: int)

  predicate WellFormed<T>(r: Ring<T>) {
    r.next < |r.slots| && r.available <= |r.slots|
  }

  /** The index at distance k from nextIndex, going round. */
  function At(n: nat, next: nat, k: nat): (i: nat)
    requires next < n && k < n
    ensures i < n
  {
    if next + k < n then next + k else next + k - n
  }

  /** The index behind i, going round. */
  function Behind(n: nat, i: nat): (j: nat)
    requires i < n
    ensures j < n
  {
    if i + 1 < n then i + 1 else 0
  }

  /** Going round is what the program's remainders do. */
  lemma GoingRoundIsModulo(n: nat, next: nat, k: nat)
    requires next < n && k < n
    ensures At(n, next, k) == (next + k) % n && Behind(n, next) == (next + 1) % n
  {
    if next + k >= n {
      ModOnce(next + k, n);
    }
    if next + 1 == n {
      ModOnce(n, n);
    }
  }

  lemma ModOnce(x: nat, n: nat)
    requires 0 < n <= x < 2 * n
    ensures x % n == x - n
  {
    var q := x / n;
    assert x == q * n + x % n;
    if q >= 2 {
      MulMonotone(2, n, q, n);
    }
    assert q == 1;
  }

  /** The distance from nextIndex to index i, going round. */
  function Distance(n: nat, next: nat, i: nat): (k: nat)
    requires next < n && i < n
    ensures k < n && At(n, next, k) == i
  {
    if next <= i then i - next else i + n - next
  }

  /** The walk from nextIndex visits every index once. */
  lemma WalkVisitsOnce(n: nat, next: nat, i: nat)
    requires next < n && i < n
    ensures exists k :: 0 <= k < n && At(n, next, k) == i
    ensures forall k, l :: 0 <= k < n && 0 <= l < n && At(n, next, k) == At(n, next, l) ==> k == l
  {
    assert At(n, next, Distance(n, next, i)) == i;
  }

  function Walk<T>(r: Ring<T>, k: nat): Slot<T>
    requires WellFormed(r) && k < |r.slots|
  {
    r.slots[At(|r.slots|, r.next, k)]
  }

  // ------------------------------------------------------------------------------------
  // The slot an add overwrites

  /** The distance of the slot chosen among the first k of the walk. */
  function Best<T>(r: Ring<T>, k: nat): (b: nat)
    requires WellFormed(r) && 1 <= k <= |r.slots|
    ensures b < k
  {
    if k == 1 then 0
    else
      var b := Best(r, k - 1);
      if !Walk(r, k - 1).processed && Walk(r, b).stamp < Walk(r, k - 1).stamp then k - 1 else b
  }

  function Victim<T>(r: Ring<T>): (i: nat)
    requires WellFormed(r)
    ensures i < |r.slots|
  {
    if r.slots[r.next].processed then r.next
    else At(|r.slots|, r.next, Best(r, |r.slots|))
  }

  /** Distance b holds the newest pending slot of the first k, the nearest one on ties. */
  ghost predicate Newest<T>(r: Ring<T>, k: nat, b: nat)
    requires WellFormed(r) && k <= |r.slots|
  {
    && b < k && !Walk(r, b).processed
    && (forall j :: 0 <= j < k && !Walk(r, j).processed ==> Walk(r, j).stamp <= Walk(r, b).stamp)
    && (forall j :: 0 <= j < b && !Walk(r, j).processed ==> Walk(r, j).stamp < Walk(r, b).stamp)
  }

  lemma {:induction false} BestIsNewest<T>(r: Ring<T>, k: nat)
    requires WellFormed(r) && 1 <= k <= |r.slots| && !r.slots[r.next].processed
    ensures Newest(r, k, Best(r, k))
  {
    if k == 1 {
      assert Walk(r, 0) == r.slots[r.next];
    } else {
      BestIsNewest(r, k - 1);
    }
  }

  /**
   * An add takes nextIndex if that slot has been processed. Otherwise it takes a pending slot
   * with the largest stamp, the first in the walk from nextIndex among several; no other slot
   * fits that description.
   */
  lemma VictimIsNewest<T>(r: Ring<T>)
    requires WellFormed(r)
    ensures r.slots[r.next].processed ==> Victim(r) == r.next
    ensures !r.slots[r.next].processed ==>
      forall b :: 0 <= b < |r.slots| ==>
        (Newest(r, |r.slots|, b) <==> Victim(r) == At(|r.slots|, r.next, b))
  {
    if !r.slots[r.next].processed {
      var n := |r.slots|;
      BestIsNewest(r, n);
      WalkVisitsOnce(n, r.next, r.next);
      forall b | 0 <= b < n
        ensures Newest(r, n, b) <==> Victim(r) == At(n, r.next, b)
      {
        if Newest(r, n, b) {
          assert b == Best(r, n);
        }
      }
    }
  }

  /** The new ring, and whether nothing pending was overwritten. */
  function Add<T>(r: Ring<T>, elem: T, now: int): (Ring<T>, bool)
    requires WellFormed(r)
  {
    var v := Victim(r);
    var n := |r.slots|;
    (Ring(r.slots[v := Slot(elem, false, now)],
          Behind(n, v),
          if r.available < n then r.available + 1 else r.available,
          if v != r.next then r.skipped + 1 else r.skipped,
          r.maxAge),
     r.slots[r.next].processed)
  }

  /**
   * What an add leaves behind: the frame in the chosen slot alone, nextIndex right behind that
   * slot, one more available up to the size, and one more skipped if the slot is not the one
   * at nextIndex. It answers whether the slot at nextIndex had been processed.
   */
  lemma AddEffect<T>(r: Ring<T>, elem: T, now: int)
    requires WellFormed(r)
    ensures var (t, free) := Add(r, elem, now);
      var n, v := |r.slots|, Victim(r);
      && |t.slots| == n && t.slots[v].element == elem && !t.slots[v].processed && t.slots[v].stamp == now
      && (forall i :: 0 <= i < n && i != v ==> t.slots[i] == r.slots[i])
      && t.next == (v + 1) % n && t.maxAge == r.maxAge
      && t.available == (if r.available == n then n else r.available + 1)
      && t.skipped == (if v == r.next then r.skipped else r.skipped + 1)
      && (free <==> r.slots[r.next].processed)
  {
    GoingRoundIsModulo(|r.slots|, Victim(r), 0);
  }

  // ------------------------------------------------------------------------------------
  // The slot a get takes

  predicate Fresh<T>(s: Slot<T>, maxAge: int) {
    !s.processed && maxAge <= s.stamp
  }

  /** The distance of the first fresh slot from distance k on. */
  function FirstFresh<T>(r: Ring<T>, k: nat): (f: Option<nat>)
    requires WellFormed(r) && k <= |r.slots|
    ensures f.Some? ==> k <= f.value < |r.slots|
    decreases |r.slots| - k
  {
    if k == |r.slots| then None
    else if Fresh(Walk(r, k), r.maxAge) then Some(k)
    else FirstFresh(r, k + 1)
  }

  /** The index a get takes, if any. */
  function Found<T>(r: Ring<T>): Option<nat>
    requires WellFormed(r)
  {
    if r.available == 0 then None
    else match FirstFresh(r, 0)
      case None => None
      case Some(k) => Some(At(|r.slots|, r.next, k))
  }

  lemma {:induction false} FirstFreshIsFirst<T>(r: Ring<T>, k: nat)
    requires WellFormed(r) && k <= |r.slots|
    ensures FirstFresh(r, k).None? ==> forall j :: k <= j < |r.slots| ==> !Fresh(Walk(r, j), r.maxAge)
    ensures FirstFresh(r, k).Some? ==>
      var b := FirstFresh(r, k).value;
      Fresh(Walk(r, b), r.maxAge) && forall j :: k <= j < b ==> !Fresh(Walk(r, j), r.maxAge)
    decreases |r.slots| - k
  {
    if k == |r.slots| || Fresh(Walk(r, k), r.maxAge) {
    } else {
      FirstFreshIsFirst(r, k + 1);
    }
  }

  /** A get finds a slot exactly when something counts as available and some slot is fresh. */
  lemma FoundIff<T>(r: Ring<T>)
    requires WellFormed(r)
    ensures Found(r).Some? <==> r.available > 0 && exists i :: 0 <= i < |r.slots| && Fresh(r.slots[i], r.maxAge)
    ensures Found(r).Some? ==>
      var i := Found(r).value;
      && i < |r.slots| && Fresh(r.slots[i], r.maxAge)
      && forall j :: 0 <= j < Distance(|r.slots|, r.next, i) ==> !Fresh(Walk(r, j), r.maxAge)
  {
    FirstFreshIsFirst(r, 0);
    if i :| 0 <= i < |r.slots| && Fresh(r.slots[i], r.maxAge) {
      assert Fresh(Walk(r, Distance(|r.slots|, r.next, i)), r.maxAge);
    }
  }

  function Get<T>(r: Ring<T>): (Ring<T>, Option<T>)
    requires WellFormed(r)
  {
    match Found(r)
    case None => (r, None)
    case Some(i) =>
      FoundIff(r);
      (r.(slots := r.slots[i := r.slots[i].(processed := true)],
          available := r.available - 1,
          maxAge := r.slots[i].stamp),
       Some(r.slots[i].element))
  }

  /**
   * What a get answers and leaves behind: the element of the first fresh slot in the walk, which
   * is marked processed and whose stamp becomes maxAge, and one less available; or nothing, and
   * the ring as it was.
   */
  lemma GetEffect<T>(r: Ring<T>)
    requires WellFormed(r)
    ensures var (t, got) := Get(r);
      && (got.None? ==> t == r)
      && (got.Some? ==>
            exists k :: 0 <= k < |r.slots| && FirstTaken(r, t, got.value, k))
  {
    FoundIff(r);
    if Found(r).Some? {
      assert FirstTaken(r, Get(r).0, Get(r).1.value, Distance(|r.slots|, r.next, Found(r).value));
    }
  }

  ghost predicate FirstTaken<T>(r: Ring<T>, t: Ring<T>, elem: T, k: nat)
    requires WellFormed(r) && k < |r.slots|
  {
    var n := |r.slots|;
    var i := At(n, r.next, k);
    && !r.slots[i].processed && r.maxAge <= r.slots[i].stamp
    && (forall j :: 0 <= j < k ==> Walk(r, j).processed || Walk(r, j).stamp < r.maxAge)
    && elem == r.slots[i].element
    && |t.slots| == n && t.slots[i] == r.slots[i].(processed := true)
    && (forall j :: 0 <= j < n && j != i ==> t.slots[j] == r.slots[j])
    && t.maxAge == r.slots[i].stamp && t.available == r.available - 1
    && t.next == r.next && t.skipped == r.skipped
  }

  /** A new ring: every slot is pending although nothing counts as available. */
  function Created<T>(placeholders: seq<T>, now: int): Ring<T> {
    Ring(seq(|placeholders|, i requires 0 <= i < |placeholders| => Slot(placeholders[i], false, now)), 0, 0, 0, now)
  }

  lemma CreatedEffect<T>(placeholders: seq<T>, now: int)
    ensures var r := Created(placeholders, now);
      && |r.slots| == |placeholders| && r.next == 0 && r.available == 0 && r.skipped == 0 && r.maxAge == now
      && forall i :: 0 <= i < |r.slots| ==>
           r.slots[i].element == placeholders[i] && !r.slots[i].processed && r.slots[i].stamp == now
  {
  }

  lemma StaysWellFormed<T>(r: Ring<T>, elem: T, now: int)
    requires WellFormed(r)
    ensures WellFormed(Add(r, elem, now).0) && |Add(r, elem, now).0.slots| == |r.slots|
    ensures WellFormed(Get(r).0) && |Get(r).0.slots| == |r.slots|
  {
  }
}
