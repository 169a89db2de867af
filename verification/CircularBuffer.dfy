// The ring as the program has it: an array of slots changed in place, scanned by loops. Each
// method is proved to make the step that Ring gives for it.

module CircularBuffer {
  import opened Common
  import opened Ring

  lemma UniformIsCreated<T>(slots: seq<Slot<T>>, empty: T, now: int)
    requires forall k :: 0 <= k < |slots| ==> slots[k] == Slot(empty, false, now)
    ensures slots == Created(seq(|slots|, i => empty), now).slots
  {
  }

  /** The constructor's indices: from the size, which stands for 0, down to 1. */
  lemma DownwardIndex(n: nat, i: nat)
    requires 0 < i <= n
    ensures i % n == if i == n then 0 else i
  {
    if i == n {
      ModOnce(n, n);
    } else {
      GoingRoundIsModulo(n, 0, i);
    }
  }

  class CircularBuffer<T> {
    const cBuffer: array<Slot<T>>
    const maxElements: nat
    var nextIndex: nat
    var availableElements: nat
    var skippedElements: nat
    var maxAge: int

    ghost predicate Valid()
      reads this
    {
      cBuffer.Length == maxElements && nextIndex < maxElements && availableElements <= maxElements
    }

    ghost function View(): (r: Ring<T>)
      reads this, cBuffer
    {
      Ring(cBuffer[..], nextIndex, availableElements, skippedElements, maxAge)
    }

    /** `empty` is the element type's default value. */
    constructor (maxElements: nat, empty: T, now: int)
      requires maxElements > 0
      ensures Valid() && this.maxElements == maxElements && fresh(cBuffer)
      ensures View() == Created(seq(maxElements, i => empty), now)
    {
      nextIndex, availableElements, skippedElements := 0, 0, 0;
      this.maxElements := maxElements;
      var slots := new Slot<T>[maxElements](_ => Slot(empty, true, 0));
      var i := maxElements;
      while i > 0
        invariant 0 <= i <= maxElements
        invariant forall k :: 0 <= k < maxElements ==> slots[k].element == empty
        invariant forall k :: i < k < maxElements ==> slots[k] == Slot(empty, false, now)
        invariant i < maxElements ==> slots[0] == Slot(empty, false, now)
      {
        var index := i % maxElements;
        DownwardIndex(maxElements, i);
        slots[index] := Slot(slots[index].element, false, now);
        i := i - 1;
      }
      UniformIsCreated(slots[..], empty, now);
      cBuffer := slots;
      maxAge := now;
    }

    method AddElement(elem: T, now: int) returns (ret: bool)
      requires Valid()
      modifies this, cBuffer
      ensures Valid()
      ensures (View(), ret) == Add(old(View()), elem, now)
    {
      ghost var r := View();
      ret := true;
      if !cBuffer[nextIndex].processed {
        var oldest := cBuffer[nextIndex].stamp;
        var newIndex := nextIndex;
        for i := nextIndex + 1 to nextIndex + maxElements
          invariant View() == r
          invariant newIndex < maxElements && newIndex == At(maxElements, nextIndex, Best(r, i - nextIndex))
          invariant oldest == cBuffer[newIndex].stamp
        {
          var index := i % maxElements;
          GoingRoundIsModulo(maxElements, nextIndex, i - nextIndex);
          assert cBuffer[index] == Walk(r, i - nextIndex);
          if !cBuffer[index].processed && oldest < cBuffer[index].stamp {
            oldest := cBuffer[index].stamp;
            newIndex := index;
          }
        }
        if newIndex != nextIndex {
          skippedElements := skippedElements + 1;
        }
        nextIndex := newIndex;
        ret := false;
      }
      assert nextIndex == Victim(r);
      cBuffer[nextIndex] := Slot(elem, false, now);
      GoingRoundIsModulo(maxElements, nextIndex, 0);
      nextIndex := (nextIndex + 1) % maxElements;
      if availableElements < maxElements {
        availableElements := availableElements + 1;
      }
    }

    /** `arg` is what the caller's variable holds before the call. */
    method GetElement(arg: T) returns (found: bool, res: T)
      requires Valid()
      modifies this, cBuffer
      ensures Valid()
      ensures View() == Get(old(View())).0
      ensures Get(old(View())).1 == if found then Some(res) else None
      ensures !found ==> res == arg
    {
      ghost var r := View();
      res := arg;
      if availableElements == 0 {
        return false, res;
      }
      for i := nextIndex to nextIndex + maxElements
        invariant View() == r && res == arg
        invariant FirstFresh(r, 0) == FirstFresh(r, i - nextIndex)
      {
        var index := i % maxElements;
        GoingRoundIsModulo(maxElements, nextIndex, i - nextIndex);
        if !cBuffer[index].processed && maxAge <= cBuffer[index].stamp {
          assert cBuffer[index] == Walk(r, i - nextIndex);
          cBuffer[index] := cBuffer[index].(processed := true);
          res := cBuffer[index].element;
          availableElements := availableElements - 1;
          maxAge := cBuffer[index].stamp;
          return true, res;
        }
      }
      return false, res;
    }
  }
}
