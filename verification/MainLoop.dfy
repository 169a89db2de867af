// The program's capture loop: the producer of the ring.

module MainLoop {
  import opened Common
  import opened Ring
  import opened RingRuns

  function Trues(s: seq<bool>): (n: nat)
    ensures n <= |s|
  {
    if s == [] then 0 else Trues(s[..|s| - 1]) + (if s[|s| - 1] then 1 else 0)
  }

  /**
   * `grabs` are the answers of grabCameraImage in call order and `signals` tells, for each
   * test of the outer loop, whether a signal has asked the program to end. The loop is
   * followed until it ends or the answers run out.
   */
  method CaptureLoop(count: nat, grabs: seq<bool>, signals: nat -> bool)
      returns (i: nat, n: nat, used: nat, ended: bool)
    ensures used <= |grabs| && n - 1 == Trues(grabs[..used])
    ensures count > 0 ==> i == n - 1 <= count + 1
    ensures count == 0 ==> i == 0
    ensures ended ==> (count > 0 && n - 1 == count + 1) || signals(n - 1)
    ensures forall k :: 0 <= k < n - 1 ==> !signals(k)
    ensures ended ==> used == 0 || grabs[used - 1]
    ensures !ended ==> used == |grabs| && !signals(n - 1) && (count > 0 ==> n - 1 <= count)
  {
    i, n, used := 0, 1, 0;
    while i <= count && !signals(n - 1)
      invariant used <= |grabs| && n >= 1 && n - 1 == Trues(grabs[..used])
      invariant i == (if count > 0 then n - 1 else 0) && i <= count + 1
      invariant forall k :: 0 <= k < n - 1 ==> !signals(k)
      invariant used == 0 || grabs[used - 1]
      decreases |grabs| - used
    {
      while used < |grabs| && !grabs[used]
        invariant used <= |grabs| && n - 1 == Trues(grabs[..used])
      {
        used := used + 1;
        assert grabs[..used][..used - 1] == grabs[..used - 1];
      }
      if used == |grabs| {
        return i, n, used, false;
      }
      used := used + 1;
      assert grabs[..used][..used - 1] == grabs[..used - 1];
      if count > 0 {
        i := i + 1;
      }
      n := n + 1;
    }
    ended := true;
  }

  /** What one call answers the producer, if it is one of the producer's. */
  function AnswerTo<T>(r: Ring<T>, op: Op<T>): seq<bool>
    requires WellFormed(r)
  {
    match op
    case AddOp(elem, now) => [Add(r, elem, now).1]
    case Miss => [false]
    case GetOp => []
  }

  /** The answers the producer gets in a run of the ring. */
  function Answers<T>(r: Ring<T>, ops: seq<Op<T>>): seq<bool>
    requires WellFormed(r)
  {
    if ops == [] then []
    else Answers(r, ops[..|ops| - 1]) + AnswerTo(Run(r, ops[..|ops| - 1]), ops[|ops| - 1])
  }

  lemma TruesAppend(s: seq<bool>, t: seq<bool>)
    requires |t| <= 1
    ensures Trues(s + t) == Trues(s) + (if t == [true] then 1 else 0)
  {
    if t == [] {
      assert s + t == s;
    } else {
      assert (s + t)[..|s|] == s;
    }
  }

  lemma {:induction false} AnswersAreAdds<T>(r: Ring<T>, ops: seq<Op<T>>)
    requires WellFormed(r)
    ensures Trues(Answers(r, ops)) == TrueAdds(r, ops)
  {
    if ops == [] {
    } else {
      var init, op := ops[..|ops| - 1], ops[|ops| - 1];
      AnswersAreAdds(r, init);
      var answer := AnswerTo(Run(r, init), op);
      TruesAppend(Answers(r, init), answer);
      assert answer == [true] <==> op.AddOp? && Add(Run(r, init), op.elem, op.now).1;
    }
  }

  lemma {:induction false} TruesOfPrefix(s: seq<bool>, k: nat)
    requires k <= |s|
    ensures Trues(s[..k]) <= Trues(s)
  {
    if k == |s| {
      assert s[..k] == s;
    } else {
      TruesOfPrefix(s[..|s| - 1], k);
      assert s[..|s| - 1][..k] == s[..k];
    }
  }

  /** No prefix of the answers holds more true ones than the workers have taken elements. */
  lemma AnswersNeverOutrunWorkers<T>(placeholders: seq<T>, t0: int, ops: seq<Op<T>>, used: nat)
    requires placeholders != []
    requires used <= |Answers(Created(placeholders, t0), ops)|
    ensures var r := Created(placeholders, t0);
      Trues(Answers(r, ops)[..used]) <= TrueGets(r, ops)
  {
    var r := Created(placeholders, t0);
    LedgerFromCreated(placeholders, t0, ops);
    AnswersAreAdds(r, ops);
    TruesOfPrefix(Answers(r, ops), used);
  }

  /**
   * The capture loop on the answers of a new ring: at every moment of every run of the ring the
   * loop, which has completed n - 1 iterations, has not outrun the workers; and while it waits
   * for another answer it is at most the ring's size behind them.
   */
  method LoopNeverOutrunsWorkers<T>(count: nat, placeholders: seq<T>, t0: int, ops: seq<Op<T>>, signals: nat -> bool)
      returns (i: nat, n: nat, ended: bool)
    requires placeholders != []
    ensures var r := Created(placeholders, t0);
      && n >= 1 && n - 1 <= TrueGets(r, ops)
      && (!ended ==> TrueGets(r, ops) <= n - 1 + |placeholders|)
    ensures count > 0 ==> i == n - 1 <= count + 1
    ensures ended ==> (count > 0 && n - 1 == count + 1) || signals(n - 1)
  {
    var used;
    var answers := Answers(Created(placeholders, t0), ops);
    i, n, used, ended := CaptureLoop(count, answers, signals);
    AnswersNeverOutrunWorkers(placeholders, t0, ops, used);
    AnswersAreAdds(Created(placeholders, t0), ops);
    LedgerFromCreated(placeholders, t0, ops);
    assert answers[..|answers|] == answers;
  }
}
