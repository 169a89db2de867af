// Calls of the audio renderer made one after the other are runs of the concurrent machine, in
// which nothing comes between the steps of a call.

module AudioCalls {
  import opened Common
  import opened AudioStream
  import opened AudioInterleaving

  lemma {:induction false} ReachesAppend(s: State, a: seq<Action>, m: State, b: seq<Action>, t: State)
    requires Reaches(s, a, m) && Reaches(m, b, t)
    ensures Reaches(s, a + b, t)
    decreases |a|
  {
    if a == [] {
      assert a + b == b;
    } else {
      ReachesAppend(Next(s, a[0]), a[1..], m, b, t);
      assert (a + b)[1..] == a[1..] + b;
    }
  }

  lemma ReachesOne(s: State, a: Action)
    requires Enabled(s, a)
    ensures Reaches(s, [a], Next(s, a))
  {
  }

  lemma ReachesTwo(s: State, a: Action, b: Action)
    requires Enabled(s, a) && Enabled(Next(s, a), b)
    ensures Reaches(s, [a, b], Next(Next(s, a), b))
  {
  }

  // ------------------------------------------------------------------------------------
  // One call

  /** The steps of one turn of the callback's loop that finds header b. */
  function TurnActions(b: Buffer, space: nat): seq<Action> {
    [Get, Copy] + SettleActions(|b.payload| <= space && b.eos)
  }

  function SettleActions(announce: bool): seq<Action> {
    if announce then [Settle, HandBack] else [Settle]
  }

  /** The steps of the callback's loop when nothing else runs. */
  function LoopActions(q: seq<Buffer>, space: nat): seq<Action>
    decreases |q|
  {
    if space == 0 then [Full, Subtract]
    else if q == [] then [Get, Subtract]
    else if |q[0].payload| > space then TurnActions(q[0], space) + [Full, Subtract]
    else TurnActions(q[0], space) + LoopActions(q[1..], space - |q[0].payload|)
  }

  /** The state after a header has been taken and copied from. */
  function AfterCopy(s: State): State
    requires s.phase.Fetching? && s.queue != []
  {
    var b := s.queue[0];
    var n := Min(|b.payload|, s.phase.space);
    s.(queue := s.queue[1..],
       phase := Copied(s.phase.space - n, s.phase.size + n, b.(payload := b.payload[n..])),
       log := s.log + [Deliver(b.payload[..n])])
  }

  /** The state after it has been put back or handed back. */
  function AfterSettle(s: State): State
    requires s.phase.Copied?
  {
    var b := s.phase.buffer;
    var p := Fetching(s.phase.space, s.phase.size);
    if b.payload != [] then s.(phase := p, queue := [b] + s.queue)
    else s.(phase := p, log := s.log + Retire(b))
  }

  lemma Settles(s: State)
    requires s.phase.Copied?
    ensures Reaches(s, SettleActions(s.phase.buffer.payload == [] && s.phase.buffer.eos), AfterSettle(s))
  {
    var b := s.phase.buffer;
    if b.payload == [] && b.eos {
      ReachesTwo(s, Settle, HandBack);
      Assoc(s.log, [EndOfStream], [Return(b.id)]);
    } else {
      ReachesOne(s, Settle);
    }
  }

  function AfterTurn(s: State): State
    requires s.phase.Fetching? && s.queue != []
  {
    AfterSettle(AfterCopy(s))
  }

  lemma Copies(s: State)
    requires s.phase.Fetching? && s.phase.space > 0 && s.queue != []
    ensures Reaches(s, [Get, Copy], AfterCopy(s))
    ensures AfterCopy(s).phase.buffer.payload == [] <==> |s.queue[0].payload| <= s.phase.space
  {
    ReachesTwo(s, Get, Copy);
  }

  lemma Turn(s: State)
    requires s.phase.Fetching? && s.phase.space > 0 && s.queue != []
    ensures Reaches(s, TurnActions(s.queue[0], s.phase.space), AfterTurn(s))
  {
    Copies(s);
    Settles(AfterCopy(s));
    ReachesAppend(s, [Get, Copy], AfterCopy(s),
                  SettleActions(|s.queue[0].payload| <= s.phase.space && s.queue[0].eos), AfterTurn(s));
  }

  /** The state after a whole call of the callback. */
  function AfterPull(s: State): State
    requires s.phase.Fetching?
  {
    var p := Drain(s.queue, s.phase.space);
    s.(queue := p.rest, log := s.log + p.events, phase := Idle,
       counter := Wrap32(s.counter - (s.phase.size + |Delivered(p.events)|)))
  }

  lemma PartTurn(s: State)
    requires s.phase.Fetching? && s.queue != [] && 0 < s.phase.space < |s.queue[0].payload|
    ensures AfterTurn(s).phase == Fetching(0, s.phase.size + s.phase.space)
    ensures AfterPull(AfterTurn(s)) == AfterPull(s)
  {
  }

  lemma LoopEndsInPart(s: State)
    requires s.phase.Fetching? && s.queue != [] && 0 < s.phase.space < |s.queue[0].payload|
    ensures Reaches(s, LoopActions(s.queue, s.phase.space), AfterPull(s))
  {
    var t := AfterTurn(s);
    Turn(s);
    PartTurn(s);
    LoopEnds(t);
    ReachesAppend(s, TurnActions(s.queue[0], s.phase.space), t, [Full, Subtract], AfterPull(s));
  }

  lemma WholeTurn(s: State)
    requires s.phase.Fetching? && s.queue != [] && |s.queue[0].payload| <= s.phase.space
    ensures var b := s.queue[0];
      AfterTurn(s) == s.(phase := Fetching(s.phase.space - |b.payload|, s.phase.size + |b.payload|),
                         queue := s.queue[1..], log := s.log + Played(b))
  {
    var b := s.queue[0];
    assert b.payload[..|b.payload|] == b.payload;
    assert Retire(b.(payload := [])) == Retire(b);
    Assoc(s.log, [Deliver(b.payload)], Retire(b));
  }

  lemma WholePull(s: State, t: State)
    requires s.phase.Fetching? && s.queue != [] && |s.queue[0].payload| <= s.phase.space && 0 < s.phase.space
    requires var b := s.queue[0];
      t == s.(phase := Fetching(s.phase.space - |b.payload|, s.phase.size + |b.payload|),
              queue := s.queue[1..], log := s.log + Played(b))
    ensures AfterPull(t) == AfterPull(s)
  {
    WholeDrain(s.log, s.queue, s.phase.space);
  }

  lemma WholeDrain(log: seq<Event>, q: seq<Buffer>, space: nat)
    requires q != [] && |q[0].payload| <= space && 0 < space
    ensures var d, p := Drain(q, space), Drain(q[1..], space - |q[0].payload|);
      && d.rest == p.rest && log + d.events == log + Played(q[0]) + p.events
      && |Delivered(d.events)| == |q[0].payload| + |Delivered(p.events)|
  {
    DrainWhole(q, space);
    Assoc(log, Played(q[0]), Drain(q[1..], space - |q[0].payload|).events);
  }

  /** The loop that takes a header out and may put it back computes Drain. */
  lemma {:induction false} LoopIsDrain(s: State)
    requires s.phase.Fetching?
    ensures Reaches(s, LoopActions(s.queue, s.phase.space), AfterPull(s))
    decreases |s.queue|
  {
    var q, space := s.queue, s.phase.space;
    if space == 0 || q == [] {
      LoopEnds(s);
    } else if |q[0].payload| > space {
      LoopEndsInPart(s);
    } else {
      var t := AfterTurn(s);
      Turn(s);
      WholeTurn(s);
      WholePull(s, t);
      LoopIsDrain(t);
      ReachesAppend(s, TurnActions(q[0], space), t, LoopActions(t.queue, t.phase.space), AfterPull(s));
    }
  }

  lemma LoopEnds(s: State)
    requires s.phase.Fetching? && (s.phase.space == 0 || s.queue == [])
    ensures Reaches(s, LoopActions(s.queue, s.phase.space), AfterPull(s))
    ensures s.phase.space == 0 ==> Reaches(s, [Full, Subtract], AfterPull(s))
  {
  }

  /** The steps of one whole call. */
  function CallActions(s: State, op: Op): seq<Action>
    requires op != Flush
  {
    match op
    case Send(b) => [Count(b), Put(|s.counted|)]
    case SendEvent(id) => [Reject(id)]
    case MoreData(space) =>
      if s.queue == [] then [Begin(space)] else [Begin(space)] + LoopActions(s.queue, space)
  }

  /** The machine's state between calls that do not overlap. */
  function AtRest(s: Stream, sent: seq<Buffer>): State {
    State(s.queue, [], Idle, s.counter, s.log, sent)
  }

  lemma CallIsRun(s: Stream, sent: seq<Buffer>, op: Op)
    requires op != Flush && 0 <= s.counter < UINT32_RANGE
    ensures Reaches(AtRest(s, sent), CallActions(AtRest(s, sent), op),
                    AtRest(Step(s, op), if op.Send? then sent + [op.buffer] else sent))
  {
    var m := AtRest(s, sent);
    match op
    case Send(b) =>
      ReachesTwo(m, Count(b), Put(0));
      assert [b][..0] + [b][1..] == [];
    case SendEvent(id) =>
      ReachesOne(m, Reject(id));
    case MoreData(space) =>
      ReachesOne(m, Begin(space));
      if s.queue == [] {
        assert s.log + [] == s.log;
      } else {
        var f := Next(m, Begin(space));
        LoopIsDrain(f);
        ReachesAppend(m, [Begin(space)], f, LoopActions(s.queue, space), AfterPull(f));
      }
  }

  /** Every run of whole calls without a flush is a run of the machine. */
  lemma {:induction false} FlushlessCallsAreRuns(ops: seq<Op>) returns (actions: seq<Action>)
    requires Flush !in ops
    ensures Reaches(START, actions, AtRest(Run(EMPTY, ops), Sent(ops)))
  {
    if ops == [] {
      actions := [];
    } else {
      var init, last := ops[..|ops| - 1], ops[|ops| - 1];
      var a := FlushlessCallsAreRuns(init);
      var s := Run(EMPTY, init);
      CounterIsPending(init);
      CallIsRun(s, Sent(init), last);
      actions := a + CallActions(AtRest(s, Sent(init)), last);
      assert Sent(ops) == if last.Send? then Sent(init) + [last.buffer] else Sent(init);
      ReachesAppend(START, a, AtRest(s, Sent(init)), CallActions(AtRest(s, Sent(init)), last),
                    AtRest(Run(EMPTY, ops), Sent(ops)));
    }
  }

  /** The stream after the calls, with only the events since the last flush in its log. */
  function Recent(ops: seq<Op>): Stream {
    Run(EMPTY, SinceFlush(ops))
  }

  /** Every run of whole calls is, from its last flush on, a run of the machine. */
  lemma CallsAreRuns(ops: seq<Op>) returns (actions: seq<Action>)
    ensures Run(EMPTY, ops) == After(FlushLog(ops), Recent(ops))
    ensures Reaches(START, actions, AtRest(Recent(ops), Sent(SinceFlush(ops))))
  {
    RunSinceFlush(ops);
    actions := FlushlessCallsAreRuns(SinceFlush(ops));
  }

  /** Hence whole calls, too, emit end-of-stream events in their place, from the last flush on. */
  lemma CallsKeepEosInOrder(ops: seq<Op>)
    ensures Run(EMPTY, ops).log == FlushLog(ops) + Recent(ops).log
    ensures EosInOrder(Recent(ops).log, Sent(SinceFlush(ops)))
  {
    var actions := CallsAreRuns(ops);
    EveryInterleaving(actions, AtRest(Recent(ops), Sent(SinceFlush(ops))));
  }

  // ------------------------------------------------------------------------------------
  // A call that does come between

  /**
   * An end of stream and its header need not be neighbours in the log: a send may hand back an
   * event header in between.
   */
  lemma DiscardMayComeBetween() returns (actions: seq<Action>, t: State)
    ensures Reaches(START, actions, t) && t.log == [Deliver([]), EndOfStream, Discard(9), Return(0)]
  {
    var b := Buffer(0, [], true);
    var s := AtRest(Step(EMPTY, Send(b)), [b]);
    actions := CallActions(START, Send(b));
    CallIsRun(EMPTY, [], Send(b));
    TwoMore(actions, s, Begin(5), Get);
    actions, s := actions + [Begin(5), Get], Next(Next(s, Begin(5)), Get);
    TwoMore(actions, s, Copy, Settle);
    assert b.payload[..0] == [] && b.(payload := b.payload[0..]) == b;
    assert Next(Next(s, Copy), Settle).log == [Deliver([]), EndOfStream];
    actions, s := actions + [Copy, Settle], Next(Next(s, Copy), Settle);
    TwoMore(actions, s, Reject(9), HandBack);
    actions, t := actions + [Reject(9), HandBack], Next(Next(s, Reject(9)), HandBack);
  }

  lemma TwoMore(actions: seq<Action>, s: State, a: Action, b: Action)
    requires Reaches(START, actions, s) && Enabled(s, a) && Enabled(Next(s, a), b)
    ensures Reaches(START, actions + [a, b], Next(Next(s, a), b))
  {
    ReachesTwo(s, a, b);
    ReachesAppend(START, actions, s, [a, b], Next(Next(s, a), b));
  }
}
