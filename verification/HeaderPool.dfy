// Where the video port's buffer headers are: in the pool's queue, at the camera port, or in
// the hands of the running callback. Each queue operation is one step, so the callback may
// run between the sends with which a capture starts. Sends to an enabled port succeed.

module HeaderPool {

  datatype Phase =
    | Outside
    | Entered(header: nat)   // the callback has been given a header
    | Released               // it has put the header back into the pool's queue

  datatype Start =
    | NotStarting
    | Sending(left: nat)     // startCapture's loop has so many turns left

  datatype State = State(pool: seq<nat>, port: seq<nat>, phase: Phase, start: Start, enabled: bool, capturing: bool)

  datatype Action =
    | Begin               // startCapture reads the length of the pool's queue
    | Send                // and sends one header of the queue
    | Finish              // until its turns are used up
    | Enter(index: nat)   // the camera hands one of the port's headers to the callback
    | Release             // the callback releases it into the pool's queue
    | Resend              // the callback, if the port is enabled, sends the queue's first header
    | Disable             // the port is disabled; its headers come back through the callback

  function Initial(pool: seq<nat>): State {
    State(pool, [], Outside, NotStarting, true, false)
  }

  predicate Enabled(s: State, a: Action) {
    match a
    case Begin => s.enabled && s.start.NotStarting?
    case Send => s.enabled && s.start.Sending? && s.start.left > 0
    case Finish => s.start == Sending(0)
    case Enter(i) => s.phase.Outside? && i < |s.port|
    case Release => s.phase.Entered?
    case Resend => s.phase.Released?
    case Disable => true
  }

  /** The first header of the pool's queue goes to the port, if there is one. */
  function SendFirst(s: State): State {
    if s.pool == [] then s else s.(port := s.port + [s.pool[0]], pool := s.pool[1..])
  }

  function Next(s: State, a: Action): State
    requires Enabled(s, a)
  {
    match a
    case Begin => s.(start := Sending(|s.pool|))
    case Send => SendFirst(s).(start := Sending(s.start.left - 1))
    case Finish => s.(start := NotStarting, capturing := true)
    case Enter(i) => s.(phase := Entered(s.port[i]), port := s.port[..i] + s.port[i + 1..])
    case Release => s.(pool := s.pool + [s.phase.header], phase := Released)
    case Resend => (if s.enabled then SendFirst(s) else s).(phase := Outside)
    case Disable => s.(enabled := false)
  }

  ghost predicate Reaches(s: State, actions: seq<Action>, t: State)
    decreases |actions|
  {
    if actions == [] then s == t
    else Enabled(s, actions[0]) && Reaches(Next(s, actions[0]), actions[1..], t)
  }

  function InCallback(p: Phase): seq<nat> {
    if p.Entered? then [p.header] else []
  }

  function Places(s: State): multiset<nat> {
    multiset(s.pool) + multiset(s.port) + multiset(InCallback(s.phase))
  }

  /**
   * From the start of a capture on, while the port is enabled, the pool's queue holds at most
   * the headers still to be sent and one that the callback has just released.
   */
  predicate AtThePort(s: State) {
    s.enabled && (s.capturing || s.start.Sending?) ==>
      |s.pool| <= (if s.start.Sending? then s.start.left else 0) + (if s.phase.Released? then 1 else 0)
  }

  lemma SendFirstConserves(s: State)
    ensures Places(SendFirst(s)) == Places(s)
  {
    if s.pool != [] {
      assert s.pool == [s.pool[0]] + s.pool[1..];
    }
  }

  lemma EnterConserves(s: State, i: nat)
    requires Enabled(s, Enter(i))
    ensures Places(Next(s, Enter(i))) == Places(s)
  {
    TakeOut(s.port, i);
  }

  lemma TakeOut(q: seq<nat>, i: nat)
    requires i < |q|
    ensures multiset(q) == multiset(q[..i] + q[i + 1..]) + multiset{q[i]}
  {
    assert q == q[..i] + ([q[i]] + q[i + 1..]);
  }

  lemma StepConserves(s: State, a: Action)
    requires Enabled(s, a)
    ensures Places(Next(s, a)) == Places(s)
  {
    match a
    case Send => SendFirstConserves(s);
    case Enter(i) => EnterConserves(s, i);
    case Resend => SendFirstConserves(s);
    case _ =>
  }

  lemma StepKeepsAtThePort(s: State, a: Action)
    requires Enabled(s, a) && AtThePort(s)
    ensures AtThePort(Next(s, a))
  {
  }

  /**
   * Over every run each header of the pool is in exactly one place, and between callbacks of
   * a capturing, enabled port all of them are at the port.
   */
  lemma {:induction false} HeadersConserved(s: State, actions: seq<Action>, t: State)
    requires AtThePort(s) && Reaches(s, actions, t)
    ensures Places(t) == Places(s)
    ensures t.enabled && t.capturing && t.start.NotStarting? && t.phase.Outside? ==>
      t.pool == [] && multiset(t.port) == Places(s)
    decreases |actions|
  {
    if actions == [] {
    } else {
      StepConserves(s, actions[0]);
      StepKeepsAtThePort(s, actions[0]);
      HeadersConserved(Next(s, actions[0]), actions[1..], t);
    }
  }

  /** Each header is in one place, and the camera and the callback can always go on with it. */
  lemma EachInOnePlace(pool: seq<nat>, actions: seq<Action>, t: State, h: nat)
    requires Reaches(Initial(pool), actions, t) && multiset(pool)[h] == 1
    ensures multiset(t.pool)[h] + multiset(t.port)[h] + multiset(InCallback(t.phase))[h] == 1
    ensures match t.phase
      case Outside => forall i :: 0 <= i < |t.port| ==> Enabled(t, Enter(i))
      case Entered(_) => Enabled(t, Release)
      case Released => Enabled(t, Resend)
    ensures t.enabled ==>
      match t.start
      case NotStarting => Enabled(t, Begin)
      case Sending(left) => Enabled(t, if left > 0 then Send else Finish)
  {
    HeadersConserved(Initial(pool), actions, t);
    assert Places(Initial(pool)) == multiset(pool);
    assert Places(t)[h] == 1;
  }

  /** After the port is disabled, a header once in the pool's queue stays there. */
  lemma {:induction false} DisabledPortKeepsPool(s: State, actions: seq<Action>, t: State)
    requires !s.enabled && Reaches(s, actions, t)
    ensures !t.enabled && s.pool <= t.pool
    decreases |actions|
  {
    if actions == [] {
    } else {
      DisabledPortKeepsPool(Next(s, actions[0]), actions[1..], t);
    }
  }

  // ------------------------------------------------------------------------------------
  // Starting a capture when no callback interferes

  function Sends(n: nat): seq<Action> {
    if n == 0 then [Finish] else [Send] + Sends(n - 1)
  }

  lemma {:induction false} SendsMoveAll(s: State)
    requires s.enabled && s.start == Sending(|s.pool|)
    ensures var t := s.(port := s.port + s.pool, pool := [], start := NotStarting, capturing := true);
      Reaches(s, Sends(|s.pool|), t)
    decreases |s.pool|
  {
    if s.pool == [] {
      assert s.port + [] == s.port;
      assert Reaches(Next(s, Finish), [], Next(s, Finish));
    } else {
      var t := Next(s, Send);
      SendsMoveAll(t);
      assert s.port + s.pool == t.port + t.pool;
    }
  }
}
