// The hand-over of frames from the driver's callback to any number of grabbing clients. The
// mutex makes each of these one step: a client's entry into waitForFrame up to the point
// where it blocks, the whole callback, and a woken client's test of `ready`. Clients may
// also wake for no reason.

module FrameGrab {

  datatype Frame<T> = Frame(data: seq<T>, at: nat)   // `at` is the time of the callback

  datatype Client =
    | Idle                 // not in grab()
    | Asleep(since: nat)   // blocked on the condition variable; `since` is the time of entry
    | Awake(since: nat)    // woken, about to take the mutex and test `ready`

  /** A completed grab: when it was asked for and what the buffer held when it returned. */
  datatype Grab<T> = Grab(client: nat, since: nat, frame: Frame<T>)

  datatype State<T> = State(
    clients: seq<Client>,
    wantToGrab: bool,
    ready: bool,
    buffer: Frame<T>,
    time: nat,
    requested: bool,          // history: some client has entered waitForFrame
    grabs: seq<Grab<T>>)      // history: the grabs completed, in order

  datatype Action<T> =
    | Request(client: nat)
    | Callback(data: seq<T>)
    | Spurious(client: nat)
    | Test(client: nat)

  function Initial<T>(n: nat): State<T> {
    State(seq(n, i => Idle), false, false, Frame([], 0), 1, false, [])
  }

  predicate Enabled<T>(s: State<T>, a: Action<T>) {
    match a
    case Request(c) => c < |s.clients| && s.clients[c].Idle?
    case Callback(_) => true
    case Spurious(c) => c < |s.clients| && s.clients[c].Asleep?
    case Test(c) => c < |s.clients| && s.clients[c].Awake?
  }

  function Wake(c: Client): Client {
    if c.Asleep? then Awake(c.since) else c
  }

  function NotifyAll(clients: seq<Client>): (r: seq<Client>)
    ensures |r| == |clients|
    ensures forall i :: 0 <= i < |r| ==> r[i] == Wake(clients[i])
  {
    seq(|clients|, i requires 0 <= i < |clients| => Wake(clients[i]))
  }

  function Next<T>(s: State<T>, a: Action<T>): State<T>
    requires Enabled(s, a)
  {
    var t := s.(time := s.time + 1);
    match a
    case Request(c) =>
      t.(clients := s.clients[c := Asleep(s.time)], wantToGrab := true, ready := false, requested := true)
    case Callback(data) =>
      if s.wantToGrab && data != [] then
        t.(buffer := Frame(data, s.time), wantToGrab := false, ready := true, clients := NotifyAll(s.clients))
      else t
    case Spurious(c) =>
      t.(clients := s.clients[c := Wake(s.clients[c])])
    case Test(c) =>
      if s.ready then
        t.(clients := s.clients[c := Idle], grabs := s.grabs + [Grab(c, s.clients[c].since, s.buffer)])
      else t.(clients := s.clients[c := Asleep(s.clients[c].since)])
  }

  ghost predicate Reaches<T(!new)>(s: State<T>, actions: seq<Action<T>>, t: State<T>)
    decreases |actions|
  {
    if actions == [] then s == t
    else Enabled(s, actions[0]) && Reaches(Next(s, actions[0]), actions[1..], t)
  }

  // ------------------------------------------------------------------------------------

  predicate Good<T>(g: Grab<T>) {
    g.frame.data != [] && g.since < g.frame.at
  }

  ghost predicate Inv<T(!new)>(s: State<T>) {
    && (s.requested ==> s.wantToGrab != s.ready)
    && (!s.requested ==> !s.wantToGrab && !s.ready && forall c :: 0 <= c < |s.clients| ==> s.clients[c].Idle?)
    && (forall c :: 0 <= c < |s.clients| && s.clients[c].Asleep? ==> !s.ready)
    && (s.ready ==> s.buffer.data != [])
    && s.buffer.at < s.time
    && (forall c :: 0 <= c < |s.clients| && !s.clients[c].Idle? ==>
          s.clients[c].since < s.time && (s.ready ==> s.clients[c].since < s.buffer.at))
    && (forall k :: 0 <= k < |s.grabs| ==> Good(s.grabs[k]))
  }

  lemma StepKeepsInv<T(!new)>(s: State<T>, a: Action<T>)
    requires Inv(s) && Enabled(s, a)
    ensures Inv(Next(s, a))
  {
  }

  lemma {:induction false} RunKeepsInv<T(!new)>(s: State<T>, actions: seq<Action<T>>, t: State<T>)
    requires Inv(s) && Reaches(s, actions, t)
    ensures Inv(t)
    decreases |actions|
  {
    if actions == [] {
    } else {
      StepKeepsInv(s, actions[0]);
      RunKeepsInv(Next(s, actions[0]), actions[1..], t);
    }
  }

  lemma {:induction false} ClientsStay<T(!new)>(s: State<T>, actions: seq<Action<T>>, t: State<T>)
    requires Reaches(s, actions, t)
    ensures |t.clients| == |s.clients|
    decreases |actions|
  {
    if actions == [] {
    } else {
      ClientsStay(Next(s, actions[0]), actions[1..], t);
    }
  }

  /**
   * For any number of clients and any interleaving: after the first request exactly one of
   * wantToGrab and ready is true; every grab that returned saw a non-empty frame captured
   * after it was asked for; no client sleeps while a frame is ready; and every client outside
   * grab() may enter it, every sleeping one wake and every woken one test.
   */
  lemma EveryRun<T(!new)>(n: nat, actions: seq<Action<T>>, t: State<T>)
    requires Reaches(Initial(n), actions, t)
    ensures t.requested ==> (t.wantToGrab <==> !t.ready)
    ensures forall k :: 0 <= k < |t.grabs| ==> Good(t.grabs[k])
    ensures forall c :: 0 <= c < |t.clients| && t.clients[c].Asleep? ==> t.wantToGrab && !t.ready
    ensures |t.clients| == n && forall c :: 0 <= c < n ==>
      Enabled(t, if t.clients[c].Idle? then Request(c) else if t.clients[c].Asleep? then Spurious(c) else Test(c))
    ensures forall data :: Enabled(t, Callback(data))
  {
    ClientsStay(Initial(n), actions, t);
    RunKeepsInv(Initial(n), actions, t);
  }

  /**
   * In every reachable state with a client waiting, the next callback with a non-empty frame
   * leaves every waiting client awake and a frame ready that is fresh for all of them.
   */
  lemma NextFrameWakesAll<T(!new)>(n: nat, actions: seq<Action<T>>, t: State<T>, data: seq<T>, c: nat)
    requires Reaches(Initial(n), actions, t) && data != []
    requires c < |t.clients| && !t.clients[c].Idle?
    ensures var u := Next(t, Callback(data));
      && u.ready && u.clients[c] == Awake(t.clients[c].since)
      && u.buffer == (if t.wantToGrab then Frame(data, t.time) else t.buffer)
      && Good(Grab(c, t.clients[c].since, u.buffer))
  {
    RunKeepsInv(Initial(n), actions, t);
    StepKeepsInv(t, Callback(data));
  }

  // ------------------------------------------------------------------------------------
  // Between being woken and testing

  /** A woken client stays awake, but its frame is ready no longer once some client asks again. */
  lemma {:induction false} WokenRun<T(!new)>(s: State<T>, actions: seq<Action<T>>, t: State<T>, c: nat)
    requires Inv(s) && s.ready && Reaches(s, actions, t)
    requires c < |s.clients| && s.clients[c].Awake? && Test(c) !in actions
    ensures |t.clients| == |s.clients| && t.clients[c] == s.clients[c]
    ensures t.ready && t.buffer == s.buffer <==> forall a :: a in actions ==> !a.Request?
    decreases |actions|
  {
    if actions == [] {
    } else {
      var m := Next(s, actions[0]);
      StepKeepsInv(s, actions[0]);
      assert actions == [actions[0]] + actions[1..];
      if actions[0].Request? {
        OvertakenRun(m, actions[1..], t, c, s.buffer);
      } else {
        WokenRun(m, actions[1..], t, c);
      }
    }
  }

  lemma {:induction false} OvertakenRun<T(!new)>(s: State<T>, actions: seq<Action<T>>, t: State<T>, c: nat,
                                                  earlier: Frame<T>)
    requires Inv(s) && Reaches(s, actions, t)
    requires earlier.at < s.time && (s.ready ==> earlier.at < s.buffer.at)
    requires c < |s.clients| && s.clients[c].Awake? && Test(c) !in actions
    ensures |t.clients| == |s.clients| && t.clients[c] == s.clients[c]
    ensures t.ready ==> earlier.at < t.buffer.at
    decreases |actions|
  {
    if actions == [] {
    } else {
      StepKeepsInv(s, actions[0]);
      assert actions == [actions[0]] + actions[1..];
      OvertakenRun(Next(s, actions[0]), actions[1..], t, c, earlier);
    }
  }

  /**
   * A client woken for a frame in any reachable state returns that frame at its next test
   * exactly if no client has asked again before. Otherwise it returns a later frame, if there
   * is one by then, or sleeps again as if it had not been woken.
   */
  lemma WakeupKeptIff<T(!new)>(n: nat, before: seq<Action<T>>, s: State<T>, actions: seq<Action<T>>, t: State<T>,
                               c: nat)
    requires Reaches(Initial(n), before, s) && s.ready && Reaches(s, actions, t)
    requires c < |s.clients| && s.clients[c].Awake? && Test(c) !in actions
    ensures Enabled(t, Test(c))
    ensures var v, since := Next(t, Test(c)), s.clients[c].since;
      && (v.grabs == t.grabs + [Grab(c, since, s.buffer)] <==> forall a :: a in actions ==> !a.Request?)
      && (if t.ready then v.grabs == t.grabs + [Grab(c, since, t.buffer)] && s.buffer.at <= t.buffer.at
          else v.grabs == t.grabs && v.clients[c] == Asleep(since))
  {
    RunKeepsInv(Initial(n), before, s);
    RunKeepsInv(s, actions, t);
    WokenRun(s, actions, t, c);
    FramesAge(s, actions, t);
    var v, g := Next(t, Test(c)), Grab(c, s.clients[c].since, s.buffer);
    assert v.grabs == t.grabs + [g] ==> v.grabs[|t.grabs|] == g;
  }

  lemma {:induction false} FramesAge<T(!new)>(s: State<T>, actions: seq<Action<T>>, t: State<T>)
    requires Inv(s) && Reaches(s, actions, t)
    ensures s.buffer.at <= t.buffer.at
    decreases |actions|
  {
    if actions == [] {
    } else {
      StepKeepsInv(s, actions[0]);
      FramesAge(Next(s, actions[0]), actions[1..], t);
    }
  }

  lemma {:induction false} ReachesAppend<T(!new)>(s: State<T>, a: seq<Action<T>>, m: State<T>, b: seq<Action<T>>,
                                                  t: State<T>)
    requires Reaches(s, a, m) && Reaches(m, b, t)
    ensures Reaches(s, a + b, t)
    decreases |a|
  {
    if a == [] {
      assert a + b == b;
    } else {
      ReachesAppend(Next(s, a[0]), a[1..], m, b, t);
      assert (a + b)[1..] == a[1..] + b;
    }
  }

  /** Both clients sleep, the second one since its first request. */
  predicate BothAsleep(t: State<int>) {
    |t.clients| == 2 && t.clients[0].Asleep? && t.clients[1] == Asleep(2) && t.wantToGrab && !t.ready
  }

  /** After the first step of a round both clients are awake, and after its last both asleep. */
  lemma Overtaken(s: State<int>) returns (t: State<int>)
    requires BothAsleep(s)
    ensures Next(s, Round()[0]).clients == [Awake(s.clients[0].since), Awake(2)]
    ensures Reaches(s, Round(), t)
    ensures BothAsleep(t) && t.grabs == s.grabs + [Grab(0, s.clients[0].since, Frame([7], s.time))]
  {
    var a := Round();
    var s1 := Next(s, a[0]);
    var s2 := Next(s1, a[1]);
    var s3 := Next(s2, a[2]);
    t := Next(s3, a[3]);
    assert Reaches(t, a[4..], t);
    assert Reaches(s3, a[3..], t) by { assert a[3..][1..] == a[4..]; }
    assert Reaches(s2, a[2..], t) by { assert a[2..][1..] == a[3..]; }
    assert Reaches(s1, a[1..], t) by { assert a[1..][1..] == a[2..]; }
  }

  /** One round: both are woken, the first client grabs and asks again, the second tests too late. */
  function Round(): seq<Action<int>> {
    [Callback([7]), Test(0), Request(0), Test(1)]
  }

  function Rounds(k: nat): seq<Action<int>> {
    if k == 0 then [] else Rounds(k - 1) + Round()
  }

  /**
   * So a wakeup can be lost, any number of times over: in the run that makes both requests and
   * then k rounds, the first client gets k frames and the second, woken k times, gets none.
   */
  lemma {:induction false} ClientCanStarve(k: nat) returns (t: State<int>)
    ensures Reaches(Initial(2), [Request(0), Request(1)] + Rounds(k), t) && BothAsleep(t)
    ensures |t.grabs| == k && forall i :: 0 <= i < k ==> t.grabs[i].client == 0
  {
    var a: seq<Action<int>> := [Request(0), Request(1)];
    if k == 0 {
      var s := Next(Initial<int>(2), a[0]);
      t := Next(s, a[1]);
      assert a + Rounds(0) == a;
      assert Reaches(t, a[2..], t);
      assert Reaches(s, a[1..], t) by { assert a[1..][1..] == a[2..]; }
    } else {
      var s := ClientCanStarve(k - 1);
      t := Overtaken(s);
      ReachesAppend(Initial(2), a + Rounds(k - 1), s, Round(), t);
      assert a + Rounds(k - 1) + Round() == a + Rounds(k);
    }
  }

  /** Once a grab could return, the buffer does not change until some client asks again. */
  lemma {:induction false} BufferStaysUntilRequest<T(!new)>(s: State<T>, actions: seq<Action<T>>, t: State<T>)
    requires !s.wantToGrab && Reaches(s, actions, t)
    requires forall a :: a in actions ==> !a.Request?
    ensures t.buffer == s.buffer && !t.wantToGrab
    decreases |actions|
  {
    if actions == [] {
    } else {
      BufferStaysUntilRequest(Next(s, actions[0]), actions[1..], t);
    }
  }

  ghost predicate OwnFrame<T(!new)>(s: State<T>) {
    && |s.clients| == 1
    && (s.clients[0].Idle? ==> !s.wantToGrab && (s.grabs != [] ==> s.buffer == s.grabs[|s.grabs| - 1].frame))
  }

  lemma {:induction false} OneClientKeeps<T(!new)>(s: State<T>, actions: seq<Action<T>>, t: State<T>)
    requires Inv(s) && OwnFrame(s) && Reaches(s, actions, t)
    ensures OwnFrame(t)
    decreases |actions|
  {
    if actions == [] {
    } else {
      StepKeepsInv(s, actions[0]);
      OneClientKeeps(Next(s, actions[0]), actions[1..], t);
    }
  }

  /** With a single client, whenever it is outside grab() the buffer is the frame it grabbed last. */
  lemma OneClientOwnsBuffer<T(!new)>(actions: seq<Action<T>>, t: State<T>)
    requires Reaches(Initial(1), actions, t) && t.clients != [] && t.clients[0].Idle? && t.grabs != []
    ensures t.buffer == t.grabs[|t.grabs| - 1].frame
  {
    OneClientKeeps(Initial(1), actions, t);
  }

  /** Some callback brings a frame while a request is outstanding. */
  predicate Replaces<T>(wanted: bool, actions: seq<Action<T>>)
    decreases |actions|
  {
    actions != [] &&
    (match actions[0]
     case Request(_) => Replaces(true, actions[1..])
     case Callback(data) => (wanted && data != []) || Replaces(wanted, actions[1..])
     case _ => Replaces(wanted, actions[1..]))
  }

  lemma {:induction false} BufferReplaced<T(!new)>(s: State<T>, actions: seq<Action<T>>, t: State<T>)
    requires Inv(s) && Reaches(s, actions, t)
    ensures t.buffer == s.buffer <==> !Replaces(s.wantToGrab, actions)
    decreases |actions|
  {
    if actions == [] {
    } else {
      var m := Next(s, actions[0]);
      StepKeepsInv(s, actions[0]);
      FramesAge(m, actions[1..], t);
      BufferReplaced(m, actions[1..], t);
    }
  }

  /**
   * With any number of clients: exactly when the buffer of a reachable state is still the same
   * at the end of a run, namely if no callback has brought a frame while a request was out.
   */
  lemma BufferKeptIff<T(!new)>(n: nat, before: seq<Action<T>>, s: State<T>, actions: seq<Action<T>>, t: State<T>)
    requires Reaches(Initial(n), before, s) && Reaches(s, actions, t)
    ensures t.buffer == s.buffer <==> !Replaces(s.wantToGrab, actions)
  {
    RunKeepsInv(Initial(n), before, s);
    BufferReplaced(s, actions, t);
  }

  /** So with two clients a request of the second one may replace the frame of the first. */
  lemma TwoClientsShareBuffer()
      returns (before: seq<Action<int>>, s: State<int>, actions: seq<Action<int>>, t: State<int>)
    ensures Reaches(Initial(2), before, s) && s.clients == [Idle, Idle]
    ensures s.grabs == [Grab(0, 1, Frame([7], 2))] && s.buffer == Frame([7], 2)
    ensures Reaches(s, actions, t) && t.grabs == s.grabs && t.buffer == Frame([8], 5)
  {
    before, actions := [Request(0), Callback([7]), Test(0)], [Request(1), Callback([8])];
    var s1 := Next(Initial(2), before[0]);
    var s2 := Next(s1, before[1]);
    s := Next(s2, before[2]);
    assert Reaches(s2, before[2..], s) by { assert before[2..][1..] == []; }
    assert Reaches(s1, before[1..], s) by { assert before[1..][1..] == before[2..]; }
    assert s.clients == [Idle, Idle];
    var s4 := Next(s, actions[0]);
    t := Next(s4, actions[1]);
    assert Reaches(s4, actions[1..], t) by { assert actions[1..][1..] == []; }
  }
}
