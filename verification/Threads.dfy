// The worker pool and the per-worker data the detector factory sets up for it. A step is one
// callback, one access to the shared flag, or one action of the controlling thread.

module Threads {

  datatype Pc = Absent | AtInit | AtStore | AtTest | AtFunc | AtCleanup | Done

  datatype Call = InitCall | FuncCall | CleanupCall

  /** A worker's entry in the data array: its objects exist between init and cleanup. */
  datatype Entry = Unset | Live | Deleted

  datatype Controller =
    | Creating(created: nat)   // startThreads, and after it: so many workers have been created
    | Joining(joined: nat)     // stopThreads: the flag is cleared, so many workers are joined
    | Freed                    // the data array has been deleted

  datatype State = State(
    pcs: seq<Pc>,
    doLoop: bool,
    controller: Controller,
    entries: seq<Entry>,
    calls: seq<seq<Call>>,     // history: the callbacks each worker has made
    fault: bool)               // history: a callback used data it must not use

  datatype Action =
    | Create
    | Work(worker: nat)        // the worker's next step
    | Stop
    | Join
    | Free

  function Initial(n: nat): State {
    State(seq(n, i => Absent), false, Creating(0), seq(n, i => Unset), seq(n, i => []), false)
  }

  predicate Sized(s: State) {
    |s.entries| == |s.pcs| && |s.calls| == |s.pcs|
  }

  predicate Enabled(s: State, a: Action)
    requires Sized(s)
  {
    match a
    case Create => s.controller.Creating? && s.controller.created < |s.pcs|
    case Work(w) => w < |s.pcs| && !s.pcs[w].Absent? && !s.pcs[w].Done?
    case Stop => s.controller == Creating(|s.pcs|)
    case Join => s.controller.Joining? && s.controller.joined < |s.pcs| && s.pcs[s.controller.joined].Done?
    case Free => s.controller == Joining(|s.pcs|)
  }

  /** One callback of worker w, which needs the array and expects its entry as given. */
  function Callback(s: State, w: nat, call: Call, expected: Entry, after: Entry, next: Pc): (t: State)
    requires Sized(s) && w < |s.pcs|
    ensures Sized(t) && |t.pcs| == |s.pcs|
  {
    s.(pcs := s.pcs[w := next],
       entries := s.entries[w := after],
       calls := s.calls[w := s.calls[w] + [call]],
       fault := s.fault || s.controller.Freed? || s.entries[w] != expected)
  }

  function WorkerStep(s: State, w: nat): (t: State)
    requires Sized(s) && Enabled(s, Work(w))
    ensures Sized(t) && |t.pcs| == |s.pcs|
  {
    match s.pcs[w]
    case AtInit => Callback(s, w, InitCall, Unset, Live, AtStore)
    case AtStore => s.(doLoop := true, pcs := s.pcs[w := AtTest])
    case AtTest => s.(pcs := s.pcs[w := if s.doLoop then AtFunc else AtCleanup])
    case AtFunc => Callback(s, w, FuncCall, Live, Live, AtTest)
    case AtCleanup => Callback(s, w, CleanupCall, Live, Deleted, Done)
  }

  function Next(s: State, a: Action): (t: State)
    requires Sized(s) && Enabled(s, a)
    ensures Sized(t) && |t.pcs| == |s.pcs|
  {
    match a
    case Create =>
      var i := s.controller.created;
      s.(pcs := s.pcs[i := AtInit], controller := Creating(i + 1))
    case Work(w) => WorkerStep(s, w)
    case Stop => s.(doLoop := false, controller := Joining(0))
    case Join => s.(controller := Joining(s.controller.joined + 1))
    case Free => s.(controller := Freed)
  }

  ghost predicate Reaches(s: State, actions: seq<Action>, t: State)
    requires Sized(s)
    decreases |actions|
  {
    if actions == [] then s == t
    else Enabled(s, actions[0]) && Reaches(Next(s, actions[0]), actions[1..], t)
  }

  // ------------------------------------------------------------------------------------
  // Order of callbacks, and the life of the data

  /** init once, then func any number of times, then cleanup once, as far as the worker is. */
  predicate InTurn(pc: Pc, calls: seq<Call>) {
    if pc.Absent? || pc.AtInit? then calls == []
    else
      && calls != [] && calls[0] == InitCall
      && (pc.AtStore? ==> |calls| == 1)
      && (pc.Done? ==> |calls| > 1 && calls[|calls| - 1] == CleanupCall)
      && (forall i :: 1 <= i < (if pc.Done? then |calls| - 1 else |calls|) ==> calls[i] == FuncCall)
  }

  function EntryAt(pc: Pc): Entry {
    if pc.Absent? || pc.AtInit? then Unset else if pc.Done? then Deleted else Live
  }

  predicate WorkerInv(pc: Pc, entry: Entry, calls: seq<Call>) {
    entry == EntryAt(pc) && InTurn(pc, calls)
  }

  ghost predicate ControllerInv(c: Controller, pcs: seq<Pc>) {
    match c
    case Creating(i) => i <= |pcs| && forall w :: 0 <= w < |pcs| ==> (pcs[w].Absent? <==> i <= w)
    case Joining(i) =>
      && i <= |pcs|
      && (forall w :: 0 <= w < |pcs| ==> !pcs[w].Absent?)
      && (forall w :: 0 <= w < i ==> pcs[w].Done?)
    case Freed => forall w :: 0 <= w < |pcs| ==> pcs[w].Done?
  }

  ghost predicate Inv(s: State) {
    && Sized(s)
    && !s.fault
    && (forall w :: 0 <= w < |s.pcs| ==> WorkerInv(s.pcs[w], s.entries[w], s.calls[w]))
    && ControllerInv(s.controller, s.pcs)
  }

  lemma WorkerStepKeepsOwn(s: State, w: nat)
    requires Inv(s) && Enabled(s, Work(w))
    ensures var t := Next(s, Work(w));
      WorkerInv(t.pcs[w], t.entries[w], t.calls[w]) && !t.fault && ControllerInv(t.controller, t.pcs)
  {
    assert WorkerInv(s.pcs[w], s.entries[w], s.calls[w]);
  }

  lemma StepKeepsInv(s: State, a: Action)
    requires Inv(s) && Enabled(s, a)
    ensures Inv(Next(s, a))
  {
    var t := Next(s, a);
    if a.Work? {
      WorkerStepKeepsOwn(s, a.worker);
      forall w | 0 <= w < |t.pcs|
        ensures WorkerInv(t.pcs[w], t.entries[w], t.calls[w])
      {
        assert WorkerInv(s.pcs[w], s.entries[w], s.calls[w]);
      }
    } else {
      forall w | 0 <= w < |t.pcs|
        ensures WorkerInv(t.pcs[w], t.entries[w], t.calls[w])
      {
        assert WorkerInv(s.pcs[w], s.entries[w], s.calls[w]);
      }
    }
  }

  lemma {:induction false} RunKeepsInv(s: State, actions: seq<Action>, t: State)
    requires Inv(s) && Reaches(s, actions, t)
    ensures Inv(t)
    decreases |actions|
  {
    if actions == [] {
    } else {
      StepKeepsInv(s, actions[0]);
      RunKeepsInv(Next(s, actions[0]), actions[1..], t);
    }
  }

  /**
   * For any number of workers and any interleaving: every worker's callbacks are init, funcs,
   * cleanup, in turn; its objects exist from its init to its cleanup; whenever a callback is
   * about to run the array is there, and its objects are, or for init are not yet; and when the
   * array is deleted every worker is through its cleanup.
   */
  lemma EveryRunIsSafe(n: nat, actions: seq<Action>, t: State)
    requires Reaches(Initial(n), actions, t)
    ensures Sized(t) && !t.fault
    ensures forall w :: 0 <= w < |t.pcs| ==> InTurn(t.pcs[w], t.calls[w])
    ensures forall w :: 0 <= w < |t.pcs| ==>
      t.entries[w] == (if t.calls[w] == [] then Unset
                       else if t.calls[w][|t.calls[w]| - 1].CleanupCall? then Deleted else Live)
    ensures forall w :: 0 <= w < |t.pcs| ==>
      && (t.pcs[w].AtInit? ==> !t.controller.Freed? && t.entries[w] == Unset)
      && (t.pcs[w].AtFunc? || t.pcs[w].AtCleanup? ==> !t.controller.Freed? && t.entries[w] == Live)
    ensures t.controller.Freed? ==>
      forall w :: 0 <= w < |t.pcs| ==> t.pcs[w].Done? && t.entries[w] == Deleted
  {
    RunKeepsInv(Initial(n), actions, t);
    forall w | 0 <= w < |t.pcs|
      ensures WorkerInv(t.pcs[w], t.entries[w], t.calls[w])
      ensures InTurn(t.pcs[w], t.calls[w]) && t.entries[w] == EntryAt(t.pcs[w])
      ensures t.entries[w] == (if t.calls[w] == [] then Unset
                               else if t.calls[w][|t.calls[w]| - 1].CleanupCall? then Deleted else Live)
    {
      assert WorkerInv(t.pcs[w], t.entries[w], t.calls[w]);
    }
  }

  // ------------------------------------------------------------------------------------
  // Working

  /** No worker leaves its loop: the flag is set once one of them is past its store. */
  ghost predicate Working(s: State) {
    Sized(s) && forall w :: 0 <= w < |s.pcs| ==>
      !s.pcs[w].AtCleanup? && !s.pcs[w].Done? && (PastStore(s.pcs[w]) ==> s.doLoop)
  }

  function WorkSteps(actions: seq<Action>, w: nat): nat {
    if actions == [] then 0 else (if actions[0] == Work(w) then 1 else 0) + WorkSteps(actions[1..], w)
  }

  /** How many steps a working worker has made, judged by where it is and what it has called. */
  function StepsMade(pc: Pc, calls: seq<Call>): int {
    match pc
    case Absent => 0
    case AtInit => 0
    case AtStore => 1
    case AtTest => 2 * |calls|
    case AtFunc => 2 * |calls| + 1
    case _ => -1
  }

  lemma WorkingStep(s: State, a: Action, w: nat)
    requires Inv(s) && Working(s) && s.controller.Creating? && Enabled(s, a) && !a.Stop? && w < |s.pcs|
    ensures Working(Next(s, a)) && Next(s, a).controller.Creating?
    ensures StepsMade(Next(s, a).pcs[w], Next(s, a).calls[w])
         == StepsMade(s.pcs[w], s.calls[w]) + (if a == Work(w) then 1 else 0)
  {
    assert WorkerInv(s.pcs[w], s.entries[w], s.calls[w]);
  }

  lemma {:induction false} WorkingRun(s: State, actions: seq<Action>, t: State, w: nat)
    requires Inv(s) && Working(s) && s.controller.Creating? && Reaches(s, actions, t) && w < |s.pcs|
    requires Stop !in actions
    ensures Working(t) && t.controller.Creating? && |t.pcs| == |s.pcs|
    ensures StepsMade(t.pcs[w], t.calls[w]) == StepsMade(s.pcs[w], s.calls[w]) + WorkSteps(actions, w)
    decreases |actions|
  {
    if actions == [] {
    } else {
      StepKeepsInv(s, actions[0]);
      WorkingStep(s, actions[0], w);
      WorkingRun(Next(s, actions[0]), actions[1..], t, w);
    }
  }

  /** The callbacks of a worker that has made k steps: init, store, and then a test and a func in turn. */
  function CallsAfter(k: nat): nat {
    if k == 0 then 0 else if k <= 3 then 1 else k / 2
  }

  /**
   * As long as no stop is made, in every run a worker never leaves its loop and is never held
   * up, and every second of its steps calls func.
   */
  lemma WorkersKeepWorking(n: nat, actions: seq<Action>, t: State, w: nat)
    requires Reaches(Initial(n), actions, t) && Stop !in actions && w < n
    ensures Sized(t) && |t.pcs| == n && t.controller.Creating?
    ensures !t.pcs[w].AtCleanup? && !t.pcs[w].Done? && (PastStore(t.pcs[w]) ==> t.doLoop)
    ensures w < t.controller.created ==> Enabled(t, Work(w))
    ensures |t.calls[w]| == CallsAfter(WorkSteps(actions, w))
  {
    RunKeepsInv(Initial(n), actions, t);
    WorkingRun(Initial(n), actions, t, w);
    assert WorkerInv(t.pcs[w], t.entries[w], t.calls[w]);
  }

  // ------------------------------------------------------------------------------------
  // Stopping

  predicate PastStore(pc: Pc) {
    pc.AtTest? || pc.AtFunc? || pc.AtCleanup? || pc.Done?
  }

  /** The flag is cleared and no worker is left that would set it again. */
  ghost predicate Stopping(s: State) {
    && Inv(s) && !s.doLoop
    && (s.controller.Joining? || s.controller.Freed?)
    && (forall w :: 0 <= w < |s.pcs| ==> PastStore(s.pcs[w]))
  }

  function Rank(pc: Pc): nat {
    match pc
    case AtFunc => 3
    case AtTest => 2
    case AtCleanup => 1
    case _ => 0
  }

  function Ranks(pcs: seq<Pc>): nat {
    if pcs == [] then 0 else Ranks(pcs[..|pcs| - 1]) + Rank(pcs[|pcs| - 1])
  }

  lemma {:induction false} RanksUpdate(pcs: seq<Pc>, w: nat, pc: Pc)
    requires w < |pcs|
    ensures Ranks(pcs[w := pc]) == Ranks(pcs) - Rank(pcs[w]) + Rank(pc)
  {
    var n := |pcs| - 1;
    if w == n {
      assert pcs[w := pc][..n] == pcs[..n];
    } else {
      RanksUpdate(pcs[..n], w, pc);
      assert pcs[w := pc][..n] == pcs[..n][w := pc];
    }
  }

  /** How many steps are left until the array is deleted. */
  function StepsLeft(s: State): nat {
    Ranks(s.pcs) +
    (match s.controller
     case Joining(i) => if i <= |s.pcs| then |s.pcs| - i + 1 else 0
     case _ => 0)
  }

  function Funcs(calls: seq<Call>): nat {
    if calls == [] then 0
    else Funcs(calls[..|calls| - 1]) + (if calls[|calls| - 1].FuncCall? then 1 else 0)
  }

  /** What worker w may still do to func: finish the call it is at. */
  function FuncsAllowed(s: State, w: nat): nat
    requires Sized(s) && w < |s.pcs|
  {
    Funcs(s.calls[w]) + (if s.pcs[w].AtFunc? then 1 else 0)
  }

  lemma StoppingStep(s: State, a: Action)
    requires Stopping(s) && Enabled(s, a)
    ensures Stopping(Next(s, a))
    ensures StepsLeft(Next(s, a)) + 1 == StepsLeft(s)
  {
    StepKeepsInv(s, a);
    if a.Work? {
      RanksUpdate(s.pcs, a.worker, Next(s, a).pcs[a.worker]);
    }
  }

  /** A worker's allowance of func calls is not renewed. */
  lemma StoppingStepFuncs(s: State, a: Action, w: nat)
    requires Stopping(s) && Enabled(s, a) && w < |s.pcs|
    ensures FuncsAllowed(Next(s, a), w) == FuncsAllowed(s, w)
  {
  }

  /** Until the array is deleted, some step can always be made. */
  lemma NeverStuck(s: State)
    requires Stopping(s) && !s.controller.Freed?
    ensures exists a :: Enabled(s, a)
  {
    var i := s.controller.joined;
    if i == |s.pcs| {
      assert Enabled(s, Free);
    } else if s.pcs[i].Done? {
      assert Enabled(s, Join);
    } else {
      assert Enabled(s, Work(i));
    }
  }

  lemma {:induction false} StoppingRun(s: State, actions: seq<Action>, t: State)
    requires Stopping(s) && Reaches(s, actions, t)
    ensures Stopping(t) && |t.pcs| == |s.pcs|
    ensures |actions| + StepsLeft(t) == StepsLeft(s)
    decreases |actions|
  {
    if actions == [] {
    } else {
      StoppingStep(s, actions[0]);
      StoppingRun(Next(s, actions[0]), actions[1..], t);
    }
  }

  lemma {:induction false} StoppingRunFuncs(s: State, actions: seq<Action>, t: State, w: nat)
    requires Stopping(s) && Reaches(s, actions, t) && Sized(t) && w < |s.pcs| == |t.pcs|
    ensures FuncsAllowed(t, w) == FuncsAllowed(s, w)
    decreases |actions|
  {
    if actions == [] {
    } else {
      StoppingStep(s, actions[0]);
      StoppingStepFuncs(s, actions[0], w);
      StoppingRunFuncs(Next(s, actions[0]), actions[1..], t, w);
    }
  }

  /** Along every run the countdown goes down by one a step, and it ends with the array deleted. */
  lemma StopLasts(s: State, actions: seq<Action>, t: State)
    requires Stopping(s) && Reaches(s, actions, t)
    ensures Stopping(t) && |t.pcs| == |s.pcs|
    ensures forall w :: 0 <= w < |s.pcs| ==>
      Funcs(t.calls[w]) <= Funcs(s.calls[w]) + (if s.pcs[w].AtFunc? then 1 else 0)
    ensures |actions| + StepsLeft(t) == StepsLeft(s)
    ensures StepsLeft(t) == 0 <==> t.controller.Freed?
    ensures !t.controller.Freed? ==> exists a :: Enabled(t, a)
  {
    StoppingRun(s, actions, t);
    DoneHasNoRank(t.pcs);
    forall w | 0 <= w < |s.pcs|
      ensures Funcs(t.calls[w]) <= Funcs(s.calls[w]) + (if s.pcs[w].AtFunc? then 1 else 0)
    {
      StoppingRunFuncs(s, actions, t, w);
    }
    if !t.controller.Freed? {
      NeverStuck(t);
    }
  }

  /**
   * For any number of workers and any run up to a stop made once all of them are past their
   * store of the flag, the stop is permanent: along every run from there the flag stays
   * cleared, each worker calls func at most once more, and the run has exactly as many steps as
   * the countdown has gone down, so that after StepsLeft steps - and a run can always be
   * continued up to there - all workers are joined and the array is deleted.
   */
  lemma StopIsPermanent(n: nat, before: seq<Action>, s: State, s0: State, actions: seq<Action>, t: State)
    requires StoppedAt(n, before, s, s0) && (forall w :: 0 <= w < |s.pcs| ==> PastStore(s.pcs[w]))
    requires Reaches(s0, actions, t)
    ensures !t.doLoop && Sized(t) && |t.pcs| == |s.pcs|
    ensures forall w :: 0 <= w < |s.pcs| ==>
      Funcs(t.calls[w]) <= Funcs(s.calls[w]) + (if s.pcs[w].AtFunc? then 1 else 0)
    ensures |actions| + StepsLeft(t) == StepsLeft(s0)
    ensures StepsLeft(t) == 0 <==> t.controller.Freed?
    ensures !t.controller.Freed? ==> exists a :: Enabled(t, a)
  {
    StopBegins(n, before, s, s0);
    StopLasts(s0, actions, t);
  }

  /** Some run from the start comes to s, and there the controller makes the stop. */
  ghost predicate StoppedAt(n: nat, before: seq<Action>, s: State, s0: State) {
    Reaches(Initial(n), before, s) && Sized(s) && Enabled(s, Stop) && s0 == Next(s, Stop)
  }

  lemma StopBegins(n: nat, before: seq<Action>, s: State, s0: State)
    requires StoppedAt(n, before, s, s0)
    ensures Inv(s0) && s0.controller == Joining(0) && s0.calls == s.calls && s0.pcs == s.pcs
    ensures (forall w :: 0 <= w < |s.pcs| ==> PastStore(s.pcs[w])) ==> Stopping(s0)
  {
    RunKeepsInv(Initial(n), before, s);
    StepKeepsInv(s, Stop);
  }

  lemma {:induction false} DoneHasNoRank(pcs: seq<Pc>)
    ensures (forall w :: 0 <= w < |pcs| ==> pcs[w].Done?) ==> Ranks(pcs) == 0
  {
    if pcs == [] {
    } else {
      DoneHasNoRank(pcs[..|pcs| - 1]);
    }
  }

  // ------------------------------------------------------------------------------------
  // Losing a stop

  /** The controller waits in join while the flag is set and a worker has yet to see it cleared. */
  predicate Lost(s: State, w: nat) {
    && s.doLoop && s.controller.Joining? && w < |s.pcs|
    && (s.pcs[w].AtInit? || s.pcs[w].AtStore? || s.pcs[w].AtTest? || s.pcs[w].AtFunc?)
  }

  lemma LostStep(s: State, a: Action, w: nat)
    requires Inv(s) && Lost(s, w) && Enabled(s, a)
    ensures Lost(Next(s, a), w)
  {
  }

  /** Such a worker never reaches its cleanup, so the join never returns and the array is never deleted. */
  lemma {:induction false} LostForever(s: State, actions: seq<Action>, t: State, w: nat)
    requires Inv(s) && Lost(s, w) && Reaches(s, actions, t)
    ensures Lost(t, w)
    decreases |actions|
  {
    if actions == [] {
    } else {
      StepKeepsInv(s, actions[0]);
      LostStep(s, actions[0], w);
      LostForever(Next(s, actions[0]), actions[1..], t, w);
    }
  }

  /** No run from s deletes the array. */
  ghost predicate Hangs(s: State)
    requires Sized(s)
  {
    forall actions, t :: Reaches(s, actions, t) ==> !t.controller.Freed?
  }

  /** Some run from s comes to where the stop hangs. */
  ghost predicate CanHang(s: State)
    requires Sized(s)
  {
    exists actions, t :: Reaches(s, actions, t) && Sized(t) && Hangs(t)
  }

  /** A worker that has not made its store makes it after the stop. */
  lemma LateStore(s: State, w: nat) returns (actions: seq<Action>, t: State)
    requires Inv(s) && s.controller.Joining? && w < |s.pcs| && (s.pcs[w].AtInit? || s.pcs[w].AtStore?)
    ensures Reaches(s, actions, t) && Inv(t) && Lost(t, w)
    decreases s.pcs[w].AtInit?
  {
    StepKeepsInv(s, Work(w));
    if s.pcs[w].AtStore? {
      actions, t := [Work(w)], Next(s, Work(w));
      assert Reaches(t, actions[1..], t);
    } else {
      var rest;
      rest, t := LateStore(Next(s, Work(w)), w);
      actions := [Work(w)] + rest;
      assert actions[1..] == rest;
    }
  }

  /** While all workers are past their store, some run ends with the array deleted. */
  lemma CanFinish(s: State) returns (actions: seq<Action>, t: State)
    requires Stopping(s)
    ensures Reaches(s, actions, t) && t.controller.Freed?
    decreases StepsLeft(s)
  {
    if s.controller.Freed? {
      actions, t := [], s;
    } else {
      NeverStuck(s);
      var a :| Enabled(s, a);
      StoppingStep(s, a);
      var rest;
      rest, t := CanFinish(Next(s, a));
      actions := [a] + rest;
      assert actions[1..] == rest;
    }
  }

  /**
   * Exactly when a stop made in a reachable state can be lost, so that the controller waits in
   * join for ever: some worker has not yet made its store.
   */
  lemma StopCanBeLostIff(n: nat, before: seq<Action>, s: State, s0: State)
    requires StoppedAt(n, before, s, s0)
    ensures CanHang(s0) <==> exists w :: 0 <= w < |s.pcs| && !PastStore(s.pcs[w])
  {
    StopBegins(n, before, s, s0);
    if w :| 0 <= w < |s.pcs| && !PastStore(s.pcs[w]) {
      var actions, t := LateStore(s0, w);
      LostHangs(t, w);
    } else if CanHang(s0) {
      var actions, t :| Reaches(s0, actions, t) && Sized(t) && Hangs(t);
      StoppingRun(s0, actions, t);
      var more, u := CanFinish(t);
    }
  }

  lemma LostHangs(s: State, w: nat)
    requires Inv(s) && Lost(s, w)
    ensures Hangs(s)
  {
    forall actions, t | Reaches(s, actions, t)
      ensures !t.controller.Freed?
    {
      LostForever(s, actions, t, w);
    }
  }

  /** The shortest such run: one worker, and a stop between its creation and its store. */
  lemma LostStop() returns (s: State, s0: State, actions: seq<Action>, t: State)
    ensures StoppedAt(1, [Create], s, s0) && Reaches(s0, actions, t) && Sized(t) && Hangs(t)
  {
    s := Next(Initial(1), Create);
    s0 := Next(s, Stop);
    assert Reaches(s, [Create][1..], s);
    StopBegins(1, [Create], s, s0);
    actions, t := LateStore(s0, 0);
    LostHangs(t, 0);
  }
}
