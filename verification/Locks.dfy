/** The two locks over every run: who holds one, what a crash leaves of them, and that nobody waits for ever. */
module Locks {
  import opened Options
  import opened Scope
  import opened Protocol
  import opened Lifecycle
  import opened Durability

  /** The lock file belongs to a process inside its critical section, or to one that crashed there. */
  ghost predicate LockFileInv(done: seq<Step>, w: World)
  {
    w.lock.Some? ==>
      && w.lock.value in w.started
      && (if w.lock.value in w.procs then HoldsLock(w.procs[w.lock.value]) else Crash(w.lock.value) in done)
  }

  /** Who comes and goes in a step. */
  lemma ComesAndGoes(w: World, step: Step)
    requires Enabled(w, step)
    ensures var w' := Apply(w, step);
      && w.started <= w'.started
      && (forall p :: p in w.procs && p !in w'.procs ==> step == Crash(p) || (step == Close(p) && !HoldsLock(w.procs[p])))
      && (forall p :: p in w'.procs && p !in w.procs ==> p !in w.started)
  {
    hide FindSpec;
    hide HoldsBolt;
    hide DropRefs;
    hide KeepSet;
    hide Referenced;
  }

  /** What a step does to the lock file. */
  lemma LockFileMoves(w: World, step: Step)
    requires Enabled(w, step) && forall p :: p in w.procs ==> p in w.started
    ensures var w' := Apply(w, step);
      && (w'.lock.Some? ==> w'.lock == w.lock || (step.AcquireLock? && w'.lock.value == step.p && step.p in w'.procs && HoldsLock(w'.procs[step.p])))
      && (forall p :: p in w.procs && p in w'.procs && HoldsLock(w.procs[p]) && !HoldsLock(w'.procs[p]) ==> w'.lock.None?)
  {
    hide FindSpec;
    hide HoldsBolt;
    hide DropRefs;
    hide KeepSet;
    hide Referenced;
  }

  lemma LockFileKept(done: seq<Step>, w: World, step: Step)
    requires LocksInv(w) && LockFileInv(done, w) && Enabled(w, step)
    ensures LockFileInv(done + [step], Apply(w, step))
  {
    ComesAndGoes(w, step);
    LockFileMoves(w, step);
    if step.AcquireLock? {
      StartedStay(w, step);
    }
    assert forall s :: s in done ==> s in done + [step];
    assert step in done + [step];
    hide Apply;
    hide Enabled;
    hide HoldsLock;
  }

  lemma StartedStay(w: World, step: Step)
    requires LocksInv(w) && Enabled(w, step) && step.AcquireLock?
    ensures step.p in w.started
  {
  }

  lemma {:induction false} LockFileOverRun(done: seq<Step>, w: World, steps: seq<Step>)
    requires Inv(w) && LockFileInv(done, w) && IsRun(w, steps)
    ensures LockFileInv(done + steps, Final(w, steps))
    decreases |steps|
  {
    hide LockFileInv;
    if steps == [] {
      assert done + steps == done;
    } else {
      LockFileKept(done, w, steps[0]);
      hide Inv;
      StepKeeps(w, steps[0]);
      LockFileOverRun(done + [steps[0]], Apply(w, steps[0]), steps[1..]);
      assert done + [steps[0]] + steps[1..] == done + steps;
    }
  }

  /** After any run: at most one process is inside a critical section, and at most one has the backend open; the lock file
      is there exactly while a process is inside, or was left by one that crashed there, and bbolt's lock is taken exactly
      while a process has the backend open. */
  lemma LocksAreHeld(steps: seq<Step>)
    requires IsRun(EMPTY_WORLD, steps)
    ensures var w := After(steps); forall p, q :: p in w.procs && q in w.procs && HoldsLock(w.procs[p]) && HoldsLock(w.procs[q]) ==> p == q
    ensures var w := After(steps); forall p, q :: p in w.procs && q in w.procs && HoldsBolt(w.procs[p]) && HoldsBolt(w.procs[q]) ==> p == q
    ensures var w := After(steps); forall p :: p in w.procs ==> (w.lock == Some(p) <==> HoldsLock(w.procs[p]))
    ensures var w := After(steps); forall p :: p !in w.procs && w.lock == Some(p) ==> Crash(p) in steps
    ensures var w := After(steps); forall p :: w.bolt == Some(p) <==> p in w.procs && HoldsBolt(w.procs[p])
  {
    AfterInv(steps);
    InvEmpty();
    assert LockFileInv([], EMPTY_WORLD);
    hide LockFileInv;
    LockFileOverRun([], EMPTY_WORLD, steps);
    assert [] + steps == steps;
    HeldNow(steps, After(steps));
  }

  lemma HeldNow(done: seq<Step>, w: World)
    requires LocksInv(w) && LockFileInv(done, w)
    ensures forall p :: p in w.procs ==> (w.lock == Some(p) <==> HoldsLock(w.procs[p]))
    ensures forall p :: p !in w.procs && w.lock == Some(p) ==> Crash(p) in done
    ensures forall p :: w.bolt == Some(p) <==> p in w.procs && HoldsBolt(w.procs[p])
  {
  }

  // ---- Nobody waits for ever ----

  /** The processes that have not begun to leave, and those that still have the lock file to remove. */
  function Busy(w: World): set<Pid>
  {
    set p | p in w.procs && !w.procs[p].Leaving?
  }

  function Locking(w: World): set<Pid>
  {
    set p | p in w.procs && w.procs[p].Leaving? && w.procs[p].lock
  }

  /** The way out of a process: give up, remove the lock file, close the backend. */
  function WayOut(w: World, p: Pid): Step
    requires p in w.procs
  {
    if !w.procs[p].Leaving? then Return(p) else if w.procs[p].lock then Unlock(p) else Close(p)
  }

  /** The next step out brings the end nearer. */
  ghost predicate Nearer(w: World, w': World)
  {
    || |w'.procs| < |w.procs|
    || (|w'.procs| == |w.procs| && |Busy(w')| < |Busy(w)|)
    || (|w'.procs| == |w.procs| && |Busy(w')| == |Busy(w)| && |Locking(w')| < |Locking(w)|)
  }

  lemma WayOutIs(w: World, p: Pid)
    requires LocksInv(w) && p in w.procs
    ensures Enabled(w, WayOut(w, p)) && Apply(w, WayOut(w, p)).store == w.store && !WayOut(w, p).Crash?
    ensures var (c, w') := (w.procs[p], Apply(w, WayOut(w, p)));
      if !c.Leaving? then w'.procs == w.procs[p := Leaving(HoldsBolt(c), HoldsLock(c))]
      else if c.lock then w'.procs == w.procs[p := Leaving(c.bolt, false)]
      else w'.procs == w.procs - {p}
  {
    hide LocksInv;
    hide FindSpec;
    hide HoldsBolt;
    hide HoldsLock;
  }

  lemma WayOutLeads(w: World, p: Pid)
    requires LocksInv(w) && p in w.procs
    ensures Nearer(w, Apply(w, WayOut(w, p)))
  {
    WayOutIs(w, p);
    var w' := Apply(w, WayOut(w, p));
    var c := w.procs[p];
    hide *;
    if !c.Leaving? {
      GivesUp(w, w', p);
    } else if c.lock {
      LetsGo(w, w', p);
    } else {
      IsGone(w, w', p);
    }
  }

  lemma GivesUp(w: World, w': World, p: Pid)
    requires p in w.procs && !w.procs[p].Leaving?
    requires p in w'.procs && w'.procs[p].Leaving? && w'.procs == w.procs[p := w'.procs[p]]
    ensures Nearer(w, w')
  {
    assert w'.procs.Keys == w.procs.Keys;
    assert Busy(w) == Busy(w') + {p};
    SameCount(w, w');
  }

  lemma LetsGo(w: World, w': World, p: Pid)
    requires p in w.procs && w.procs[p].Leaving? && w.procs[p].lock
    requires w'.procs == w.procs[p := Leaving(w.procs[p].bolt, false)]
    ensures Nearer(w, w')
  {
    assert w'.procs.Keys == w.procs.Keys;
    assert Busy(w) == Busy(w');
    assert Locking(w) == Locking(w') + {p};
    SameCount(w, w');
  }

  lemma IsGone(w: World, w': World, p: Pid)
    requires p in w.procs && w'.procs == w.procs - {p}
    ensures Nearer(w, w')
  {
    assert w.procs.Keys == w'.procs.Keys + {p};
    assert |w.procs| == |w.procs.Keys| && |w'.procs| == |w'.procs.Keys|;
  }

  lemma SameCount(w: World, w': World)
    requires w'.procs.Keys == w.procs.Keys
    ensures |w'.procs| == |w.procs|
  {
    assert |w.procs| == |w.procs.Keys| && |w'.procs| == |w'.procs.Keys|;
  }

  lemma NobodyLeft(w: World) returns (rest: seq<Step>)
    requires LocksInv(w) && w.procs == map[]
    ensures IsRun(w, rest) && (forall step :: step in rest ==> !step.Crash?)
    ensures var w' := Final(w, rest); w'.procs == map[] && w'.lock.None? && w'.bolt.None? && w'.store == w.store
  {
    hide FindSpec;
    rest := if w.lock.Some? then [ReclaimLock] else [];
    assert w.lock.Some? ==> Enabled(w, ReclaimLock) && rest[1..] == [];
  }

  /** From wherever a run has got to, everybody can leave, with both locks free in the end and nothing written on the way;
      a lock file left by a crash is no obstacle. */
  lemma {:induction false} ScopeComesFree(w: World) returns (rest: seq<Step>)
    requires Inv(w)
    ensures IsRun(w, rest) && (forall step :: step in rest ==> !step.Crash?)
    ensures var w' := Final(w, rest); w'.procs == map[] && w'.lock.None? && w'.bolt.None? && w'.store == w.store
    decreases |w.procs|, |Busy(w)|, |Locking(w)|
  {
    if w.procs == map[] {
      hide BoltView;
      rest := NobodyLeft(w);
    } else {
      var p :| p in w.procs;
      var step := WayOut(w, p);
      WayOutIs(w, p);
      WayOutLeads(w, p);
      hide WayOut;
      hide Inv;
      StepKeeps(w, step);
      hide Busy;
      hide Locking;
      hide Apply;
      hide Enabled;
      var more := ScopeComesFree(Apply(w, step));
      rest := [step] + more;
      assert rest[0] == step && rest[1..] == more;
    }
  }
}
