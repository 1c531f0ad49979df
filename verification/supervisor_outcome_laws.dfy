/** What each piece of a supervisor's two sides does in any run, and that both sides can always come to their end. */
module SupervisionOutcomeLaws {
  import opened Basics
  import opened SupervisionSpec

  /** The command in hand: set from its building to its clearing. */
  function InHand(k: Kid): Option<nat> {
    if k.run.Launch? || k.run.Wait? || k.run.Clear? then Some(k.built) else None
  }

  /** The loop's round. */
  function Following(run: RunPc): RunPc {
    match run
    case Check => Build
    case Build => Launch
    case Launch => Clear
    case Wait => Clear
    case Clear => Delay
    case Delay => Check
    case Exited => Exited
  }

  /** The loop returns where it looks at the stop signal: before a command and in the delay. */
  predicate Leaves(k: Kid, timerFirst: bool) { k.stopClosed && (k.run.Check? || (k.run.Delay? && !timerFirst)) }

  /** The loop stays: for a living process, and in a delay that neither the timer nor a signal ends. */
  predicate Stays(k: Kid, timerFirst: bool) {
    (k.run.Wait? && k.built in k.alive) || (k.run.Delay? && !timerFirst && !k.stopClosed)
  }

  /** A child of a run. */
  ghost predicate Reachable(k: Kid) { exists steps, i ::
      0 <= i < |Exec(EMPTY, steps).kids| && Exec(EMPTY, steps).kids[i] == k }

  lemma ReachableIsOk(k: Kid)
    requires Reachable(k)
    ensures KidOk(k)
  {
    var steps, i :| 0 <= i < |Exec(EMPTY, steps).kids| && Exec(EMPTY, steps).kids[i] == k;
    FleetOkInRun(steps);
  }

  /**
   A piece of the loop leaves, stays, starts the process it built, or goes on; it touches nothing of the other
   side.
   */
  lemma LoopOutcome(k: Kid, startOk: bool, timerFirst: bool)
    requires Reachable(k)
    ensures var k' := KidNext(k, RunStep(startOk, timerFirst));
            var starts := k.run.Launch? && startOk;
            && k'.run == (if Leaves(k, timerFirst) then Exited else if Stays(k, timerFirst) then k.run
                          else if starts then Wait else Following(k.run))
            && k'.built == k.built + (if k.run.Build? then 1 else 0)
            && k'.cmd == InHand(k')
            && k'.started == (if starts then k.started + {k.built} else k.started)
            && k'.alive == (if starts then k.alive + {k.built} else k.alive)
            && k'.startsAfterStop == k.startsAfterStop + (if starts && k.stopClosed then 1 else 0)
            && k'.stop == k.stop && k'.stopClosed == k.stopClosed && k'.signalled == k.signalled
                && k'.killed == k.killed
  {
    ReachableIsOk(k);
  }

  /**
   A piece of `stop` closes the signal, reads, interrupts what was started, waits, or kills; it touches nothing
   of the loop.
   */
  lemma StopOutcome(k: Kid, timerFirst: bool)
    requires Reachable(k)
    ensures var k' := KidNext(k, StopStep(timerFirst));
            && k'.run == k.run && k'.cmd == k.cmd && k'.built == k.built && k'.started == k.started
                && k'.alive == k.alive
            && k'.startsAfterStop == k.startsAfterStop
            && k'.stopClosed == (k.stopClosed || k.stop.NotCalled?)
            && k'.signalled == (if k.stop.Look? && k.stop.seen.Some? && k.stop.seen.value in k.started
                                then k.signalled + {k.stop.seen.value} else k.signalled)
            && k'.killed == (if k.stop.Grace? && timerFirst then k.killed + {k.stop.target} else k.killed)
            && k'.stop == match k.stop {
                 case NotCalled => ReadCmd
                 case ReadCmd => Look(InHand(k))
                 case Look(seen) => if k'.signalled != k.signalled then Grace(seen.value) else WaitDone
                 case Grace(p) => if timerFirst then WaitDone else if k.run.Exited? then Returned else k.stop
                 case WaitDone => if k.run.Exited? then Returned else k.stop
                 case Returned => Returned
               }
  {
    ReachableIsOk(k);
  }

  lemma OutsideOutcome(k: Kid, p: nat)
    ensures KidNext(k, Die(p)) == k.(alive := k.alive - {p}) && KidNext(k, CloseStop) == k.(stopClosed := true)
  {}

  /** Only processes that were interrupted before are killed. */
  lemma KilledWereSignalled(k: Kid)
    requires Reachable(k)
    ensures k.killed <= k.signalled
  {
    ReachableIsOk(k);
  }

  // ---------------------------------------------------------------- coming to the end

  lemma KidExecCat(k: Kid, a: seq<KidStep>, b: seq<KidStep>)
    ensures KidExec(k, a + b) == KidExec(KidExec(k, a), b)
    decreases |a|
  {
    if a == [] {
      assert a + b == b;
    } else {
      assert (a + b)[1..] == a[1..] + b;
      KidExecCat(KidNext(k, a[0]), a[1..], b);
    }
  }

  lemma KidExecOne(k: Kid, s: KidStep)
    ensures KidExec(k, [s]) == KidNext(k, s)
  {
    assert [s][1..] == [];
  }

  lemma {:induction false} KidOkAfter(k: Kid, steps: seq<KidStep>)
    requires KidOk(k)
    ensures KidOk(KidExec(k, steps))
    decreases |steps|
  {
    if steps != [] {
      KidOkStep(k, steps[0]);
      KidOkAfter(KidNext(k, steps[0]), steps[1..]);
    }
  }

  /** How many pieces the loop is from returning. */
  function LoopRank(run: RunPc): nat {
    match run
    case Exited => 0
    case Delay => 1
    case Check => 1
    case Clear => 2
    case Wait => 4
    case Launch => 3
    case Build => 4
  }

  /** The piece that brings a stopped loop nearer to its return; a live process dies. */
  function Nearer(k: Kid): KidStep {
    if k.run.Wait? && k.built in k.alive then Die(k.built) else RunStep(false, false)
  }

  lemma {:induction false} LoopReturns(k: Kid) returns (more: seq<KidStep>)
    requires KidOk(k) && k.stopClosed
    ensures var k' := KidExec(k, more); KidOk(k') && k'.run.Exited? && k'.stop == k.stop && k'.started == k.started
    ensures forall s <- more :: !s.StopStep?
    decreases LoopRank(k.run), if k.built in k.alive then 1 else 0
  {
    if k.run.Exited? {
      more := [];
    } else {
      KidOkStep(k, Nearer(k));
      var rest := LoopReturns(KidNext(k, Nearer(k)));
      KidExecOne(k, Nearer(k));
      KidExecCat(k, [Nearer(k)], rest);
      more := [Nearer(k)] + rest;
    }
  }

  lemma StopThenReturns(k: Kid)
    requires KidOk(k) && k.run.Exited? && !k.stop.NotCalled?
    ensures exists more :: KidExec(k, more).stop.Returned?
  {
    var s := StopStep(false);
    var k1 := KidNext(k, s);
    var k2 := KidNext(k1, s);
    var k3 := KidNext(k2, s);
    assert [s, s, s][1..] == [s, s] && [s, s][1..] == [s] && [s][1..] == [];
    assert KidExec(k, [s, s, s]) == KidExec(k1, [s, s]) == KidExec(k2, [s]) == k3;
    assert k3.stop.Returned?;
  }

  /** In every run a `stop` that was called can still return: once the processes die, both sides reach their end. */
  lemma StopCanReturn(k: Kid) returns (more: seq<KidStep>)
    requires Reachable(k) && !k.stop.NotCalled?
    ensures KidExec(k, more).stop.Returned? && KidExec(k, more).alive == {}
  {
    ReachableIsOk(k);
    var first := LoopReturns(k);
    StopThenReturns(KidExec(k, first));
    var second :| KidExec(KidExec(k, first), second).stop.Returned?;
    KidExecCat(k, first, second);
    KidOkAfter(k, first + second);
    more := first + second;
  }

  // ---------------------------------------------------------------- the handlers

  /** The controller or the fleet allows the step. */
  predicate Ready(f: Fleet, step: Step) {
    match step
    case Create(_, _) => f.ctl.Idle?
    case Delete(_) => f.ctl.Idle?
    case StopReturned => f.ctl.Stopping? && f.ctl.child < |f.kids| && f.kids[f.ctl.child].stop.Returned?
    case Child(i, s) => i < |f.kids| && (s.StopStep? ==> f.ctl == Stopping(i))
  }

  lemma NotReadyChangesNothing(f: Fleet, step: Step)
    requires !Ready(f, step)
    ensures Next(f, step) == f
  {}

  /** A create that is answered with success leaves its key with a child, a new one exactly when it had none. */
  lemma CreateOutcome(f: Fleet, key: Key, setup: Setup)
    requires f.ctl.Idle?
    ensures var f' := Next(f, Create(key, setup));
            if setup.valid && setup.dirMade && setup.cloned && key !in f.children
            then f' == Fleet(f.children[key := |f.kids|], f.keys + [key], f.kids + [NEW_KID], Idle) else f' == f
    ensures CreateReply(f, key, setup) == Accepted <==>
            setup.valid && setup.dirMade && (setup.cloned || key in f.children)
    ensures CreateReply(f, key, setup) == InvalidPayload <==> !setup.valid
    ensures CreateReply(f, key, setup) == FilesystemError <==> setup.valid && !setup.dirMade
  {}

  /**
   A delete takes the key's child off the map and begins its stop; the controller is free again when it has
   returned.
   */
  lemma DeleteOutcome(steps: seq<Step>, key: Key)
    requires Exec(EMPTY, steps).ctl.Idle? && key in Exec(EMPTY, steps).children
    ensures var f, f' := Exec(EMPTY, steps), Next(Exec(EMPTY, steps), Delete(key));
            var i := f.children[key];
            && i < |f.kids| && f.kids[i].stop.NotCalled?
            && f' == Fleet(f.children - {key}, f.keys,
                           f.kids[i := f.kids[i].(stop := ReadCmd, stopClosed := true)], Stopping(i))
  {
    FleetOkInRun(steps);
  }

  lemma DeleteOfAnAbsentKey(f: Fleet, key: Key)
    requires key !in f.children
    ensures Next(f, Delete(key)) == f
  {}

  lemma StopReturnedOutcome(f: Fleet)
    requires Ready(f, StopReturned)
    ensures Next(f, StopReturned) == Fleet(f.children, f.keys, f.kids, Idle)
  {}
}
