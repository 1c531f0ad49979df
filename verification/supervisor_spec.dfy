/**
 The local controller's process supervisors (supervisor.go) and the serial create and delete
 handlers that own them (controller.go), as interleaved program-counter machines.

 `run` and `stop` of one child interleave freely, processes die at any time, and the controller
 handles one message at a time; a message that waits in `stop` blocks the next.
 */
module SupervisionSpec {
  import opened Basics

  // ---------------------------------------------------------------- one child

  /**
   Where `run` is: before the stop check, building, before Start, in Wait, clearing `cmd`, in the restart
   delay, returned.
   */
  datatype RunPc = Check | Build | Launch | Wait | Clear | Delay | Exited

  /** Where `stop` is; `Look` and `Signal` hold the command it read. */
  datatype StopPc = NotCalled | ReadCmd | Look(seen: Option<nat>) | Grace(target: nat) | WaitDone | Returned

  /** `cmd` and the process sets name commands by their build number. */
  datatype Kid = Kid(
    run: RunPc, stop: StopPc, stopClosed: bool,
    cmd: Option<nat>, built: nat, started: set<nat>, alive: set<nat>, signalled: set<nat>, killed: set<nat>,
    startsAfterStop: nat)

  const NEW_KID := Kid(Check, NotCalled, false, None, 0, {}, {}, {}, {}, 0)

  datatype KidStep =
    | RunStep(startOk: bool, timerFirst: bool)
    | StopStep(timerFirst: bool)
    | Die(process: nat)
    | CloseStop // shutdownChildren's close of the stop channel; its own wait and kill are left out

  function RunNext(k: Kid, startOk: bool, timerFirst: bool): Kid {
    match k.run
    case Check => if k.stopClosed then k.(run := Exited) else k.(run := Build)
    case Build => k.(run := Launch, built := k.built + 1, cmd := Some(k.built + 1))
    case Launch =>
      if startOk
      then k.(run := Wait, started := k.started + {k.built}, alive := k.alive + {k.built},
              startsAfterStop := k.startsAfterStop + if k.stopClosed then 1 else 0)
      else k.(run := Clear)
    case Wait => if k.built in k.alive then k else k.(run := Clear)
    case Clear => k.(run := Delay, cmd := None)
    case Delay => if k.stopClosed && !timerFirst then k.(run := Exited) else if timerFirst then k.(run := Check) else k
    case Exited => k
  }

  function StopNext(k: Kid, timerFirst: bool): Kid {
    match k.stop
    case NotCalled => k.(stop := ReadCmd, stopClosed := true)
    case ReadCmd => k.(stop := Look(k.cmd))
    case Look(seen) =>
      if seen.Some? && seen.value in k.started
      then k.(stop := Grace(seen.value), signalled := k.signalled + {seen.value})
      else k.(stop := WaitDone)
    case Grace(target) =>
      if k.run.Exited? && !timerFirst then k.(stop := Returned)
      else if timerFirst then k.(stop := WaitDone, killed := k.killed + {target})
      else k
    case WaitDone => if k.run.Exited? then k.(stop := Returned) else k
    case Returned => k
  }

  function KidNext(k: Kid, step: KidStep): Kid {
    match step
    case RunStep(startOk, timerFirst) => RunNext(k, startOk, timerFirst)
    case StopStep(timerFirst) => StopNext(k, timerFirst)
    case Die(p) => k.(alive := k.alive - {p})
    case CloseStop => k.(stopClosed := true)
  }

  /** `stop` has acted on the command it read. */
  predicate PastLook(k: Kid) { k.stop.Grace? || k.stop.WaitDone? || k.stop.Returned? }

  predicate KidOk(k: Kid) {
    && Tracked(k) && Reached(k)
    && k.alive <= (if k.run.Wait? then {k.built} else {})
    && k.startsAfterStop <= (if k.stopClosed && !k.run.Build? && !k.run.Launch? then 1 else 0)
    && (k.stop.Returned? ==> k.run.Exited?)
    && (k.run.Exited? ==> k.stopClosed)
    && (!k.stop.NotCalled? ==> k.stopClosed)
  }

  /** Which command `stop` may have read, and what it has signalled, at each point of `run`. */
  predicate Tracked(k: Kid) {
    && (forall p <- k.started :: p <= k.built)
    && (k.run.Launch? ==> k.built !in k.started)
    && (k.run.Wait? ==> k.built in k.started)
    && k.cmd == (if k.run.Launch? || k.run.Wait? || k.run.Clear? then Some(k.built) else None)
    && (!PastLook(k) ==> k.signalled == {})
    && k.killed <= k.signalled && (k.stop.Grace? ==> k.stop.target in k.signalled)
    && (k.stop.Look? && k.stop.seen.Some? ==> k.stop.seen.value <= k.built)
  }

  /** While no start has succeeded since the stop signal. */
  predicate Reached(k: Kid) {
    k.startsAfterStop == 0 ==>
      && (k.stop.Look? && k.run.Wait? ==> k.stop.seen == Some(k.built))
      && (PastLook(k) ==> k.alive <= k.signalled)
  }

  lemma KidOkStep(k: Kid, step: KidStep)
    requires KidOk(k)
    ensures KidOk(KidNext(k, step))
  {}

  // ---------------------------------------------------------------- the controller

  type Key = (string, string)

  datatype Ctl = Idle | Stopping(child: nat)

  datatype Fleet = Fleet(children: map<Key, nat>, keys: seq<Key>, kids: seq<Kid>, ctl: Ctl)

  /** How a create's preparations go: parsing and slugs, the directory, and the clone, if one is needed. */
  datatype Setup = Setup(valid: bool, dirMade: bool, cloned: bool)

  datatype Reply = Accepted | InvalidPayload | FilesystemError | GitCloneFailed

  datatype Step =
    | Create(key: Key, setup: Setup)
    | Delete(key: Key)
    | StopReturned
    | Child(child: nat, step: KidStep)

  const DONE := Setup(true, true, true)

  const EMPTY := Fleet(map[], [], [], Idle)

  /** A running child is answered before anything is cloned. */
  function CreateReply(f: Fleet, key: Key, setup: Setup): Reply {
    if !setup.valid then InvalidPayload
    else if !setup.dirMade then FilesystemError
    else if key in f.children || setup.cloned then Accepted
    else GitCloneFailed
  }

  function HandleCreate(f: Fleet, key: Key, setup: Setup): Fleet {
    if key in f.children || CreateReply(f, key, setup) != Accepted then f
    else Fleet(f.children[key := |f.kids|], f.keys + [key], f.kids + [NEW_KID], f.ctl)
  }

  /** Takes the child off the map and enters its `stop`. */
  function HandleDelete(f: Fleet, key: Key): Fleet {
    if key in f.children && f.children[key] < |f.kids|
    then var i := f.children[key];
         f.(children := f.children - {key}, kids := f.kids[i := StopNext(f.kids[i], false)], ctl := Stopping(i))
    else f
  }

  /** Only the handler that holds the controller runs a child's `stop` past its first step. */
  predicate Permitted(f: Fleet, i: nat, step: KidStep) {
    step.StopStep? ==> f.ctl == Stopping(i)
  }

  function Next(f: Fleet, step: Step): Fleet {
    match step
    case Create(key, setup) => if f.ctl.Idle? then HandleCreate(f, key, setup) else f
    case Delete(key) => if f.ctl.Idle? then HandleDelete(f, key) else f
    case StopReturned =>
      if f.ctl.Stopping? && f.ctl.child < |f.kids| && f.kids[f.ctl.child].stop.Returned? then f.(ctl := Idle) else f
    case Child(i, s) =>
      if i < |f.kids| && Permitted(f, i, s) then f.(kids := f.kids[i := KidNext(f.kids[i], s)]) else f
  }

  function Exec(f: Fleet, steps: seq<Step>): Fleet {
    if steps == [] then f else Next(Exec(f, steps[..|steps| - 1]), steps[|steps| - 1])
  }

  /** A child's own invariant; it has exited, is being stopped, or is listed; only one `stop` is under way. */
  predicate KidIn(f: Fleet, i: nat)
    requires i < |f.kids| && i < |f.keys|
  {
    && KidOk(f.kids[i])
    && (f.kids[i].run.Exited? || f.ctl == Stopping(i) || (f.keys[i] in f.children && f.children[f.keys[i]] == i))
    && (!f.kids[i].stop.NotCalled? && !f.kids[i].stop.Returned? ==> f.ctl == Stopping(i))
  }

  ghost predicate FleetOk(f: Fleet) {
    && |f.keys| == |f.kids|
    && (forall i {:trigger f.kids[i]} | 0 <= i < |f.kids| :: KidIn(f, i))
    && (forall key <- f.children ::
          f.children[key] < |f.kids| && f.keys[f.children[key]] == key && f.kids[f.children[key]].stop.NotCalled?)
    && (f.ctl.Stopping? ==> f.ctl.child < |f.kids| && f.keys[f.ctl.child] !in f.children)
  }

  lemma FleetOkCreate(f: Fleet, key: Key, setup: Setup)
    requires FleetOk(f) && f.ctl.Idle?
    ensures FleetOk(HandleCreate(f, key, setup))
  {
    var f' := HandleCreate(f, key, setup);
    forall j | 0 <= j < |f'.kids| ensures KidIn(f', j) { if j < |f.kids| { assert KidIn(f, j); } }
  }

  lemma FleetOkDelete(f: Fleet, key: Key)
    requires FleetOk(f) && f.ctl.Idle?
    ensures FleetOk(HandleDelete(f, key))
  {
    if key in f.children {
      var f', i := HandleDelete(f, key), f.children[key];
      KidOkStep(f.kids[i], StopStep(false));
      forall j | 0 <= j < |f'.kids| ensures KidIn(f', j) { assert KidIn(f, j); }
    }
  }

  lemma FleetOkChild(f: Fleet, i: nat, s: KidStep)
    requires FleetOk(f) && i < |f.kids| && Permitted(f, i, s)
    ensures FleetOk(f.(kids := f.kids[i := KidNext(f.kids[i], s)]))
  {
    var f' := f.(kids := f.kids[i := KidNext(f.kids[i], s)]);
    KidOkStep(f.kids[i], s);
    forall j | 0 <= j < |f'.kids| ensures KidIn(f', j) { assert KidIn(f, j); }
  }

  lemma FleetOkStep(f: Fleet, step: Step)
    requires FleetOk(f)
    ensures FleetOk(Next(f, step))
  {
    match step
    case Create(key, setup) => if f.ctl.Idle? { FleetOkCreate(f, key, setup); }
    case Delete(key) => if f.ctl.Idle? { FleetOkDelete(f, key); }
    case StopReturned =>
      var f' := Next(f, step);
      forall j | 0 <= j < |f'.kids| ensures KidIn(f', j) { assert KidOk(f.kids[j]); }
    case Child(i, s) => if i < |f.kids| && Permitted(f, i, s) { FleetOkChild(f, i, s); }
  }

  lemma {:induction false} FleetOkInRun(steps: seq<Step>)
    ensures FleetOk(Exec(EMPTY, steps))
  {
    if steps != [] {
      FleetOkInRun(steps[..|steps| - 1]);
      FleetOkStep(Exec(EMPTY, steps[..|steps| - 1]), steps[|steps| - 1]);
    }
  }

  /** In every run, two live processes of the same user and project are the same process. */
  lemma AtMostOneProcessPerKey(steps: seq<Step>, i: nat, p: nat, j: nat, q: nat)
    requires var f := Exec(EMPTY, steps);
             && i < |f.kids| && j < |f.kids| && |f.keys| == |f.kids| && f.keys[i] == f.keys[j]
             && p in f.kids[i].alive && q in f.kids[j].alive
    ensures i == j && p == q
  {
    FleetOkInRun(steps);
  }

  /** After the stop signal at most one more start succeeds. */
  lemma AtMostOneStartAfterStop(steps: seq<Step>, i: nat)
    requires i < |Exec(EMPTY, steps).kids|
    ensures Exec(EMPTY, steps).kids[i].startsAfterStop <= 1
  {
    FleetOkInRun(steps);
  }

  lemma ExitedStep(f: Fleet, i: nat, step: Step)
    requires FleetOk(f) && i < |f.kids| && f.kids[i].run.Exited?
    ensures var f' := Next(f, step);
            i < |f'.kids| && f'.kids[i].run.Exited? && f'.kids[i].started == f.kids[i].started
  {}

  /** An exited supervisor stays exited: nothing starts and nothing runs under it again. */
  lemma {:induction false} ExitedForGood(f: Fleet, i: nat, more: seq<Step>)
    requires FleetOk(f) && i < |f.kids| && f.kids[i].run.Exited?
    ensures var f' := Exec(f, more);
            && FleetOk(f') && i < |f'.kids| && f'.kids[i].run.Exited?
            && f'.kids[i].started == f.kids[i].started && f'.kids[i].alive == {}
  {
    if more != [] {
      var pre, last := Exec(f, more[..|more| - 1]), more[|more| - 1];
      ExitedForGood(f, i, more[..|more| - 1]);
      FleetOkStep(pre, last);
      ExitedStep(pre, i, last);
    }
    assert KidOk(Exec(f, more).kids[i]);
  }

  /** Once `stop` has returned, no process of that child runs and none is ever started. */
  lemma NothingAfterStopReturned(steps: seq<Step>, i: nat, more: seq<Step>)
    requires var f := Exec(EMPTY, steps); i < |f.kids| && f.kids[i].stop.Returned?
    ensures var f, f' := Exec(EMPTY, steps), Exec(Exec(EMPTY, steps), more);
            i < |f'.kids| && f'.kids[i].started == f.kids[i].started && f'.kids[i].alive == {}
  {
    FleetOkInRun(steps);
    ExitedForGood(Exec(EMPTY, steps), i, more);
  }

  /** When a delete is done, no process of its key runs. */
  lemma NoProcessOfAnAbsentKey(steps: seq<Step>, i: nat)
    requires var f := Exec(EMPTY, steps);
             i < |f.kids| && |f.keys| == |f.kids| && f.ctl.Idle? && f.keys[i] !in f.children
    ensures Exec(EMPTY, steps).kids[i].alive == {}
  {
    FleetOkInRun(steps);
  }

  /** While no start has succeeded since the stop signal, `stop` signals whatever process is alive. */
  lemma StopSignalsTheProcess(steps: seq<Step>, i: nat)
    requires i < |Exec(EMPTY, steps).kids|
    requires var k := Exec(EMPTY, steps).kids[i]; PastLook(k) && k.startsAfterStop == 0
    ensures var k := Exec(EMPTY, steps).kids[i]; k.alive <= k.signalled
  {
    FleetOkInRun(steps);
  }

  // ---------------------------------------------------------------- the late start

  /** `stop` is done with the command it read, and a process it never signalled is alive. */
  predicate Missed(k: Kid) { PastLook(k) && exists p <- k.alive :: p !in k.signalled }

  /** `run` is past its stop check but not yet started, or waits for another command's live process. */
  predicate CanMiss(k: Kid, seen: Option<nat>) {
    k.run.Build? || k.run.Launch? || (k.run.Wait? && k.built in k.alive && seen != Some(k.built))
  }

  /** No continuation misses a process any more. */
  predicate Safe(k: Kid) {
    && KidOk(k)
    && ((k.stop.Look? && !CanMiss(k, k.stop.seen)) ||
        (PastLook(k) && !k.run.Build? && !k.run.Launch? && k.alive <= k.signalled))
  }

  lemma SafeKidStep(k: Kid, step: KidStep)
    requires Safe(k)
    ensures Safe(KidNext(k, step)) && !Missed(KidNext(k, step))
  {
    KidOkStep(k, step);
  }

  lemma {:induction false} SafeForGood(f: Fleet, i: nat, more: seq<Step>)
    requires FleetOk(f) && i < |f.kids| && Safe(f.kids[i])
    ensures var f' := Exec(f, more);
            FleetOk(f') && i < |f'.kids| && Safe(f'.kids[i]) && !Missed(f'.kids[i])
  {
    if more != [] {
      var pre, last := Exec(f, more[..|more| - 1]), more[|more| - 1];
      SafeForGood(f, i, more[..|more| - 1]);
      FleetOkStep(pre, last);
      SafeStep(pre, i, last);
    }
  }

  lemma SafeStep(f: Fleet, i: nat, step: Step)
    requires FleetOk(f) && i < |f.kids| && Safe(f.kids[i])
    ensures var f' := Next(f, step); i < |f'.kids| && Safe(f'.kids[i]) && !Missed(f'.kids[i])
  {
    if step.Child? && step.child == i { SafeKidStep(f.kids[i], step.step); }
  }

  lemma ExecAppend(f: Fleet, steps: seq<Step>, step: Step)
    ensures Exec(f, steps + [step]) == Next(Exec(f, steps), step)
  {
    assert (steps + [step])[..|steps|] == steps;
  }

  /** What child `i` does by itself, while the handler that stops it holds the controller. */
  function KidExec(k: Kid, steps: seq<KidStep>): Kid
    decreases |steps|
  {
    if steps == [] then k else KidExec(KidNext(k, steps[0]), steps[1..])
  }

  lemma {:induction false} KidExecInFleet(f: Fleet, i: nat, steps: seq<KidStep>) returns (more: seq<Step>)
    requires i < |f.kids| && forall s <- steps :: Permitted(f, i, s)
    ensures |more| == |steps| && forall n | 0 <= n < |steps| :: more[n] == Child(i, steps[n])
    ensures Exec(f, more) == f.(kids := f.kids[i := KidExec(f.kids[i], steps)])
    decreases |steps|
  {
    if steps == [] {
      more := [];
    } else {
      var first := Child(i, steps[0]);
      assert steps[0] in steps && Permitted(f, i, steps[0]);
      forall s <- steps[1..] ensures Permitted(Next(f, first), i, s) { assert s in steps && Permitted(f, i, s); }
      var rest := KidExecInFleet(Next(f, first), i, steps[1..]);
      more := [first] + rest;
      ExecCons(f, first, rest);
    }
  }

  lemma {:induction false} ExecCons(f: Fleet, first: Step, rest: seq<Step>)
    ensures Exec(f, [first] + rest) == Exec(Next(f, first), rest)
  {
    if rest == [] {
      ExecAppend(f, [], first);
      assert [first] + rest == [] + [first];
    } else {
      var init := rest[..|rest| - 1];
      assert ([first] + rest)[..|rest|] == [first] + init;
      ExecCons(f, first, init);
    }
  }

  /** The steps that make `stop` miss a process, from where it is about to look. */
  function Missing(k: Kid): seq<KidStep> {
    var go, stop := RunStep(true, false), StopStep(false);
    if k.run.Build? then [go, stop, go] else if k.run.Launch? then [stop, go] else [stop]
  }

  lemma MissingMisses(k: Kid)
    requires KidOk(k) && k.stop.Look? && CanMiss(k, k.stop.seen)
    ensures Missed(KidExec(k, Missing(k)))
  {
    var go, stop := RunStep(true, false), StopStep(false);
    if k.run.Wait? {
      assert KidExec(k, [stop]) == KidNext(k, stop);
      assert k.built in KidNext(k, stop).alive;
    } else if k.run.Launch? {
      LaunchMisses(k);
    } else {
      var k1 := KidNext(k, go);
      KidOkStep(k, go);
      assert [go, stop, go][1..] == [stop, go];
      LaunchMisses(k1);
    }
  }

  lemma LaunchMisses(k: Kid)
    requires KidOk(k) && k.stop.Look? && k.run.Launch?
    ensures Missed(KidExec(k, [StopStep(false), RunStep(true, false)]))
  {
    var go, stop := RunStep(true, false), StopStep(false);
    var k1 := KidNext(k, stop);
    var k2 := KidNext(k1, go);
    assert [stop, go][1..] == [go] && [go][1..] == [];
    assert KidExec(k, [stop, go]) == KidExec(k1, [go]) == k2;
    assert k.built in k2.alive;
  }

  /**
   In every reachable state where `stop` has read the command and is about to act on it, some continuation
   leaves a live process unsignalled if and only if `run` is past its stop check but has not started its
   process, or waits for a live process of another command.
   */
  lemma StopMissesIff(steps: seq<Step>, i: nat)
    requires i < |Exec(EMPTY, steps).kids| && Exec(EMPTY, steps).kids[i].stop.Look?
    ensures var k := Exec(EMPTY, steps).kids[i];
            (exists more :: var f := Exec(Exec(EMPTY, steps), more); i < |f.kids| && Missed(f.kids[i]))
            <==> CanMiss(k, k.stop.seen)
  {
    var f := Exec(EMPTY, steps);
    FleetOkInRun(steps);
    if CanMiss(f.kids[i], f.kids[i].stop.seen) {
      MissingMisses(f.kids[i]);
      var more := KidExecInFleet(f, i, Missing(f.kids[i]));
      assert Missed(Exec(f, more).kids[i]);
    } else {
      forall more ensures var f' := Exec(f, more); i < |f'.kids| && !Missed(f'.kids[i]) { SafeForGood(f, i, more); }
    }
  }

  // ---------------------------------------------------------------- restarts

  /** The loop returns only after a stop signal. */
  lemma ExitedOnlyWhenStopped(steps: seq<Step>, i: nat)
    requires i < |Exec(EMPTY, steps).kids| && Exec(EMPTY, steps).kids[i].run.Exited?
    ensures Exec(EMPTY, steps).kids[i].stopClosed
  {
    FleetOkInRun(steps);
  }

  /** The loop's own way from a dead process to the next one. */
  const RESTART: seq<KidStep> := [
    RunStep(true, true), RunStep(true, true), RunStep(true, true),
    RunStep(true, true), RunStep(true, true), RunStep(true, true)]

  lemma RestartKid(k: Kid)
    requires KidOk(k) && k.run.Wait? && k.built !in k.alive && !k.stopClosed
    ensures KidExec(k, RESTART) ==
            k.(cmd := Some(k.built + 1), built := k.built + 1,
               started := k.started + {k.built + 1}, alive := k.alive + {k.built + 1})
  {
    var go := RunStep(true, true);
    assert RESTART[1..] == [go, go, go, go, go] && RESTART[1..][1..] == [go, go, go, go];
    assert [go, go, go, go][1..] == [go, go, go] && [go, go, go][1..] == [go, go] && [go, go][1..] == [go];
    var k3 := k.(run := Check, cmd := None);
    assert KidExec(k, RESTART) == KidExec(k3, [go, go, go]);
    assert KidExec(k3.(run := Build), [go, go]) == KidExec(KidNext(k3.(run := Build), go), [go]);
  }

  /** A process that died without a stop signal is replaced by a new one, by steps of the loop alone. */
  lemma CrashIsRestarted(steps: seq<Step>, i: nat) returns (more: seq<Step>)
    requires i < |Exec(EMPTY, steps).kids|
    requires var k := Exec(EMPTY, steps).kids[i]; k.run.Wait? && k.built !in k.alive && !k.stopClosed
    ensures forall n | 0 <= n < |more| :: more[n] == Child(i, RunStep(true, true))
    ensures var f, f' := Exec(EMPTY, steps), Exec(Exec(EMPTY, steps), more);
            && |f'.kids| == |f.kids| && f'.children == f.children && f'.kids[i].run.Wait?
            && f'.kids[i].built == f.kids[i].built + 1 && f'.kids[i].alive == {f.kids[i].built + 1}
            && forall j | 0 <= j < |f.kids| && j != i :: f'.kids[j] == f.kids[j]
  {
    FleetOkInRun(steps);
    RestartKid(Exec(EMPTY, steps).kids[i]);
    more := KidExecInFleet(Exec(EMPTY, steps), i, RESTART);
    assert Exec(EMPTY, steps).kids[i].alive == {};
  }

  /** The fleet of one listed child, and of one being stopped. */
  function Listed(key: Key, k: Kid): Fleet { Fleet(map[key := 0], [key], [k], Idle) }
  function BeingStopped(key: Key, k: Kid): Fleet { Fleet(map[], [key], [k], Stopping(0)) }

  /** A created child about to start its first process when the delete has read the command. */
  lemma LooksBeforeStart(key: Key)
    ensures Exec(EMPTY, [Create(key, DONE), Child(0, RunStep(true, false)), Child(0, RunStep(true, false)), Delete(key),
                         Child(0, StopStep(false))])
            == BeingStopped(key, Kid(Launch, Look(Some(1)), true, Some(1), 1, {}, {}, {}, {}, 0))
  {
    var run, stop := Child(0, RunStep(true, false)), Child(0, StopStep(false));
    var k := NEW_KID.(run := Launch, built := 1, cmd := Some(1));
    var k' := k.(stop := ReadCmd, stopClosed := true);
    ExecCons(EMPTY, Create(key, DONE), [run, run, Delete(key), stop]);
    ExecCons(Listed(key, NEW_KID), run, [run, Delete(key), stop]);
    ExecCons(Listed(key, NEW_KID.(run := Build)), run, [Delete(key), stop]);
    ExecCons(Listed(key, k), Delete(key), [stop]);
    ExecCons(BeingStopped(key, k'), stop, []);
    assert Next(EMPTY, Create(key, DONE)) == Listed(key, NEW_KID);
    assert Next(Listed(key, NEW_KID), run) == Listed(key, NEW_KID.(run := Build));
    assert Next(Listed(key, NEW_KID.(run := Build)), run) == Listed(key, k);
    assert Next(Listed(key, k), Delete(key)) == BeingStopped(key, k');
    assert Next(BeingStopped(key, k'), stop) == BeingStopped(key, k'.(stop := Look(Some(1))));
    assert [stop] + [] == [stop] && [Delete(key)] + [stop] == [Delete(key), stop];
    assert [run] + [Delete(key), stop] == [run, Delete(key), stop];
    assert [run] + [run, Delete(key), stop] == [run, run, Delete(key), stop];
    assert [Create(key, DONE)] + [run, run, Delete(key), stop] == [Create(key, DONE), run, run, Delete(key), stop];
  }

  /** So a delete that reads the command before Start can miss the one late process: the condition is met by a run. */
  lemma StopCanMissALateStart(key: Key)
    ensures exists steps, more ::
              var f := Exec(Exec(EMPTY, steps), more);
              && |f.kids| == 1 && f.ctl == Stopping(0) && Missed(f.kids[0])
              && f.kids[0].stop.WaitDone? && f.kids[0].alive == {1} && f.kids[0].startsAfterStop == 1
              && f.kids[0].signalled == {} && f.kids[0].killed == {}
  {
    var run, stop := Child(0, RunStep(true, false)), Child(0, StopStep(false));
    var steps := [Create(key, DONE), run, run, Delete(key), stop];
    LooksBeforeStart(key);
    var f, k := Exec(EMPTY, steps), Exec(EMPTY, steps).kids[0];
    ExecCons(f, stop, [run]);
    ExecCons(Next(f, stop), run, []);
    assert [stop] + [run] == [stop, run] && [run] + [] == [run];
    assert Next(f, stop).kids == [k.(stop := WaitDone)];
    var f' := Exec(f, [stop, run]);
    assert |f'.kids| == 1 && f'.kids[0].alive == {1};
    assert 1 in f'.kids[0].alive && Missed(f'.kids[0]);
  }
}
