/** The supervised child and the controller's child map as objects, tied to SupervisionSpec. */
module Supervision {
  import opened Basics
  import opened SupervisionSpec

  class SupervisedChild {
    var run: RunPc
    var stop: StopPc
    var stopClosed: bool
    var cmd: Option<nat>
    var built: nat
    var alive: set<nat>
    var started: set<nat>
    ghost var signalled: set<nat>
    ghost var killed: set<nat>
    ghost var startsAfterStop: nat

    constructor ()
      ensures View() == NEW_KID
    {
      run, stop, stopClosed, cmd, built := Check, NotCalled, false, None, 0;
      alive, started, signalled, killed, startsAfterStop := {}, {}, {}, {}, 0;
    }

    ghost function View(): Kid
      reads this
    {
      Kid(run, stop, stopClosed, cmd, built, started, alive, signalled, killed, startsAfterStop)
    }

    /** The next atomic piece of `run`. */
    method RunStep(startOk: bool, timerFirst: bool)
      modifies this
      ensures View() == RunNext(old(View()), startOk, timerFirst)
    {
      match run
      case Check =>
        run := if stopClosed then Exited else Build;
      case Build =>
        built := built + 1;
        cmd := Some(built);
        run := Launch;
      case Launch =>
        if startOk {
          started := started + {built};
          alive := alive + {built};
          if stopClosed { startsAfterStop := startsAfterStop + 1; }
          run := Wait;
        } else {
          run := Clear;
        }
      case Wait =>
        if built !in alive { run := Clear; }
      case Clear =>
        cmd := None;
        run := Delay;
      case Delay =>
        if stopClosed && !timerFirst { run := Exited; } else if timerFirst { run := Check; }
      case Exited =>
    }

    /** The next atomic piece of `stop`. */
    method StopStep(timerFirst: bool)
      modifies this
      ensures View() == StopNext(old(View()), timerFirst)
    {
      match stop
      case NotCalled =>
        stopClosed := true;
        stop := ReadCmd;
      case ReadCmd =>
        stop := Look(cmd);
      case Look(seen) =>
        if seen.Some? && seen.value in started {
          signalled := signalled + {seen.value};
          stop := Grace(seen.value);
        } else {
          stop := WaitDone;
        }
      case Grace(target) =>
        if run == Exited && !timerFirst {
          stop := Returned;
        } else if timerFirst {
          killed := killed + {target};
          stop := WaitDone;
        }
      case WaitDone =>
        if run == Exited { stop := Returned; }
      case Returned =>
    }

    method Perform(step: KidStep)
      modifies this
      ensures View() == KidNext(old(View()), step)
    {
      match step
      case RunStep(startOk, timerFirst) => RunStep(startOk, timerFirst);
      case StopStep(timerFirst) => StopStep(timerFirst);
      case Die(p) => alive := alive - {p};
      case CloseStop => stopClosed := true;
    }
  }

  /** The child map; `kids` holds every child ever started, in order. */
  class Controller {
    var children: map<Key, nat>
    var keys: seq<Key>
    var kids: seq<SupervisedChild>
    var ctl: Ctl

    constructor ()
      ensures Valid() && View() == EMPTY && fresh(kids)
    {
      children, keys, kids, ctl := map[], [], [], Idle;
    }

    ghost predicate Valid()
      reads this
    {
      && |keys| == |kids|
      && (forall i, j | 0 <= i < j < |kids| :: kids[i] != kids[j])
      && (forall key <- children :: children[key] < |kids|)
    }

    ghost function View(): Fleet
      reads this, kids
    {
      Fleet(children, keys, seq(|kids|, i requires 0 <= i < |kids| reads this, kids => kids[i].View()), ctl)
    }

    method HandleCreate(key: Key, setup: Setup) returns (reply: Reply)
      requires Valid()
      modifies this
      ensures Valid() && fresh(set k <- kids | k !in old(kids))
      ensures View() == SupervisionSpec.HandleCreate(old(View()), key, setup)
      ensures reply == CreateReply(old(View()), key, setup)
    {
      if !setup.valid { return InvalidPayload; }
      if !setup.dirMade { return FilesystemError; }
      if key in children { return Accepted; }
      if !setup.cloned { return GitCloneFailed; }
      var child := new SupervisedChild();
      children := children[key := |kids|];
      keys := keys + [key];
      kids := kids + [child];
      assert View().kids == old(View()).kids + [NEW_KID];
      return Accepted;
    }

    method HandleDelete(key: Key)
      requires Valid()
      modifies this, kids
      ensures Valid() && kids == old(kids)
      ensures View() == SupervisionSpec.HandleDelete(old(View()), key)
    {
      if key in children {
        var i := children[key];
        children := children - {key};
        kids[i].StopStep(false);
        ctl := Stopping(i);
      }
    }

    /** A message, the return of a `stop`, or the next piece of one child, as the scheduler picks it. */
    method Perform(step: Step)
      requires Valid() && FleetOk(View())
      modifies this, kids
      ensures Valid() && fresh(set k <- kids | k !in old(kids))
      ensures View() == Next(old(View()), step) && FleetOk(View())
    {
      FleetOkStep(View(), step);
      match step
      case Create(key, setup) => if ctl == Idle { var _ := HandleCreate(key, setup); }
      case Delete(key) => if ctl == Idle { HandleDelete(key); }
      case StopReturned =>
        if ctl.Stopping? && ctl.child < |kids| && kids[ctl.child].stop == Returned { ctl := Idle; }
      case Child(i, s) =>
        if i < |kids| && (s.StopStep? ==> ctl == Stopping(i)) { PerformChild(i, s); }
    }

    method PerformChild(i: nat, step: KidStep)
      requires Valid() && i < |kids|
      modifies kids[i]
      ensures View() == old(View()).(kids := old(View()).kids[i := KidNext(old(View()).kids[i], step)])
    {
      kids[i].Perform(step);
    }

    /** Any schedule from an empty map: the run of the laws, so two live processes of one key are one process. */
    method Run(schedule: seq<Step>)
      requires Valid() && View() == EMPTY
      modifies this, kids
      ensures Valid() && View() == Exec(EMPTY, schedule)
      ensures forall i, j | 0 <= i < |kids| && 0 <= j < |kids| && keys[i] == keys[j] ::
                forall p, q | p in kids[i].alive && q in kids[j].alive :: i == j && p == q
    {
      for n := 0 to |schedule|
        invariant Valid() && fresh(set k <- kids | k !in old(kids))
        invariant View() == Exec(EMPTY, schedule[..n]) && FleetOk(View())
      {
        assert schedule[..n + 1] == schedule[..n] + [schedule[n]];
        ExecAppend(EMPTY, schedule[..n], schedule[n]);
        Perform(schedule[n]);
      }
      assert schedule[..|schedule|] == schedule;
      forall i: nat, j: nat, p, q |
        i < |kids| && j < |kids| && keys[i] == keys[j] && p in kids[i].alive && q in kids[j].alive
        ensures i == j && p == q
      {
        assert View().kids[i].alive == kids[i].alive && View().kids[j].alive == kids[j].alive;
        AtMostOneProcessPerKey(schedule, i, p, j, q);
      }
    }
  }
}
