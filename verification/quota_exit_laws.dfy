/** When leaving through `doneCh` closes a stop channel that `stop` has closed before, which panics. */
module QuotaExitLaws {
  import opened QuotaSpec
  import opened QuotaLaws

  ghost predicate StopBefore(steps: seq<Step>, j: nat) { exists i: nat :: i < j && i < |steps| && steps[i].Stop? }

  /** Step `j` is the monitor's exit through `doneCh`. */
  predicate LeavesAt(cfg: Config, steps: seq<Step>, j: nat) {
    j < |steps| && steps[j].SelectDone? && Exec(cfg, steps[..j]).phase.Selecting? && Exec(cfg, steps[..j]).router.Gone?
  }

  lemma ClosedStep(w: World, step: Step)
    ensures var w' := Next(w, step);
            var leaves := step.SelectDone? && w.phase.Selecting? && w.router.Gone?;
            && (w'.ch.stopClosed <==> w.ch.stopClosed || step.Stop? || leaves)
            && (w'.phase.Left? && w'.phase.viaDone <==> (w.phase.Left? && w.phase.viaDone) || leaves)
            && (w'.phase == Left(true, true) <==> w.phase == Left(true, true) || (leaves && w.ch.stopClosed))
  {}

  /** Before the monitor leaves, the stop channel is closed exactly when `stop` was called. */
  lemma {:induction false} ClosedIff(cfg: Config, steps: seq<Step>)
    ensures var w := Exec(cfg, steps);
            w.ch.stopClosed <==> StopBefore(steps, |steps|) || (w.phase.Left? && w.phase.viaDone)
  {
    if steps != [] {
      var init, last := steps[..|steps| - 1], steps[|steps| - 1];
      ClosedIff(cfg, init);
      ClosedStep(Exec(cfg, init), last);
      assert StopBefore(steps, |steps|) <==> StopBefore(init, |init|) || last.Stop? by {
        StopBeforeInit(steps, |init|);
      }
    }
  }

  lemma StopBeforeInit(steps: seq<Step>, j: nat)
    requires j < |steps|
    ensures StopBefore(steps, j) <==> StopBefore(steps[..j], j)
    ensures StopBefore(steps, j + 1) <==> StopBefore(steps, j) || steps[j].Stop?
  {
    assert forall i: nat | i < j :: steps[..j][i] == steps[i];
  }

  /** In every run the monitor panics exactly when it leaves through `doneCh` after `stop` was called. */
  lemma {:induction false} PanicsIff(cfg: Config, steps: seq<Step>)
    ensures Exec(cfg, steps).phase == Left(true, true) <==>
            exists j: nat :: LeavesAt(cfg, steps, j) && StopBefore(steps, j)
  {
    if steps != [] {
      var init, last := steps[..|steps| - 1], steps[|steps| - 1];
      var w := Exec(cfg, init);
      PanicsIff(cfg, init);
      ClosedIff(cfg, init);
      ClosedStep(w, last);
      forall j: nat | j < |init|
        ensures LeavesAt(cfg, steps, j) && StopBefore(steps, j) <==> LeavesAt(cfg, init, j) && StopBefore(init, j)
      {
        assert init[..j] == steps[..j];
        StopBeforeInit(steps, j);
        StopBeforeInit(init, j);
      }
      StopBeforeInit(steps, |init|);
      assert steps[..|init|] == init;
    }
  }

  /** The four-step run of a session whose process ends just after it was deleted. */
  lemma StopThenExitPanics(cfg: Config)
    ensures Exec(cfg, [Drain, RouterExit, Stop, SelectDone]).phase == Left(true, true)
  {
    ExecAppend(cfg, [], Drain);
    ExecAppend(cfg, [Drain], RouterExit);
    ExecAppend(cfg, [Drain, RouterExit], Stop);
    ExecAppend(cfg, [Drain, RouterExit, Stop], SelectDone);
    assert [] + [Drain] == [Drain];
    assert [Drain] + [RouterExit] == [Drain, RouterExit];
    assert [Drain, RouterExit] + [Stop] == [Drain, RouterExit, Stop];
    assert [Drain, RouterExit, Stop] + [SelectDone] == [Drain, RouterExit, Stop, SelectDone];
  }
}
