/**
 Worktrees shared by sessions (agent.go): creating, joining, deleting, and the two-part restarts.

 Create and delete commands are handled one at a time. A restart, by a crash or a command, takes the
 session's state, waits for the new process, and then puts the session back; restarts may overlap,
 also two of one session.
 */
module WorktreesSpec {
  datatype Sess = Sess(worktree: string, branch: string, quotaManaged: bool)

  /** A restart under way, with the state it took. */
  datatype Restart = Restart(id: string, sess: Sess)

  /** Restarts are numbered in the order they begin; `begun` counts them. */
  datatype World = World(sessions: map<string, Sess>, dirs: set<string>, restarts: map<nat, Restart>, begun: nat)

  /** Which parts of a create succeed: adding the worktree, and everything after it up to the started process. */
  datatype CreateResult = CreateResult(added: bool, started: bool)

  datatype Step =
    | Create(id: string, sess: Sess, join: bool, result: CreateResult)
    | Delete(id: string, removed: bool)
    | RestartBegin(id: string)
    | RestartFinish(restart: nat, started: bool)

  predicate InUse(sessions: map<string, Sess>, slug: string) {
    exists id <- sessions :: sessions[id].worktree == slug
  }

  function HandleCreate(w: World, id: string, sess: Sess, join: bool, result: CreateResult): World {
    var collision := InUse(w.sessions, sess.worktree);
    if collision && !join then w
    else if !collision && !result.added then w
    else
      var w1 := if collision then w else w.(dirs := w.dirs + {sess.worktree});
      if result.started then w1.(sessions := w1.sessions[id := sess]) else w1
  }

  /** Worktrees of quota-managed sessions on schedule branches are kept. */
  predicate KeepsWorktree(s: Sess) { s.quotaManaged && "schedule/" <= s.branch }

  function HandleDelete(w: World, id: string, removed: bool): World {
    if id !in w.sessions then w
    else
      var s := w.sessions[id];
      var rest := w.sessions - {id};
      var w1 := w.(sessions := rest);
      if s.worktree != "" && !InUse(rest, s.worktree) && !KeepsWorktree(s) && removed
      then w1.(dirs := w.dirs - {s.worktree}) else w1
  }

  function BeginRestart(w: World, id: string): World {
    if id in w.sessions
    then w.(restarts := w.restarts[w.begun := Restart(id, w.sessions[id])], begun := w.begun + 1) else w
  }

  function FinishRestart(w: World, r: nat, started: bool): World {
    if r !in w.restarts then w
    else
      var w1 := w.(restarts := w.restarts - {r});
      if started then w1.(sessions := w.sessions[w.restarts[r].id := w.restarts[r].sess]) else w1
  }

  function Next(w: World, step: Step): World {
    match step
    case Create(id, sess, join, result) => if id in w.sessions then w else HandleCreate(w, id, sess, join, result)
    case Delete(id, removed) => HandleDelete(w, id, removed)
    case RestartBegin(id) => BeginRestart(w, id)
    case RestartFinish(r, started) => FinishRestart(w, r, started)
  }

  /** The state after the first `n` steps. */
  function At(w: World, steps: seq<Step>, n: nat): World
    requires n <= |steps|
  {
    if n == 0 then w else Next(At(w, steps, n - 1), steps[n - 1])
  }

  function Exec(w: World, steps: seq<Step>): World { At(w, steps, |steps|) }

  function Start(sessions: map<string, Sess>, dirs: set<string>): World { World(sessions, dirs, map[], 0) }

  // ---------------------------------------------------------------- one step

  /** Every tracked session's worktree exists. */
  predicate Housed(w: World) { forall id <- w.sessions :: w.sessions[id].worktree in w.dirs }

  /** The step puts a restarted session back. */
  predicate PutsBack(w: World, step: Step) { step.RestartFinish? && step.started && step.restart in w.restarts }

  /** If the step puts a session back, its worktree is still there. */
  predicate FindsWorktree(w: World, step: Step) {
    PutsBack(w, step) ==> w.restarts[step.restart].sess.worktree in w.dirs
  }

  /** A worktree is removed only when no tracked session uses it, whatever the step. */
  lemma RemovedOnlyUnused(w: World, step: Step, dir: string)
    requires dir in w.dirs && dir !in Next(w, step).dirs
    ensures !InUse(Next(w, step).sessions, dir)
  {}

  /** A newly tracked session of a create shares a worktree with a tracked one only if it asked to join. */
  lemma SharesOnlyByJoining(w: World, id: string, sess: Sess, join: bool, result: CreateResult)
    requires id !in w.sessions && id in Next(w, Create(id, sess, join, result)).sessions
    ensures InUse(w.sessions, sess.worktree) ==> join
    ensures Next(w, Create(id, sess, join, result)).sessions == w.sessions[id := sess]
  {}

  /** The create is for a new ID, and either adds its worktree or joins one in use; then its process starts. */
  predicate Tracks(w: World, step: Step, id: string, s: Sess) {
    && step.Create? && step.id == id && id !in w.sessions && s == step.sess && step.result.started
    && (if InUse(w.sessions, s.worktree) then step.join else step.result.added)
  }

  /** A session is tracked after a step as it was created or put back by it, or as before unless deleted or put back. */
  lemma TrackedIff(w: World, step: Step, id: string, s: Sess)
    ensures var putBack := PutsBack(w, step) && w.restarts[step.restart].id == id;
            var w' := Next(w, step);
            id in w'.sessions && w'.sessions[id] == s <==>
            || Tracks(w, step, id, s)
            || (putBack && w.restarts[step.restart].sess == s)
            || (id in w.sessions && w.sessions[id] == s && !putBack && !(step.Delete? && step.id == id))
  {}

  /** A restart is under way from the step that began it, with the state it took, to the step that finishes it. */
  lemma UnderWayIff(w: World, step: Step, r: nat, x: Restart)
    ensures var begins := step.RestartBegin? && step.id in w.sessions && r == w.begun;
            var w' := Next(w, step);
            && (r in w'.restarts && w'.restarts[r] == x <==>
                if begins then x == Restart(step.id, w.sessions[step.id])
                else r in w.restarts && w.restarts[r] == x && !(step.RestartFinish? && step.restart == r))
            && w'.begun == w.begun + if step.RestartBegin? && step.id in w.sessions then 1 else 0
  {}

  lemma HousedDelete(w: World, id: string, removed: bool)
    requires Housed(w)
    ensures Housed(HandleDelete(w, id, removed))
  {
    var w' := HandleDelete(w, id, removed);
    forall k <- w'.sessions ensures w'.sessions[k].worktree in w'.dirs {
      if w'.dirs != w.dirs { assert k in w.sessions - {id}; }
    }
  }

  /** Putting a restarted session back is the only step that can leave a session without its worktree. */
  lemma HousedStepIff(w: World, step: Step)
    requires Housed(w)
    ensures Housed(Next(w, step)) <==> FindsWorktree(w, step)
  {
    match step
    case Create(id, sess, join, result) =>
      if InUse(w.sessions, sess.worktree) { var k :| k in w.sessions && w.sessions[k].worktree == sess.worktree; }
    case Delete(id, removed) => HousedDelete(w, id, removed);
    case RestartBegin(id) =>
    case RestartFinish(r, started) =>
      if PutsBack(w, step) { assert Next(w, step).sessions[w.restarts[r].id] == w.restarts[r].sess; }
  }

  // ---------------------------------------------------------------- whole runs

  /** Every tracked session's worktree exists at every point of the run. */
  ghost predicate AlwaysHoused(w: World, steps: seq<Step>) {
    forall n: nat | n <= |steps| :: Housed(At(w, steps, n))
  }

  predicate FindsAt(w: World, steps: seq<Step>, j: nat)
    requires j < |steps|
  {
    FindsWorktree(At(w, steps, j), steps[j])
  }

  ghost predicate AllFind(w: World, steps: seq<Step>) { forall j: nat | j < |steps| :: FindsAt(w, steps, j) }

  lemma HousedOneMore(w: World, steps: seq<Step>, j: nat)
    requires j < |steps| && Housed(At(w, steps, j))
    ensures Housed(At(w, steps, j + 1)) <==> FindsAt(w, steps, j)
  {
    HousedStepIff(At(w, steps, j), steps[j]);
  }

  lemma {:induction false} HousedUpTo(w: World, steps: seq<Step>, n: nat)
    requires Housed(w) && n <= |steps| && AllFind(w, steps)
    ensures Housed(At(w, steps, n))
  {
    if n > 0 {
      HousedUpTo(w, steps, n - 1);
      HousedOneMore(w, steps, n - 1);
    }
  }

  /** The worktrees are always there exactly when every restart that puts a session back finds its worktree. */
  lemma HousedInRun(w: World, steps: seq<Step>)
    requires Housed(w)
    ensures AlwaysHoused(w, steps) <==> AllFind(w, steps)
  {
    if AllFind(w, steps) {
      forall n: nat | n <= |steps| ensures Housed(At(w, steps, n)) { HousedUpTo(w, steps, n); }
    }
    if AlwaysHoused(w, steps) {
      forall j: nat | j < |steps| ensures FindsAt(w, steps, j) { HousedOneMore(w, steps, j); }
    }
  }

  // ---------------------------------------------------------------- in events

  /** A delete, of its last user, that removes the worktree. */
  predicate Removes(w: World, step: Step, dir: string) {
    && step.Delete? && step.removed && step.id in w.sessions
    && w.sessions[step.id].worktree == dir != "" && !KeepsWorktree(w.sessions[step.id])
    && forall k <- w.sessions | k != step.id :: w.sessions[k].worktree != dir
  }

  /** A create that adds the worktree. */
  predicate Adds(w: World, step: Step, dir: string) {
    && step.Create? && step.id !in w.sessions && step.result.added
    && step.sess.worktree == dir && !InUse(w.sessions, dir)
  }

  /** The branches whose worktrees a delete leaves in place. */
  lemma KeptIff(s: Sess)
    ensures KeepsWorktree(s) <==> s.quotaManaged && exists rest :: s.branch == "schedule/" + rest
  {
    if "schedule/" <= s.branch { assert s.branch == "schedule/" + s.branch[|"schedule/"|..]; }
  }

  predicate RemovesAt(w: World, steps: seq<Step>, k: nat, dir: string) {
    k < |steps| && Removes(At(w, steps, k), steps[k], dir)
  }

  predicate AddsAt(w: World, steps: seq<Step>, k: nat, dir: string) {
    k < |steps| && Adds(At(w, steps, k), steps[k], dir)
  }

  lemma DirStep(w: World, step: Step, dir: string)
    ensures dir in Next(w, step).dirs <==> Adds(w, step, dir) || (dir in w.dirs && !Removes(w, step, dir))
  {
    if step.Delete? && step.id in w.sessions {
      var s, rest := w.sessions[step.id], w.sessions - {step.id};
      assert InUse(rest, s.worktree) <==> exists k <- w.sessions ::
          k != step.id && w.sessions[k].worktree == s.worktree by {
        if k :| k in w.sessions && k != step.id && w.sessions[k].worktree == s.worktree { assert k in rest; }
      }
    }
  }

  lemma DirAt(w: World, steps: seq<Step>, k: nat, dir: string)
    requires k < |steps|
    ensures dir in At(w, steps, k + 1).dirs <==>
            AddsAt(w, steps, k, dir) || (dir in At(w, steps, k).dirs && !RemovesAt(w, steps, k, dir))
  {
    DirStep(At(w, steps, k), steps[k], dir);
  }

  /** Between `a` and `b`, every removal of the worktree is followed by a create that adds it again. */
  ghost predicate Survives(w: World, steps: seq<Step>, a: nat, b: nat, dir: string) {
    forall k: nat | a <= k < b && RemovesAt(w, steps, k, dir) :: AddedBetween(w, steps, k, b, dir)
  }

  ghost predicate AddedBetween(w: World, steps: seq<Step>, k: nat, b: nat, dir: string) {
    exists m: nat :: k < m < b && AddsAt(w, steps, m, dir)
  }

  predicate HasDir(w: World, steps: seq<Step>, n: nat, dir: string) {
    n <= |steps| && dir in At(w, steps, n).dirs
  }

  lemma {:induction false} SurvivesIff(w: World, steps: seq<Step>, a: nat, b: nat, dir: string)
    requires a <= b <= |steps| && HasDir(w, steps, a, dir)
    ensures HasDir(w, steps, b, dir) <==> Survives(w, steps, a, b, dir)
  {
    if a < b {
      SurvivesIff(w, steps, a, b - 1, dir);
      SurvivesStep(w, steps, a, b, dir);
    }
  }

  lemma SurvivesStep(w: World, steps: seq<Step>, a: nat, b: nat, dir: string)
    requires a < b <= |steps| && (HasDir(w, steps, b - 1, dir) <==> Survives(w, steps, a, b - 1, dir))
    ensures HasDir(w, steps, b, dir) <==> Survives(w, steps, a, b, dir)
  {
    DirAt(w, steps, b - 1, dir);
    SurvivesOneMore(w, steps, a, b, dir);
  }

  lemma SurvivesOneMore(w: World, steps: seq<Step>, a: nat, b: nat, dir: string)
    requires a < b <= |steps|
    ensures Survives(w, steps, a, b, dir) <==>
            AddsAt(w, steps, b - 1, dir) || (Survives(w, steps, a, b - 1, dir) && !RemovesAt(w, steps, b - 1, dir))
  {
    if Survives(w, steps, a, b, dir) && !AddsAt(w, steps, b - 1, dir) {
      forall k: nat | a <= k < b - 1 && RemovesAt(w, steps, k, dir)
        ensures AddedBetween(w, steps, k, b - 1, dir)
      {
        var m: nat :| k < m < b && AddsAt(w, steps, m, dir);
      }
    }
    if Survives(w, steps, a, b - 1, dir) && !RemovesAt(w, steps, b - 1, dir) {
      forall k: nat | a <= k < b && RemovesAt(w, steps, k, dir)
        ensures AddedBetween(w, steps, k, b, dir)
      {
        var m: nat :| k < m < b - 1 && AddsAt(w, steps, m, dir);
      }
    }
  }

  /** Restart `r` begins at step `a`. */
  predicate BeginsAt(w: World, steps: seq<Step>, a: nat, r: nat) {
    && a < |steps| && steps[a].RestartBegin?
    && steps[a].id in At(w, steps, a).sessions && At(w, steps, a).begun == r
  }

  /** Restart `r` is under way before step `j`, with the state it took when it began at `a`. */
  predicate TakenAt(w: World, steps: seq<Step>, a: nat, j: nat, r: nat) {
    && a < j <= |steps| && BeginsAt(w, steps, a, r) && r in At(w, steps, j).restarts
    && At(w, steps, j).restarts[r] == Restart(steps[a].id, At(w, steps, a).sessions[steps[a].id])
  }

  lemma RestartsStep(w: World, step: Step, r: nat)
    requires r in Next(w, step).restarts
    ensures if step.RestartBegin? && step.id in w.sessions && r == w.begun
            then Next(w, step).restarts[r] == Restart(step.id, w.sessions[step.id])
            else r in w.restarts && Next(w, step).restarts[r] == w.restarts[r]
  {}

  lemma {:induction false} UnderWay(w: World, steps: seq<Step>, r: nat, j: nat) returns (a: nat)
    requires w.restarts == map[] && j <= |steps| && r in At(w, steps, j).restarts
    ensures TakenAt(w, steps, a, j, r)
  {
    assert j > 0;
    RestartsStep(At(w, steps, j - 1), steps[j - 1], r);
    if BeginsAt(w, steps, j - 1, r) {
      a := j - 1;
    } else {
      a := UnderWay(w, steps, r, j - 1);
    }
  }

  /** No step forgets how many restarts have begun, or takes up an ended one again. */
  lemma NumbersStep(w: World, step: Step, r: nat)
    ensures w.begun <= Next(w, step).begun
    ensures r < w.begun && r !in w.restarts ==> r !in Next(w, step).restarts
  {}

  lemma {:induction false} BegunGrows(w: World, steps: seq<Step>, a: nat, b: nat)
    requires a <= b <= |steps|
    ensures At(w, steps, a).begun <= At(w, steps, b).begun
  {
    if a < b {
      BegunGrows(w, steps, a, b - 1);
      NumbersStep(At(w, steps, b - 1), steps[b - 1], 0);
    }
  }

  lemma BeginsOnce(w: World, steps: seq<Step>, a: nat, b: nat, r: nat)
    requires BeginsAt(w, steps, a, r) && BeginsAt(w, steps, b, r)
    ensures a == b
  {
    if a < b { BegunGrows(w, steps, a + 1, b); }
    if b < a { BegunGrows(w, steps, b + 1, a); }
  }

  /** Restart `r` begins at `a` and puts its session back at `j`. */
  ghost predicate Spans(w: World, steps: seq<Step>, a: nat, j: nat, r: nat) {
    && a < j < |steps| && BeginsAt(w, steps, a, r)
    && steps[j] == RestartFinish(r, true) && r in At(w, steps, j).restarts
  }

  /** No restart that puts its session back loses the worktree to a delete in between. */
  ghost predicate NoneIsRemovedMeanwhile(w: World, steps: seq<Step>) {
    forall a: nat, j: nat, r: nat | Spans(w, steps, a, j, r) ::
      Survives(w, steps, a, j, At(w, steps, a).sessions[steps[a].id].worktree)
  }

  lemma FindsIffSurvives(w: World, steps: seq<Step>, j: nat) returns (a: nat)
    requires w.restarts == map[] && j < |steps| && PutsBack(At(w, steps, j), steps[j])
    requires forall n: nat | n <= j :: Housed(At(w, steps, n))
    ensures Spans(w, steps, a, j, steps[j].restart)
    ensures FindsAt(w, steps, j) <==>
            Survives(w, steps, a, j, At(w, steps, a).sessions[steps[a].id].worktree)
  {
    a := UnderWay(w, steps, steps[j].restart, j);
    assert Housed(At(w, steps, a));
    SurvivesIff(w, steps, a, j, At(w, steps, a).sessions[steps[a].id].worktree);
  }

  lemma SurvivorFinds(w: World, steps: seq<Step>, j: nat)
    requires w.restarts == map[] && j < |steps| && NoneIsRemovedMeanwhile(w, steps)
    requires forall n: nat | n <= j :: Housed(At(w, steps, n))
    ensures FindsAt(w, steps, j)
  {
    if PutsBack(At(w, steps, j), steps[j]) {
      var a := FindsIffSurvives(w, steps, j);
    }
  }

  lemma {:induction false} SurvivorsAreHoused(w: World, steps: seq<Step>, n: nat)
    requires Housed(w) && w.restarts == map[] && n <= |steps| && NoneIsRemovedMeanwhile(w, steps)
    ensures forall i: nat | i <= n :: Housed(At(w, steps, i))
  {
    if n == 0 {
    } else {
      SurvivorsAreHoused(w, steps, n - 1);
      SurvivorFinds(w, steps, n - 1);
      HousedOneMore(w, steps, n - 1);
    }
  }

  /**
   Every tracked session's worktree exists at every point of a run, if and only if no restart that puts its
   session back lost the worktree, between its beginning and its end, to a delete of the last user that
   no create made good.
   */
  lemma HousedIffNoneIsRemovedMeanwhile(w: World, steps: seq<Step>)
    requires Housed(w) && w.restarts == map[]
    ensures AlwaysHoused(w, steps) <==> NoneIsRemovedMeanwhile(w, steps)
  {
    if NoneIsRemovedMeanwhile(w, steps) { SurvivorsAreHoused(w, steps, |steps|); }
    if AlwaysHoused(w, steps) {
      HousedInRun(w, steps);
      forall a: nat, j: nat, r: nat | Spans(w, steps, a, j, r)
        ensures Survives(w, steps, a, j, At(w, steps, a).sessions[steps[a].id].worktree)
      {
        var b := FindsIffSurvives(w, steps, j);
        BeginsOnce(w, steps, a, b, r);
      }
    }
  }

  /** Each restart is one step: the step after its beginning is its end. */
  ghost predicate WholeRestarts(w: World, steps: seq<Step>) {
    forall a: nat, r: nat | BeginsAt(w, steps, a, r) && a + 1 < |steps| ::
      steps[a + 1].RestartFinish? && steps[a + 1].restart == r
  }

  lemma {:induction false} EndedForGood(w: World, steps: seq<Step>, r: nat, i: nat, j: nat)
    requires i <= j <= |steps| && r < At(w, steps, i).begun && r !in At(w, steps, i).restarts
    ensures r !in At(w, steps, j).restarts
  {
    if i < j {
      EndedForGood(w, steps, r, i, j - 1);
      BegunGrows(w, steps, i, j - 1);
      NumbersStep(At(w, steps, j - 1), steps[j - 1], r);
    }
  }

  /** With each handler and each restart as one step, every tracked session's worktree exists in every run. */
  lemma HousedWithWholeRestarts(w: World, steps: seq<Step>)
    requires Housed(w) && w.restarts == map[] && WholeRestarts(w, steps)
    ensures AlwaysHoused(w, steps)
  {
    forall a: nat, j: nat, r: nat | Spans(w, steps, a, j, r)
      ensures Survives(w, steps, a, j, At(w, steps, a).sessions[steps[a].id].worktree)
    {
      if a + 1 < j { EndedForGood(w, steps, r, a + 2, j); }
      assert j == a + 1;
    }
    HousedIffNoneIsRemovedMeanwhile(w, steps);
  }

  /** A delete during a restart brings back a session whose worktree is gone. */
  lemma DeleteDuringRestartStrands(id: string, sess: Sess)
    requires sess.worktree != "" && !KeepsWorktree(sess)
    ensures exists steps ::
              var w := Exec(Start(map[], {}), steps); id in w.sessions && w.sessions[id] == sess && !Housed(w)
  {
    var w, create := Start(map[], {}), Create(id, sess, false, CreateResult(true, true));
    var steps := [create, RestartBegin(id), Delete(id, true), RestartFinish(0, true)];
    assert !InUse(map[], sess.worktree);
    assert At(w, steps, 1) == Start(map[id := sess], {sess.worktree});
    assert At(w, steps, 2) == World(map[id := sess], {sess.worktree}, map[0 := Restart(id, sess)], 1);
    assert !InUse(map[id := sess] - {id}, sess.worktree);
    assert At(w, steps, 3).dirs == {} && At(w, steps, 3).restarts == map[0 := Restart(id, sess)];
    assert id in Exec(w, steps).sessions;
  }
}
