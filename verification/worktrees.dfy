/** The agent's session map and worktree directories as an object, tied to WorktreesSpec. */
module Worktrees {
  import opened WorktreesSpec

  class Agent {
    var sessions: map<string, Sess>
    var dirs: set<string>
    var restarts: map<nat, Restart>
    var begun: nat

    constructor (sessions: map<string, Sess>, dirs: set<string>)
      ensures View() == Start(sessions, dirs)
    {
      this.sessions, this.dirs, restarts, begun := sessions, dirs, map[], 0;
    }

    function View(): World
      reads this
    {
      World(sessions, dirs, restarts, begun)
    }

    method WorktreeInUse(slug: string) returns (used: bool)
      ensures used == InUse(sessions, slug)
    {
      var todo := sessions.Keys;
      while todo != {}
        invariant todo <= sessions.Keys
        invariant forall id <- sessions | id !in todo :: sessions[id].worktree != slug
        decreases todo
      {
        var id :| id in todo;
        if sessions[id].worktree == slug { return true; }
        todo := todo - {id};
      }
      return false;
    }

    /** A fresh session ID, a derived slug; `ok` tells whether the session is now tracked. */
    method HandleCreate(id: string, sess: Sess, join: bool, result: CreateResult) returns (ok: bool)
      requires id !in sessions
      modifies this
      ensures View() == WorktreesSpec.HandleCreate(old(View()), id, sess, join, result) && ok == (id in sessions)
      ensures ok && old(InUse(sessions, sess.worktree)) ==> join
    {
      var collision := WorktreeInUse(sess.worktree);
      if collision && !join { return false; }
      if !collision {
        if !result.added { return false; }
        dirs := dirs + {sess.worktree};
      }
      if !result.started { return false; }
      sessions := sessions[id := sess];
      return true;
    }

    method HandleDelete(id: string, removed: bool) returns (ok: bool)
      modifies this
      ensures View() == WorktreesSpec.HandleDelete(old(View()), id, removed) && ok == (id in old(sessions))
      ensures forall dir <- old(dirs) | dir !in dirs :: !InUse(sessions, dir)
    {
      if id !in sessions { return false; }
      var sess := sessions[id];
      sessions := sessions - {id};
      if sess.worktree != "" {
        var used := WorktreeInUse(sess.worktree);
        var skipRemoval := sess.quotaManaged && "schedule/" <= sess.branch;
        if !used && !skipRemoval {
          if removed { dirs := dirs - {sess.worktree}; }
        }
      }
      return true;
    }

    /** The first half of a restart: the session's state is taken before the new process is started. */
    method RestartBegin(id: string) returns (r: nat)
      requires id in sessions
      modifies `restarts, `begun
      ensures r == old(begun) && View() == BeginRestart(old(View()), id)
    {
      r := begun;
      restarts := restarts[r := Restart(id, sessions[id])];
      begun := begun + 1;
    }

    /** The second half: the new process is up, or failed to start. */
    method RestartFinish(r: nat, started: bool)
      requires r in restarts
      modifies `sessions, `restarts
      ensures View() == FinishRestart(old(View()), r, started)
    {
      var Restart(id, sess) := restarts[r];
      restarts := restarts - {r};
      if started { sessions := sessions[id := sess]; }
    }

    method Perform(step: Step)
      modifies this
      ensures View() == Next(old(View()), step)
    {
      match step
      case Create(id, sess, join, result) => if id !in sessions { var _ := HandleCreate(id, sess, join, result); }
      case Delete(id, removed) => var _ := HandleDelete(id, removed);
      case RestartBegin(id) => if id in sessions { var _ := RestartBegin(id); }
      case RestartFinish(r, started) => if r in restarts { RestartFinish(r, started); }
    }

    /**
     Any schedule from a start without restarts; if no restart lost its worktree meanwhile, each session has its
     own.
     */
    method Run(schedule: seq<Step>)
      requires View() == Start(sessions, dirs)
      modifies this
      ensures View() == Exec(old(View()), schedule)
      ensures old(Housed(View())) && NoneIsRemovedMeanwhile(old(View()), schedule) ==>
                forall id <- sessions :: sessions[id].worktree in dirs
    {
      ghost var start := View();
      for i := 0 to |schedule|
        invariant View() == At(start, schedule, i)
      {
        Perform(schedule[i]);
      }
      if Housed(start) && NoneIsRemovedMeanwhile(start, schedule) {
        HousedIffNoneIsRemovedMeanwhile(start, schedule);
      }
    }
  }
}
