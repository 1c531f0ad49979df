/**
 The agent's recovery fields and the methods that update them, `recoverSessions` and
 `clearUpdatingState` (agent.go). Process starts are the `resumed` argument.
 */
module SessionRecovery {
  import opened Spec = SessionRecoverySpec

  class Agent {
    const me: Me
    var sessKV: map<Key, Entry>
    var sessions: map<string, Entry>
    var pendingUpdatingIDs: map<string, Entry>

    function View(): World
      reads this
    {
      World(sessKV, sessions, pendingUpdatingIDs)
    }

    constructor (me: Me, kv: map<Key, Entry>)
      ensures this.me == me && View() == Exec(kv, me, [])
    {
      this.me := me;
      sessKV, sessions, pendingUpdatingIDs := kv, map[], map[];
    }

    method WriteSessionKV(st: Entry)
      modifies `sessKV
      ensures sessKV == old(sessKV)[KeyOf(me, st) := st]
    {
      sessKV := sessKV[KeyOf(me, st) := st];
    }

    method RecoverOne(entry: Entry, resumed: bool)
      modifies this
      ensures View() == RecoverEntry(old(View()), me, entry, resumed)
    {
      if entry.projectID != me.projectID || entry.id == "" { return; }
      var wasUpdating := entry.state == Updating;
      var st := entry.(state := Restarting);
      if wasUpdating { pendingUpdatingIDs := pendingUpdatingIDs[st.id := st]; }
      if !wasUpdating { WriteSessionKV(st); }
      if !resumed { return; }
      sessions := sessions[st.id := st];
    }

    /** The watcher delivers the stored entries in some order; the sessions in `resumes` start. */
    method RecoverSessions(order: seq<Key>, resumes: set<Key>) returns (ghost steps: seq<Step>)
      requires View() == Exec(sessKV, me, [])
      requires forall key <- order :: key in sessKV && Watched(me, key)
      modifies this
      ensures steps == seq(|order|, i requires 0 <= i < |order| => Recover(order[i], order[i] in resumes))
      ensures View() == Exec(old(sessKV), me, steps)
    {
      var stored := sessKV;
      steps := [];
      for i := 0 to |order|
        invariant |steps| == i && forall k | 0 <= k < i :: steps[k] == Recover(order[k], order[k] in resumes)
        invariant View() == Exec(stored, me, steps)
      {
        RecoverOne(stored[order[i]], order[i] in resumes);
        ghost var after := steps + [Recover(order[i], order[i] in resumes)];
        assert after[..|after| - 1] == steps;
        steps := after;
      }
    }

    /** Write one state as idle and take its ID off the pending map. */
    method ClearOne(id: string, st: Entry) returns (written: Entry)
      modifies `sessKV, `pendingUpdatingIDs
      ensures written == st.(state := Idle)
      ensures View() == World(old(sessKV)[KeyOf(me, written) := written], sessions, old(pendingUpdatingIDs) - {id})
    {
      written := st.(state := Idle);
      WriteSessionKV(written);
      pendingUpdatingIDs := pendingUpdatingIDs - {id};
    }

    /** Clear the resumed sessions first, then those that never came back. */
    method ClearUpdatingState() returns (writes: seq<Entry>)
      requires FiledByID(sessions) && FiledByID(pendingUpdatingIDs)
      modifies `sessKV, `pendingUpdatingIDs
      ensures ClearedBy(me, old(View()), View(), writes)
    {
      ghost var w, done := View(), {};
      writes, done := ClearResumed(w);
      while pendingUpdatingIDs != map[]
        invariant Partway(me, w, done, writes, View()) && pendingUpdatingIDs.Keys !! sessions.Keys
        decreases pendingUpdatingIDs.Keys
      {
        var id :| id in pendingUpdatingIDs;
        ClearOneMore(me, w, done, writes, View(), id);
        var st := ClearOne(id, pendingUpdatingIDs[id]);
        writes, done := writes + [st], done + {id};
      }
      AllCleared(me, w, done, writes, View());
    }

    /** The first pass. */
    method ClearResumed(ghost w: World) returns (writes: seq<Entry>, ghost done: set<string>)
      requires FiledByID(sessions) && FiledByID(pendingUpdatingIDs) && w == View()
      modifies `sessKV, `pendingUpdatingIDs
      ensures Partway(me, w, done, writes, View()) && pendingUpdatingIDs.Keys !! sessions.Keys
    {
      writes, done := [], {};
      var ids := sessions.Keys;
      while ids != {}
        invariant Partway(me, w, done, writes, View()) && ids <= sessions.Keys
        invariant forall id <- pendingUpdatingIDs | id in sessions :: id in ids
        decreases ids
      {
        var id :| id in ids;
        ids := ids - {id};
        if id in pendingUpdatingIDs {
          ClearOneMore(me, w, done, writes, View(), id);
          var st := ClearOne(id, sessions[id]);
          writes, done := writes + [st], done + {id};
        }
      }
    }
  }
}
