/** What the store, the tracked sessions and the pending map hold after recovery, entry by entry. */
module RecoveryOutcomeLaws {
  import opened SessionRecoverySpec

  /** An entry's key is made of its own slugs. */
  lemma FullSlugsAreTheKey(me: Me, e: Entry)
    requires e.slugs.host != "" && e.slugs.project != "" && e.slugs.session != ""
    ensures KeyOf(me, e) == Key(e.slugs.host, e.slugs.project, e.slugs.session)
  {}

  /** Each slug that is missing falls back on its own: to the agent's host and project, to the session's ID. */
  lemma MissingSlugsFallBack(me: Me, id: string, projectID: string, state: Status, h: string, p: string, s: string)
    ensures KeyOf(me, Entry(id, projectID, Slugs("", p, s), state)) ==
            KeyOf(me, Entry(id, projectID, Slugs(me.host, p, s), state))
    ensures KeyOf(me, Entry(id, projectID, Slugs(h, "", s), state)) ==
            KeyOf(me, Entry(id, projectID, Slugs(h, me.project, s), state))
    ensures KeyOf(me, Entry(id, projectID, Slugs(h, p, ""), state)) ==
            KeyOf(me, Entry(id, projectID, Slugs(h, p, id), state))
  {}

  /** The agent recovers what is stored under its host and its project slug, with its project ID and a session ID. */
  lemma MineIff(me: Me, snap: map<Key, Entry>, k: Key)
    ensures Mine(me, snap, k) <==>
            && k in snap && k == Key(me.host, me.project, k.session)
            && snap[k] == Entry(snap[k].id, me.projectID, snap[k].slugs, snap[k].state) && |snap[k].id| > 0
  {}

  /** Everything else is passed over. */
  lemma ForeignEntryIsPassedOver(snap: map<Key, Entry>, me: Me, w: World, k: Key, resumed: bool)
    requires || k !in snap || k.host != me.host || k.project != me.project
             || snap[k].projectID != me.projectID || snap[k].id == ""
    ensures Next(snap, me, w, Recover(k, resumed)) == w
  {}

  /** Every recovered entry is under its own key. */
  ghost predicate UnderOwnKeys(snap: map<Key, Entry>, me: Me) {
    forall k <- snap | Mine(me, snap, k) :: KeyOf(me, snap[k]) == k
  }

  predicate OnlyRecovers(steps: seq<Step>) { forall i | 0 <= i < |steps| :: steps[i].Recover? }

  function WithState(e: Entry, state: Status): Entry { Entry(e.id, e.projectID, e.slugs, state) }

  /** Some step recovered this key, and its session started. */
  predicate ResumedBy(steps: seq<Step>, k: Key) { exists i | 0 <= i < |steps| :: steps[i] == Recover(k, true) }

  /**
   The recovered entries show "restarting", but for the updating ones, which show what they did; others are
   untouched.
   */
  lemma {:induction false} StoreAfterRecovery(snap: map<Key, Entry>, me: Me, steps: seq<Step>, k: Key)
    requires UnderOwnKeys(snap, me) && OnlyRecovers(steps)
    ensures var kv := Exec(snap, me, steps).kv;
            && (k in kv <==> k in snap)
            && (k in snap ==> kv[k] == if Mine(me, snap, k) && k in Done(steps) && !snap[k].state.Updating?
                                       then WithState(snap[k], Restarting) else snap[k])
  {
    if steps != [] {
      var init, last := steps[..|steps| - 1], steps[|steps| - 1];
      assert OnlyRecovers(init);
      assert last.Recover?;
      StoreAfterRecovery(snap, me, init, k);
    }
  }

  /** Pending are exactly the updating entries recovered so far, as "restarting". */
  lemma {:induction false} PendingAfterRecovery(snap: map<Key, Entry>, me: Me, steps: seq<Step>, id: string, e: Entry)
    requires Distinct(snap, me) && OnlyRecovers(steps)
    ensures var p := Exec(snap, me, steps).pending;
            id in p && p[id] == e <==>
            exists k :: k in Done(steps) && Mine(me, snap, k) && snap[k].id == id && snap[k].state.Updating?
                        && e == WithState(snap[k], Restarting)
  {
    if steps != [] {
      var init, last := steps[..|steps| - 1], steps[|steps| - 1];
      assert OnlyRecovers(init);
      PendingAfterRecovery(snap, me, init, id, e);
      assert last.Recover?;
      if Mine(me, snap, last.key) && snap[last.key].id == id && snap[last.key].state.Updating? {
        PendingAfterRecovery(snap, me, init, id, WithState(snap[last.key], Restarting));
      }
    }
  }

  /** Tracked are exactly the recovered entries whose sessions started, as "restarting". */
  lemma {:induction false} TrackedAfterRecovery(snap: map<Key, Entry>, me: Me, steps: seq<Step>, id: string, e: Entry)
    requires Distinct(snap, me) && OnlyRecovers(steps)
    ensures var t := Exec(snap, me, steps).sessions;
            id in t && t[id] == e <==>
            exists k :: ResumedBy(steps, k) && Mine(me, snap, k) && snap[k].id == id
                && e == WithState(snap[k], Restarting)
  {
    if steps != [] {
      var init, last := steps[..|steps| - 1], steps[|steps| - 1];
      assert OnlyRecovers(init);
      TrackedAfterRecovery(snap, me, init, id, e);
      assert last.Recover?;
      forall k
        ensures ResumedBy(steps, k) <==> ResumedBy(init, k) || last == Recover(k, true)
      {
        ResumedLast(steps, k);
      }
    }
  }

  lemma ResumedLast(steps: seq<Step>, k: Key)
    requires steps != []
    ensures ResumedBy(steps, k) <==> ResumedBy(steps[..|steps| - 1], k) || steps[|steps| - 1] == Recover(k, true)
  {
    var init := steps[..|steps| - 1];
    assert forall i | 0 <= i < |init| :: init[i] == steps[i];
  }

  /**
   A live session's report is stored under its key, tracked, and changes nothing else; one of an untracked ID
   is ignored.
   */
  lemma FlushOutcome(snap: map<Key, Entry>, me: Me, w: World, id: string, state: Status)
    ensures var w' := Next(snap, me, w, Flush(id, state));
            if id !in w.sessions then w' == w
            else
              var e := WithState(w.sessions[id], state);
              w' == World(w.kv[KeyOf(me, e) := e], w.sessions[id := e], w.pending)
  {}

  /** Clearing turns exactly the pending sessions' keys to "idle", keeping the rest of each entry. */
  lemma StoreAfterClearing(snap: map<Key, Entry>, me: Me, steps: seq<Step>, w': World, writes: seq<Entry>, k: Key)
    requires UnderOwnKeys(snap, me) && Distinct(snap, me) && OnlyRecovers(steps)
    requires forall k <- snap | Watched(me, k) :: k in Done(steps)
    requires ClearedBy(me, Exec(snap, me, steps), w', writes)
    ensures k in w'.kv <==> k in snap
    ensures k in snap && !Mine(me, snap, k) ==> w'.kv[k] == snap[k]
    ensures Mine(me, snap, k) && snap[k].state.Updating? ==> w'.kv[k] == WithState(snap[k], Idle)
    ensures Mine(me, snap, k) && !snap[k].state.Updating? ==> w'.kv[k] == WithState(snap[k], Restarting)
  {
    var w := Exec(snap, me, steps);
    StoreAfterRecovery(snap, me, steps, k);
    forall i | 0 <= i < |writes|
      ensures exists id <- w.pending :: writes[i] == Cleared(w, id)
    {
      assert multiset(writes)[writes[i]] > 0;
    }
    forall i | 0 <= i < |writes|
      ensures exists j :: Mine(me, snap, j) && snap[j].state.Updating? && writes[i] == WithState(snap[j], Idle)
    {
      var id :| id in w.pending && writes[i] == Cleared(w, id);
      ClearedIsIdle(snap, me, steps, id);
    }
    if Mine(me, snap, k) && snap[k].state.Updating? {
      PendingAfterRecovery(snap, me, steps, snap[k].id, WithState(snap[k], Restarting));
      ClearedIsIdle(snap, me, steps, snap[k].id);
      assert multiset(writes)[Cleared(w, snap[k].id)] == 1;
      assert WithState(snap[k], Idle) in writes;
    }
    WrittenAt(snap, me, w.kv, writes, k);
  }

  lemma ClearedIsIdle(snap: map<Key, Entry>, me: Me, steps: seq<Step>, id: string)
    requires Distinct(snap, me) && OnlyRecovers(steps) && id in Exec(snap, me, steps).pending
    ensures exists j :: Mine(me, snap, j) && snap[j].id == id && snap[j].state.Updating?
                        && Cleared(Exec(snap, me, steps), id) == WithState(snap[j], Idle)
  {
    var w := Exec(snap, me, steps);
    PendingAfterRecovery(snap, me, steps, id, w.pending[id]);
    var j :| j in Done(steps) && Mine(me, snap, j) && snap[j].id == id && snap[j].state.Updating?
             && w.pending[id] == WithState(snap[j], Restarting);
    if id in w.sessions {
      TrackedAfterRecovery(snap, me, steps, id, w.sessions[id]);
      var k :| ResumedBy(steps, k) && Mine(me, snap, k) && snap[k].id == id
               && w.sessions[id] == WithState(snap[k], Restarting);
      assert k == j;
    }
    assert Cleared(w, id) == WithState(snap[j], Idle);
  }

  /** Writes of updating entries, each under its own key. */
  lemma {:induction false} WrittenAt(snap: map<Key, Entry>, me: Me, kv: map<Key, Entry>, writes: seq<Entry>, k: Key)
    requires UnderOwnKeys(snap, me)
    requires forall i | 0 <= i < |writes| ::
               exists j :: Mine(me, snap, j) && snap[j].state.Updating? && writes[i] == WithState(snap[j], Idle)
    ensures var kv' := Apply(me, kv, writes);
            if Mine(me, snap, k) && snap[k].state.Updating? && WithState(snap[k], Idle) in writes
            then k in kv' && kv'[k] == WithState(snap[k], Idle)
            else (k in kv' <==> k in kv) && (k in kv ==> kv'[k] == kv[k])
  {
    if writes != [] {
      var init, last := writes[..|writes| - 1], writes[|writes| - 1];
      assert forall i | 0 <= i < |init| :: init[i] == writes[i];
      WrittenAt(snap, me, kv, init, k);
      assert writes == init + [last];
    }
  }
}
