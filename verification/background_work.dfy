/** A session's background-work fields as an object, and the agent's shutdown notices. */
module BackgroundWork {
  import opened Basics
  import opened BackgroundWorkSpec
  import opened BackgroundLineLaws

  class Session {
    /** The session's task directory; None when shell tracking is off. */
    const dir: Option<string>
    var inFlightBackgroundAgents: nat
    var pendingShells: map<string, string>
    var inFlightShells: map<string, Shell>

    constructor (dir: Option<string>)
      ensures this.dir == dir && inFlightBackgroundAgents == 0 && View() == NO_SHELLS
    {
      this.dir, inFlightBackgroundAgents, pendingShells, inFlightShells := dir, 0, map[], map[];
    }

    ghost function View(): Shells
      reads this
    {
      Shells(pendingShells, inFlightShells)
    }

    method UpdateInFlightBackgroundAgents(line: Line)
      modifies `inFlightBackgroundAgents
      ensures inFlightBackgroundAgents == CountAgents(old(inFlightBackgroundAgents), line)
    {
      match line
      case AssistantLine(Some(content)) =>
        for i := 0 to |content|
          invariant inFlightBackgroundAgents == old(inFlightBackgroundAgents) + AgentStarts(content[..i])
        {
          TakeNext(content, i);
          var block := content[i];
          if !block.ToolUse? || block.name != "Agent" { continue; }
          if block.input.None? { continue; }
          if block.input.value.runInBackground {
            inFlightBackgroundAgents := inFlightBackgroundAgents + 1;
          }
        }
        assert content[..|content|] == content;
      case NotificationLine(_) =>
        if inFlightBackgroundAgents > 0 {
          inFlightBackgroundAgents := inFlightBackgroundAgents - 1;
        }
      case _ =>
    }

    method AnnounceShells(content: seq<Block>)
      requires dir.Some?
      modifies `pendingShells
      ensures View() == TrackAll(dir.value, old(View()), AnnouncedAll(content))
    {
      for i := 0 to |content|
        invariant View() == TrackAll(dir.value, old(View()), AnnouncedAll(content[..i]))
      {
        TakeNext(content, i);
        TrackAllAppend(dir.value, old(View()), AnnouncedAll(content[..i]), Announced(content[i]));
        var block := content[i];
        if !block.ToolUse? || block.name != "Bash" { continue; }
        if block.input.None? { continue; }
        if block.input.value.runInBackground && block.id != "" {
          pendingShells := pendingShells[block.id := block.input.value.command];
        }
      }
      assert content[..|content|] == content;
    }

    method PromoteShells(content: seq<Block>)
      requires dir.Some?
      modifies `pendingShells, `inFlightShells
      ensures View() == TrackAll(dir.value, old(View()), ReportedAll(content))
    {
      for i := 0 to |content|
        invariant View() == TrackAll(dir.value, old(View()), ReportedAll(content[..i]))
      {
        TakeNext(content, i);
        TrackAllAppend(dir.value, old(View()), ReportedAll(content[..i]), Reported(content[i]));
        var block := content[i];
        if !block.ToolResult? { continue; }
        var id := block.toolUseId;
        if id !in pendingShells { continue; }
        var command := pendingShells[id];
        pendingShells := pendingShells - {id};
        if block.taskId.None? { continue; }
        inFlightShells := inFlightShells[id := MakeShell(dir.value, id, block.taskId.value, command)];
      }
      assert content[..|content|] == content;
    }

    /** Removes the tagged shell; without a tag, one shell whose ID appears in the text, if there is any. */
    method RemoveShellByTaskNotification(notice: Notice) returns (ghost es: seq<Event>)
      requires dir.Some?
      modifies `inFlightShells
      ensures Means(old(View()), NotificationLine(notice), es) && View() == TrackAll(dir.value, old(View()), es)
    {
      es := [];
      match notice
      case Tagged(id) =>
        inFlightShells := inFlightShells - {id};
        es := [Notified(id)];
      case Untagged(text) =>
        assert forall id :: MayEnd(View(), text, id) <==> id in inFlightShells && Mentions(text, id);
        if id :| id in inFlightShells && Mentions(text, id) {
          inFlightShells := inFlightShells - {id};
          es := [Notified(id)];
        }
    }

    /** The whole effect of a line; none when tracking is off. */
    method UpdateInFlightShells(line: Line) returns (ghost es: seq<Event>)
      modifies `pendingShells, `inFlightShells
      ensures dir.None? ==> View() == old(View())
      ensures dir.Some? ==> Means(old(View()), line, es) && View() == TrackAll(dir.value, old(View()), es)
    {
      es := [];
      if dir.None? { return; }
      match line
      case AssistantLine(Some(content)) =>
        AnnounceShells(content);
        es := AnnouncedAll(content);
      case NotificationLine(notice) => es := RemoveShellByTaskNotification(notice);
      case UserLine(Some(content)) =>
        PromoteShells(content);
        es := ReportedAll(content);
      case _ =>
    }

    /** The router's two tracking calls over a whole trace, from a new session. */
    method Route(lines: seq<Line>) returns (ghost t: seq<Event>)
      requires inFlightBackgroundAgents == 0 && View() == NO_SHELLS
      modifies this
      ensures inFlightBackgroundAgents == Agents(lines)
      ensures dir.Some? ==> TraceOf(dir.value, lines, t) && View() == TrackAll(dir.value, NO_SHELLS, t)
      ensures dir.Some? ==> forall id <- pendingShells :: CalledOn(lines, id, pendingShells[id])
      ensures dir.Some? ==>
                forall id <- inFlightShells ::
                  CalledOn(lines, id, inFlightShells[id].command)
                      && ResultOn(lines, id, Some(inFlightShells[id].taskId))
    {
      t := [];
      for n := 0 to |lines|
        invariant inFlightBackgroundAgents == Agents(lines[..n])
        invariant dir.Some? ==> TraceOf(dir.value, lines[..n], t) && View() == TrackAll(dir.value, NO_SHELLS, t)
      {
        TakeNext(lines, n);
        UpdateInFlightBackgroundAgents(lines[n]);
        ghost var es := UpdateInFlightShells(lines[n]);
        if dir.Some? {
          TrackAllAppend(dir.value, NO_SHELLS, t, es);
          TraceGrows(dir.value, lines[..n], lines[n], t, es);
        }
        assert lines[..n + 1] == lines[..n] + [lines[n]];
        t := t + es;
      }
      assert lines[..|lines|] == lines;
      if dir.Some? {
        forall id <- pendingShells ensures CalledOn(lines, id, pendingShells[id]) {
          PendingOnLines(dir.value, lines, t, id);
        }
        forall id <- inFlightShells
          ensures CalledOn(lines, id, inFlightShells[id].command)
                  && ResultOn(lines, id, Some(inFlightShells[id].taskId))
        {
          InFlightOnLines(dir.value, lines, t, id);
        }
      }
    }
  }

  predicate Noticed(n: KilledNotice, session: string, shells: map<string, Shell>, todo: set<string>) {
    var k := n.shell.toolUseId;
    n.session == session && k in shells && k !in todo && shells[k] == n.shell
  }

  /** Attempts the killed notices of the listed sessions: each one owed exactly once, and no other. */
  method PublishShellKilledNotifications(ids: seq<string>, sessions: map<string, Shells>)
      returns (log: seq<KilledNotice>)
    requires forall i, j | 0 <= i < j < |ids| :: ids[i] != ids[j]
    requires forall id <- sessions :: Filed(sessions[id])
    ensures forall n :: multiset(log)[n] == if n in Due(ids, sessions) then 1 else 0
  {
    log := [];
    for i := 0 to |ids|
      invariant forall n :: multiset(log)[n] == if n in Due(ids[..i], sessions) then 1 else 0
    {
      var id := ids[i];
      assert ids[..i + 1] == ids[..i] + [id];
      if id !in sessions {
        assert Due(ids[..i + 1], sessions) == Due(ids[..i], sessions);
        continue;
      }
      var shells := sessions[id].inFlight;
      var todo := shells.Keys;
      while todo != {}
        invariant todo <= shells.Keys
        invariant forall n :: multiset(log)[n] == if n in Due(ids[..i], sessions) || Noticed(n, id, shells,
            todo) then 1 else 0
        decreases todo
      {
        var k :| k in todo;
        log := log + [KilledNotice(id, shells[k])];
        todo := todo - {k};
      }
    }
    assert ids[..|ids|] == ids;
  }
}
