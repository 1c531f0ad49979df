/** Which output lines and blocks count as background work, stated on the lines themselves. */
module BackgroundLineLaws {
  import opened Basics
  import opened BackgroundWorkSpec

  // ---------------------------------------------------------------- shells

  /** A background Bash call with an ID. */
  predicate CallsShell(bs: seq<Block>, id: string, command: string) {
    id != "" && ToolUse(id, "Bash", Some(ToolInput(true, command))) in bs
  }

  /** Exactly the background Bash calls with an ID are announcements. */
  lemma {:induction false} AnnouncedIff(bs: seq<Block>, e: Event)
    ensures e in AnnouncedAll(bs) <==> e.Announce? && CallsShell(bs, e.id, e.command)
  {
    if bs != [] {
      var init, last := bs[..|bs| - 1], bs[|bs| - 1];
      AnnouncedIff(init, e);
      assert bs == init + [last];
    }
  }

  /** Exactly the tool results are reports, with the background ID they carry or without. */
  lemma {:induction false} ReportedIff(bs: seq<Block>, e: Event)
    ensures e in ReportedAll(bs) <==> e.ResultFor? && ToolResult(e.id, e.taskId) in bs
  {
    if bs != [] {
      var init, last := bs[..|bs| - 1], bs[|bs| - 1];
      ReportedIff(init, e);
      assert bs == init + [last];
    }
  }

  /** Events come in the order of their blocks. */
  lemma {:induction false} EventsInBlockOrder(a: seq<Block>, b: seq<Block>)
    ensures AnnouncedAll(a + b) == AnnouncedAll(a) + AnnouncedAll(b)
    ensures ReportedAll(a + b) == ReportedAll(a) + ReportedAll(b)
  {
    if b == [] {
      assert a + b == a;
    } else {
      assert (a + b)[..|a + b| - 1] == a + b[..|b| - 1];
      EventsInBlockOrder(a, b[..|b| - 1]);
    }
  }

  // ---------------------------------------------------------------- traces

  ghost predicate CalledOn(lines: seq<Line>, id: string, command: string) {
    exists i :: 0 <= i < |lines| && lines[i].AssistantLine? && lines[i].content.Some? &&
                CallsShell(lines[i].content.value, id, command)
  }

  ghost predicate ResultOn(lines: seq<Line>, id: string, taskId: Option<string>) {
    exists i :: 0 <= i < |lines| && lines[i].UserLine? && lines[i].content.Some? &&
                ToolResult(id, taskId) in lines[i].content.value
  }

  /** A notification that is tagged with the ID, or that is not tagged and mentions it. */
  predicate MayNotify(line: Line, id: string) {
    line.NotificationLine? &&
    (if line.notice.Tagged? then line.notice.toolUseId == id else Mentions(line.notice.text, id))
  }

  ghost predicate NotifiedOn(lines: seq<Line>, id: string) { exists i :: 0 <= i < |lines| && MayNotify(lines[i], id) }

  lemma OnLast(lines: seq<Line>, e: Event)
    requires lines != []
    ensures var init, last := lines[..|lines| - 1], lines[|lines| - 1];
            && (e.Announce? ==>
                (CalledOn(lines, e.id, e.command) <==>
                    CalledOn(init, e.id, e.command) || CalledOn([last], e.id, e.command)))
            && (e.ResultFor? ==>
                (ResultOn(lines, e.id, e.taskId) <==>
                    ResultOn(init, e.id, e.taskId) || ResultOn([last], e.id, e.taskId)))
            && (e.Notified? ==> (NotifiedOn(lines, e.id) <==> NotifiedOn(init, e.id) || NotifiedOn([last], e.id)))
  {
    var init, last := lines[..|lines| - 1], lines[|lines| - 1];
    assert forall i | 0 <= i < |init| :: lines[i] == init[i];
    assert [last][0] == last;
  }

  lemma MeansIff(s: Shells, line: Line, es: seq<Event>, e: Event)
    requires Means(s, line, es) && e in es
    ensures match e
            case Announce(id, command) => CalledOn([line], id, command)
            case ResultFor(id, taskId) => ResultOn([line], id, taskId)
            case Notified(id) => NotifiedOn([line], id)
  {
    assert [line][0] == line;
    match line
    case AssistantLine(Some(bs)) => AnnouncedIff(bs, e);
    case UserLine(Some(bs)) => ReportedIff(bs, e);
    case _ =>
  }

  lemma MeansAll(s: Shells, line: Line, es: seq<Event>, e: Event)
    requires Means(s, line, es)
    ensures e.Announce? && CalledOn([line], e.id, e.command) ==> e in es
    ensures e.ResultFor? && ResultOn([line], e.id, e.taskId) ==> e in es
    ensures e.Notified? && line == NotificationLine(Tagged(e.id)) ==> e in es
  {
    match line
    case AssistantLine(Some(bs)) => AnnouncedIff(bs, e);
    case UserLine(Some(bs)) => ReportedIff(bs, e);
    case _ =>
  }

  /**
   A trace announces exactly the background calls of its assistant lines and reports exactly the results of
   its ordinary user lines; it notifies every tagged shell, and no shell that no notification tags or mentions.
   */
  lemma {:induction false} TraceIff(dir: string, lines: seq<Line>, t: seq<Event>, e: Event)
    requires TraceOf(dir, lines, t)
    ensures e.Announce? ==> (e in t <==> CalledOn(lines, e.id, e.command))
    ensures e.ResultFor? ==> (e in t <==> ResultOn(lines, e.id, e.taskId))
    ensures e.Notified? ==> (NotificationLine(Tagged(e.id)) in lines ==> e in t) && (e in t ==> NotifiedOn(lines, e.id))
  {
    if lines != [] {
      var init, last := lines[..|lines| - 1], lines[|lines| - 1];
      var u, es :| t == u + es && TraceOf(dir, init, u) && Means(TrackAll(dir, NO_SHELLS, u), last, es);
      TraceIff(dir, init, u, e);
      MeansAll(TrackAll(dir, NO_SHELLS, u), last, es, e);
      if e in es { MeansIff(TrackAll(dir, NO_SHELLS, u), last, es, e); }
      OnLast(lines, e);
      assert lines == init + [last];
    }
  }

  /** Lines come in order: a longer trace extends a trace of the lines before. */
  lemma TraceExtends(dir: string, lines: seq<Line>, line: Line, t: seq<Event>) returns (u: seq<Event>)
    requires TraceOf(dir, lines + [line], t)
    ensures u <= t && TraceOf(dir, lines, u) && Means(TrackAll(dir, NO_SHELLS, u), line, t[|u|..])
  {
    assert (lines + [line])[..|lines|] == lines;
    var v, es :| t == v + es && TraceOf(dir, lines, v) && Means(TrackAll(dir, NO_SHELLS, v), line, es);
    u := v;
    assert t[|u|..] == es;
  }

  /** An untagged notification ends one shell in flight that its text mentions, unless it mentions none. */
  lemma UntaggedEndsOne(s: Shells, text: string, es: seq<Event>)
    requires Means(s, NotificationLine(Untagged(text)), es)
    ensures if exists id <- s.inFlight :: Mentions(text, id)
            then |es| == 1 && es[0].Notified? && es[0].id in s.inFlight && Mentions(text, es[0].id)
            else es == []
  {
    assert forall id :: MayEnd(s, text, id) <==> id in s.inFlight && Mentions(text, id);
  }

  /** An ID is mentioned when it is not empty and the text holds it. */
  lemma MentionsIff(text: string, id: string)
    ensures Mentions(text, id) <==> id != "" && exists a, b :: text == a + id + b
  {
    if Mentions(text, id) {
      var i :| 0 <= i <= |text| && OccursAt(text, id, i);
      assert text == text[..i] + id + text[i + |id|..];
    }
    if a, b :| text == a + id + b {
      assert text[|a|..] == id + b;
      assert OccursAt(text, id, |a|);
    }
  }

  /** A shell in flight was called in the background by some line, and a later result line gave its task. */
  lemma InFlightOnLines(dir: string, lines: seq<Line>, t: seq<Event>, id: string)
    requires TraceOf(dir, lines, t) && id in TrackAll(dir, NO_SHELLS, t).inFlight
    ensures var sh := TrackAll(dir, NO_SHELLS, t).inFlight[id];
            CalledOn(lines, id, sh.command) && ResultOn(lines, id, Some(sh.taskId))
  {
    InFlightExactly(dir, t, id, TrackAll(dir, NO_SHELLS, t).inFlight[id]);
    var i: nat, j: nat :| Live(t, i, j, id) &&
      TrackAll(dir, NO_SHELLS, t).inFlight[id] == MakeShell(dir, id, t[j].taskId.value, t[i].command);
    assert t[..j][i] == t[i];
    TraceIff(dir, lines, t, t[i]);
    TraceIff(dir, lines, t, t[j]);
  }

  /** A pending command was called in the background by some line. */
  lemma PendingOnLines(dir: string, lines: seq<Line>, t: seq<Event>, id: string)
    requires TraceOf(dir, lines, t) && id in TrackAll(dir, NO_SHELLS, t).pending
    ensures CalledOn(lines, id, TrackAll(dir, NO_SHELLS, t).pending[id])
  {
    PendingExactly(dir, t, id, TrackAll(dir, NO_SHELLS, t).pending[id]);
    var i: nat :| PendingSince(t, i, id) && t[i].command == TrackAll(dir, NO_SHELLS, t).pending[id];
    TraceIff(dir, lines, t, t[i]);
  }

  // ---------------------------------------------------------------- agents

  /** A background agent call. */
  predicate CallsAgent(b: Block) { b.ToolUse? && b.name == "Agent" && b.input.Some? && b.input.value.runInBackground }

  /** The counter of a line is the number of its background agent calls. */
  lemma {:induction false} AgentStartsAreCounted(bs: seq<Block>)
    ensures AgentStarts(bs) == |set i: nat | i < |bs| && CallsAgent(bs[i])|
  {
    var all := set i: nat | i < |bs| && CallsAgent(bs[i]);
    if bs == [] {
      assert all == {};
    } else {
      var init, last := bs[..|bs| - 1], bs[|bs| - 1];
      AgentStartsAreCounted(init);
      var before := set i: nat | i < |init| && CallsAgent(init[i]);
      assert all == before + if CallsAgent(last) then {|init|} else {};
    }
  }

  /** Background agent calls of all assistant lines. */
  function Calls(lines: seq<Line>): nat {
    if lines == [] then 0
    else
      var line := lines[|lines| - 1];
      Calls(lines[..|lines| - 1]) +
      if line.AssistantLine? && line.content.Some?
      then |set i: nat | i < |line.content.value| && CallsAgent(line.content.value[i])| else 0
  }

  /** The net count is agent calls minus notification lines. */
  lemma {:induction false} NetIsCallsMinusNotices(lines: seq<Line>)
    ensures Net(lines) == Calls(lines) - |set i: nat | i < |lines| && lines[i].NotificationLine?|
  {
    var all := set i: nat | i < |lines| && lines[i].NotificationLine?;
    if lines == [] {
      assert all == {};
    } else {
      var init, last := lines[..|lines| - 1], lines[|lines| - 1];
      NetIsCallsMinusNotices(init);
      var before := set i: nat | i < |init| && init[i].NotificationLine?;
      assert all == before + if last.NotificationLine? then {|init|} else {};
      if last.AssistantLine? && last.content.Some? { AgentStartsAreCounted(last.content.value); }
    }
  }

  // ---------------------------------------------------------------- shutdown

  /** A notice is due exactly for a shell in flight of a listed session that is still tracked. */
  lemma DueIff(ids: seq<string>, sessions: map<string, Shells>, n: KilledNotice)
    ensures n in Due(ids, sessions) <==>
            n.session in ids && n.session in sessions && n.shell in sessions[n.session].inFlight.Values
  {
    if n.session in sessions && n.shell in sessions[n.session].inFlight.Values {
      var k :| k in sessions[n.session].inFlight && sessions[n.session].inFlight[k] == n.shell;
    }
  }
}
