/** What the replies of tunnelled requests are worth: where a response, a nil reply and no reply come from. */
module RelayReplyLaws {
  import opened Basics
  import opened RelayTunnelsSpec

  /** The value is the request's reply: on its channel, or already taken. */
  predicate Got(ch: Chan, v: Value) { ch.slot == Some(v) || ch.waiter == Done(Some(v)) }

  // ---------------------------------------------------------------- nil

  predicate NilOk(r: Relay, c: nat) {
    c < |r.chans| ==>
      && r.chans[c].entry < |r.entries|
      && (Got(r.chans[c], NilReply) ==> r.entries[r.chans[c].entry].reader.Drained?)
  }

  predicate HandOk(r: Relay, e: nat) {
    e < |r.entries| && r.entries[e].reader.Holding? ==> r.entries[e].reader.response.Response?
  }

  /** Nil replies are of drained entries, and readers hold responses. */
  ghost predicate Nils(r: Relay) { (forall c: nat :: NilOk(r, c)) && (forall e: nat :: HandOk(r, e)) }

  lemma NilOkReader(r: Relay, step: Step, c: nat)
    requires Nils(r) && Replies(r) && (step.Read? || step.Hand? || step.Unlist? || step.Drain?)
    ensures NilOk(Next(r, step), c)
  {
    assert NilOk(r, c) && HandOk(r, step.entry);
    if step.entry < |r.entries| { assert EntryOk(step.entry, r.entries[step.entry], r.chans); }
  }

  lemma NilOkRequest(r: Relay, step: Step, c: nat)
    requires Nils(r) && (step.Ask? || step.Sent? || step.Take? || step.Timeout?)
    ensures NilOk(Next(r, step), c)
  {
    assert NilOk(r, c);
    if !step.Ask? { assert NilOk(r, step.chan); }
  }

  lemma NilOkOther(r: Relay, step: Step, c: nat)
    requires Nils(r) && (step.Register? || step.Forget? || step.Join? || step.Bind? || step.Leave?)
    ensures NilOk(Next(r, step), c)
  {
    assert NilOk(r, c);
  }

  lemma HandOkStep(r: Relay, step: Step, e: nat)
    requires Nils(r)
    ensures HandOk(Next(r, step), e)
  {
    assert HandOk(r, e);
  }

  lemma NilsStep(r: Relay, step: Step)
    requires Nils(r) && Replies(r)
    ensures Nils(Next(r, step))
  {
    forall c: nat ensures NilOk(Next(r, step), c) {
      if step.Read? || step.Hand? || step.Unlist? || step.Drain? {
        NilOkReader(r, step, c);
      } else if step.Ask? || step.Sent? || step.Take? || step.Timeout? {
        NilOkRequest(r, step, c);
      } else {
        NilOkOther(r, step, c);
      }
    }
    forall e: nat ensures HandOk(Next(r, step), e) { HandOkStep(r, step, e); }
  }

  lemma {:induction false} NilsInRun(steps: seq<Step>)
    ensures Nils(Exec(steps))
  {
    if steps != [] {
      NilsInRun(steps[..|steps| - 1]);
      RepliesInRun(steps[..|steps| - 1]);
      NilsStep(Exec(steps[..|steps| - 1]), steps[|steps| - 1]);
    }
  }

  /** Only a drained entry gives a nil reply. */
  lemma NilMeansDrained(steps: seq<Step>, c: nat)
    requires c < |Exec(steps).chans| && Got(Exec(steps).chans[c], NilReply)
    ensures var r := Exec(steps); r.chans[c].entry < |r.entries| && r.entries[r.chans[c].entry].reader.Drained?
  {
    NilsInRun(steps);
    assert NilOk(Exec(steps), c);
  }

  // ---------------------------------------------------------------- responses

  /** Step `k` read the response to the request of channel `c` on its entry. */
  predicate ReadAt(steps: seq<Step>, k: nat, c: nat) {
    k < |steps| && steps[k].Read? && Reads(Exec(steps[..k]), steps[k].entry, steps[k].id, c)
  }

  predicate Reads(r: Relay, e: nat, id: nat, c: nat) {
    && e < |r.entries| && r.entries[e].reader.Reading?
    && c < |r.chans| && r.chans[c].entry == e && r.chans[c].id == id && Pending(r.entries[e], c, r.chans[c])
  }

  /** A response for this channel is in its slot, taken, or in a reader's hand. */
  predicate HasResponse(r: Relay, c: nat) {
    && c < |r.chans|
    && (|| (r.chans[c].slot.Some? && r.chans[c].slot.value.Response?)
        || (r.chans[c].waiter.Done? && r.chans[c].waiter.result.Some? && r.chans[c].waiter.result.value.Response?)
        || (r.chans[c].entry < |r.entries| && Held(r.entries[r.chans[c].entry], c)))
  }

  lemma ResponseDrain(r: Relay, e: nat, c: nat)
    requires e < |r.entries| && r.entries[e].reader.Unlisted? && HasResponse(DrainTunnel(r, e), c)
    ensures HasResponse(r, c)
  {}

  lemma ResponseRead(r: Relay, e: nat, id: nat, c: nat)
    requires Replies(r) && e < |r.entries| && r.entries[e].reader.Reading? && HasResponse(ReadResponse(r, e, id), c)
    ensures HasResponse(r, c) || Reads(r, e, id, c)
  {
    assert EntryOk(e, r.entries[e], r.chans);
  }

  lemma ResponseHand(r: Relay, e: nat, c: nat)
    requires Replies(r) && e < |r.entries| && r.entries[e].reader.Holding? && r.entries[e].reader.chan < |r.chans|
    requires HasResponse(HandOver(r, e), c)
    ensures HasResponse(r, c)
  {
    assert EntryOk(e, r.entries[e], r.chans);
  }

  lemma ResponseRequest(r: Relay, step: Step, c: nat)
    requires Replies(r) && (step.Ask? || step.Sent? || step.Take? || step.Timeout?) && HasResponse(Next(r, step), c)
    ensures HasResponse(r, c)
  {}

  lemma ResponseOther(r: Relay, step: Step, c: nat)
    requires Replies(r) && HasResponse(Next(r, step), c)
    requires step.Register? || step.Unlist? || step.Forget? || step.Join? || step.Bind? || step.Leave?
    ensures HasResponse(r, c)
  {}

  lemma ResponseStep(r: Relay, step: Step, c: nat)
    requires Replies(r) && HasResponse(Next(r, step), c)
    ensures HasResponse(r, c) || (step.Read? && Reads(r, step.entry, step.id, c))
  {
    if Next(r, step) != r {
      match step
      case Drain(e) => ResponseDrain(r, e, c);
      case Read(e, id) => ResponseRead(r, e, id, c);
      case Hand(e) => ResponseHand(r, e, c);
      case Ask(_) => ResponseRequest(r, step, c);
      case Sent(_, _) => ResponseRequest(r, step, c);
      case Take(_) => ResponseRequest(r, step, c);
      case Timeout(_) => ResponseRequest(r, step, c);
      case _ => ResponseOther(r, step, c);
    }
  }

  lemma ReadAtInit(steps: seq<Step>, k: nat, c: nat)
    requires steps != [] && ReadAt(steps[..|steps| - 1], k, c)
    ensures ReadAt(steps, k, c)
  {
    assert steps[..|steps| - 1][..k] == steps[..k];
  }

  /** The step after a run. */
  predicate ReadNext(r: Relay, step: Step, c: nat) { step.Read? && Reads(r, step.entry, step.id, c) }

  lemma ReadLast(init: seq<Step>, step: Step, c: nat)
    requires ReadNext(Exec(init), step, c)
    ensures ReadAt(init + [step], |init|, c)
  {
    assert (init + [step])[..|init|] == init;
  }

  lemma {:induction false} ResponsesAreReadBy(init: seq<Step>, step: Step, c: nat) returns (k: nat)
    requires HasResponse(Next(Exec(init), step), c)
    ensures ReadAt(init + [step], k, c)
    decreases |init| + 1, 0
  {
    RepliesInRun(init);
    ResponseStep(Exec(init), step, c);
    if ReadNext(Exec(init), step, c) {
      ReadLast(init, step, c);
      k := |init|;
    } else {
      k := ResponsesAreRead(init, c);
      assert (init + [step])[..|init + [step]| - 1] == init;
      ReadAtInit(init + [step], k, c);
    }
  }

  lemma {:induction false} ResponsesAreRead(steps: seq<Step>, c: nat) returns (k: nat)
    requires HasResponse(Exec(steps), c)
    ensures ReadAt(steps, k, c)
    decreases |steps|, 1
  {
    assert steps != [];
    var init, last := steps[..|steps| - 1], steps[|steps| - 1];
    assert steps == init + [last];
    k := ResponsesAreReadBy(init, last, c);
  }

  /** A request has a response only if one with its ID was read on its own entry while it was pending there. */
  lemma ResponseWasRead(steps: seq<Step>, c: nat, v: Value)
    requires c < |Exec(steps).chans| && Got(Exec(steps).chans[c], v) && v.Response?
    ensures v == Response(Exec(steps).chans[c].id, Exec(steps).chans[c].entry) && exists k: nat :: ReadAt(steps, k, c)
  {
    var k := ResponsesAreRead(steps, c);
    EachRequestGetsAtMostItsOwnReply(steps, c);
  }

  // ---------------------------------------------------------------- which answer arrives

  /** The request's own response, once read and handed over, is what it receives. */
  lemma ReadReplyArrives(steps: seq<Step>, c: nat)
    requires Waits(Exec(steps), c) && Exec(steps).chans[c].slot.None?
    requires Exec(steps).chans[c].entry < |Exec(steps).entries|
    requires var ch := Exec(steps).chans[c]; Pending(Exec(steps).entries[ch.entry], c, ch)
    requires Exec(steps).entries[Exec(steps).chans[c].entry].reader.Reading?
    ensures var ch := Exec(steps).chans[c];
            var r := ExecFrom(Exec(steps), [Read(ch.entry, ch.id), Hand(ch.entry), Take(c)]);
            && c < |r.chans| && r.chans[c].waiter == Done(Some(Response(ch.id, ch.entry)))
            && ch.entry < |r.entries| && ch.id !in r.entries[ch.entry].pending && r.entries[ch.entry].reader.Reading?
  {
    var r := Exec(steps);
    var e, id := r.chans[c].entry, r.chans[c].id;
    ExecThen(r, Read(e, id), [Hand(e), Take(c)]);
    ExecThen(Next(r, Read(e, id)), Hand(e), [Take(c)]);
    ExecOne(Next(Next(r, Read(e, id)), Hand(e)), Take(c));
    assert [Hand(e)] + [Take(c)] == [Hand(e), Take(c)];
    assert [Read(e, id)] + [Hand(e), Take(c)] == [Read(e, id), Hand(e), Take(c)];
  }

  /** The teardown of an entry leaves it without pending requests, and every request that was pending there with nil. */
  lemma TeardownAnswersNil(steps: seq<Step>, e: nat)
    requires e < |Exec(steps).entries| && Exec(steps).entries[e].reader.Reading?
    ensures var r, r' := Exec(steps), ExecFrom(Exec(steps), [Unlist(e), Drain(e)]);
            && |r'.chans| == |r.chans| && |r'.entries| == |r.entries|
            && r'.entries[e].reader.Drained? && r'.entries[e].pending == map[]
            && forall c | 0 <= c < |r.chans| :: r'.chans[c] ==
                 if Pending(r.entries[e], c, r.chans[c]) && r.chans[c].entry == e
                 then r.chans[c].(slot := Some(NilReply), sends := 1) else r.chans[c]
  {
    var r := Exec(steps);
    RepliesInRun(steps);
    ExecThen(r, Unlist(e), [Drain(e)]);
    ExecOne(Next(r, Unlist(e)), Drain(e));
    assert [Unlist(e)] + [Drain(e)] == [Unlist(e), Drain(e)];
    forall c: nat | c < |r.chans|
      ensures Next(Next(r, Unlist(e)), Drain(e)).chans[c] ==
              if Pending(r.entries[e], c, r.chans[c]) && r.chans[c].entry == e
              then r.chans[c].(slot := Some(NilReply), sends := 1) else r.chans[c]
    {
      DrainedEach(r, e, c);
    }
  }

  lemma DrainedEach(r: Relay, e: nat, c: nat)
    requires Replies(r) && e < |r.entries| && r.entries[e].reader.Reading? && c < |r.chans|
    ensures DrainTunnel(UnlistTunnel(r, e), e).chans[c] ==
            if Pending(r.entries[e], c, r.chans[c]) && r.chans[c].entry == e
            then r.chans[c].(slot := Some(NilReply), sends := 1) else r.chans[c]
  {
    assert EntryOk(e, r.entries[e], r.chans);
    if Pending(r.entries[e], c, r.chans[c]) { assert ChanOk(r.entries[e], c, r.chans[c]); }
  }

  /**
   A failed send or a timeout ends the wait with nothing, and the request is no longer pending; no other
   request is touched.
   */
  lemma AbandonedGetsNothing(steps: seq<Step>, c: nat, step: Step)
    requires c < |Exec(steps).chans|
    requires (step == Timeout(c) && Exec(steps).chans[c].waiter.Waiting?) ||
             (step == Sent(c, false) && Exec(steps).chans[c].waiter.Sending?)
    ensures var r, r' := Exec(steps), Exec(steps + [step]);
            && |r'.chans| == |r.chans| && |r'.entries| == |r.entries|
            && r'.chans[c] == r.chans[c].(waiter := Done(None))
            && (forall d | 0 <= d < |r.chans| && d != c :: r'.chans[d] == r.chans[d])
            && r.chans[c].entry < |r.entries|
            && r'.entries[r.chans[c].entry].pending == r.entries[r.chans[c].entry].pending - {r.chans[c].id}
  {
    RepliesInRun(steps);
    ExecAppend(EMPTY, steps, step);
  }

  /** A sent request waits; a new one is sent under a fresh ID, pending on the entry it fetched. */
  lemma RequestBegins(steps: seq<Step>, e: nat)
    requires e < |Exec(steps).entries|
    ensures var r, r' := Exec(steps), Exec(steps + [Ask(e), Sent(|Exec(steps).chans|, true)]);
            var c := |r.chans|;
            && r'.chans == r.chans + [Chan(e, c + 1, None, 0, 0, Waiting)]
            && (forall d | 0 <= d < |r.chans| :: r.chans[d].id != c + 1)
            && r'.entries == r.entries[e := r.entries[e].(pending := r.entries[e].pending[c + 1 := c])]
  {
    var r, c := Exec(steps), |Exec(steps).chans|;
    RepliesInRun(steps);
    ExecAppend(EMPTY, steps, Ask(e));
    ExecAppend(EMPTY, steps + [Ask(e)], Sent(c, true));
    assert steps + [Ask(e), Sent(c, true)] == steps + [Ask(e)] + [Sent(c, true)];
  }
}
