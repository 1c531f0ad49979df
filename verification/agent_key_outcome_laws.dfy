/** What each piece of a reconcile does, and that an undisturbed one ends with a registered, stored seed. */
module AgentKeyOutcomeLaws {
  import opened Basics
  import opened AgentKeySpec

  /** The step can act in this state. */
  predicate Ready(w: World, step: Step) {
    match step
    case Reconcile(_, _) => w.pc.Idle?
    case Deliver(i, _) => i < |w.inFlight|
    case Lose(i) => i < |w.inFlight|
    case TakeReply => w.pc.Await? && w.pc.id in w.replies
    case GiveUp => true
    case Write(_) => w.pc.Store?
    case SecretGone(_) => true
    case Reassign(_, _) => true
  }

  lemma NotReadyChangesNothing(w: World, step: Step)
    requires !Ready(w, step)
    ensures Next(w, step) == w
  {}

  /** A reconcile that cannot read the Secret, or finds a seed in it, does nothing at all. */
  lemma StoredSeedEndsIt(w: World, readOk: bool, newSeed: Seed)
    requires w.pc.Idle? && (!readOk || (w.secret.Present? && w.secret.seed.Some?))
    ensures Next(w, Reconcile(readOk, newSeed)) == w
  {}

  /** Otherwise a connected one sends the new key's request, under a new number, and waits for its reply. */
  lemma NewKeyIsSent(w: World, newSeed: Seed)
    requires w.pc.Idle? && w.cfg.connected && (w.secret.Absent? || w.secret.seed.None?)
    ensures Next(w, Reconcile(true, newSeed)) ==
            World(w.cfg, w.db, w.secret, Await(w.sent, newSeed, w.secret != Absent),
                  w.inFlight + [(w.sent, Request(w.cfg.userSlug, w.cfg.projectSlug, Some(PublicKey(newSeed))))],
                  w.replies, w.sent + 1)
  {}

  /** A delivered request leaves the channel, and its reply, alone new, carries what the control plane answered. */
  lemma DeliveryIsAnswered(w: World, i: nat, f: Faults)
    requires i < |w.inFlight|
    ensures var (db, reply) := Register(w.db, w.cfg.host, w.inFlight[i].1, f);
            var rest, replies := w.inFlight[..i] + w.inFlight[i + 1..], w.replies[w.inFlight[i].0 := reply];
            Next(w, Deliver(i, f)) == World(w.cfg, db, w.secret, w.pc, rest, replies, w.sent)
  {}

  /** A lost request leaves the channel without a trace. */
  lemma LostRequestIsGone(w: World, i: nat)
    requires i < |w.inFlight|
    ensures Next(w, Lose(i)) ==
            World(w.cfg, w.db, w.secret, w.pc, w.inFlight[..i] + w.inFlight[i + 1..], w.replies, w.sent)
  {}

  /** Success leads to the write, any other reply or no reply to the end. */
  lemma ReplyDecides(w: World)
    requires w.pc.Await? && w.pc.id in w.replies
    ensures Next(w, TakeReply).pc == if w.replies[w.pc.id] == Registered then Store(w.pc.seed, w.pc.existed) else Idle
    ensures Next(w, TakeReply) == w.(pc := Next(w, TakeReply).pc) && Next(w, GiveUp) == w.(pc := Idle)
  {}

  /** The seed is stored exactly when the write succeeds and the Secret is still as it was read: there, or not there. */
  lemma WriteOutcome(w: World, ok: bool)
    requires w.pc.Store?
    ensures var stores := ok && w.pc.existed == (w.secret != Absent);
            var secret := if stores then Present(Some(w.pc.seed)) else w.secret;
            Next(w, Write(ok)) == World(w.cfg, w.db, secret, Idle, w.inFlight, w.replies, w.sent)
  {}

  /** What others may do to the Secret and to the assignments. */
  lemma OthersOutcome(w: World, emptied: bool, access: map<nat, set<string>>, projects: map<(nat, string), string>)
    ensures var left := if emptied && w.secret != Absent then Present(None) else Absent;
            Next(w, SecretGone(emptied)) == w.(secret := left)
    ensures Next(w, Reassign(access, projects)) == w.(db := Db(w.db.users, access, projects, w.db.credentials))
  {}

  /** In every run a stored seed stays until someone else removes it. */
  lemma SeedIsKept(w: World, steps: seq<Step>, step: Step)
    requires w == Start(w.cfg, w.db, w.secret) && Seeded(Exec(w, steps)) && !step.SecretGone?
    ensures Next(Exec(w, steps), step).secret == Exec(w, steps).secret
  {
    BaseInRun(w, steps);
  }

  /** The four steps of a reconcile whose request arrives. */
  function Undisturbed(w: World, newSeed: Seed): seq<Step> {
    [Reconcile(true, newSeed), Deliver(|w.inFlight|, NO_FAULTS), TakeReply, Write(true)]
  }

  /** An undisturbed reconcile of an assigned project ends with its seed stored and its key registered. */
  lemma UndisturbedStores(cfg: Config, db: Db, secret: Secret, steps: seq<Step>, newSeed: Seed)
    requires var w := Exec(Start(cfg, db, secret), steps); Sends(w, Reconcile(true, newSeed)) && Assigned(w)
    ensures var w := Exec(Start(cfg, db, secret), steps);
            var w' := Exec(w, Undisturbed(w, newSeed));
            && w'.secret == Present(Some(newSeed)) && RowOf(w') == Some(PublicKey(newSeed))
            && w'.pc == Idle && w'.inFlight == w.inFlight
  {
    var w := Exec(Start(cfg, db, secret), steps);
    var s := Undisturbed(w, newSeed);
    BaseInRun(Start(cfg, db, secret), steps);
    BaseStep(w, s[0]);
    var w1 := Next(w, s[0]);
    Accepted(w1, |w.inFlight|);
    var w2 := Next(w1, s[1]);
    assert w2.inFlight == w.inFlight;
    FourSteps(w, s);
  }

  lemma FourSteps(w: World, s: seq<Step>)
    requires |s| == 4
    ensures Exec(w, s) == Next(Next(Next(Next(w, s[0]), s[1]), s[2]), s[3])
  {
    assert s[..1][..0] == [] && Exec(w, s[..1]) == Next(w, s[0]);
    assert s[..2][..1] == s[..1] && Exec(w, s[..2]) == Next(Exec(w, s[..1]), s[1]);
    assert s[..3][..2] == s[..2] && Exec(w, s[..3]) == Next(Exec(w, s[..2]), s[2]);
  }
}
