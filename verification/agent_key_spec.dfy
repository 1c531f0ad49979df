/**
 The agent-key protocol: the reconciler registers a fresh public key with the control plane and
 then stores the seed in a Secret (reconciler.go); the control plane upserts one row per user,
 host and project (lifecycle.go, db.go). Requests, replies and creates may be lost or refused.
 */
module AgentKeySpec {
  import opened Basics

  type Seed = string

  /** Key generation, taken as injective. */
  datatype PublicKey = PublicKey(seed: Seed)

  // ---------------------------------------------------------------- the control plane

  datatype Db = Db(
    users: map<string, nat>,
    access: map<nat, set<string>>,
    projects: map<(nat, string), string>,
    credentials: map<(nat, string, string), PublicKey>)

  datatype Request = Request(userSlug: string, projectSlug: string, nkeyPublic: Option<PublicKey>)

  datatype Reply = Registered | InvalidRequest | UserNotFound | InternalError | NoHostAccess | ProjectNotFound
      | NotOnHost | StoreFailed

  /** Database answers the handler cannot foresee. */
  datatype Faults = Faults(user: bool, access: bool, project: bool, store: bool)

  function Register(db: Db, host: string, req: Request, f: Faults): (Db, Reply) {
    if req.userSlug == "" || req.projectSlug == "" || req.nkeyPublic.None? then (db, InvalidRequest)
    else if f.user || req.userSlug !in db.users then (db, UserNotFound)
    else
      var uid := db.users[req.userSlug];
      if f.access then (db, InternalError)
      else if uid !in db.access || host !in db.access[uid] then (db, NoHostAccess)
      else if f.project || (uid, req.projectSlug) !in db.projects then (db, ProjectNotFound)
      else if db.projects[(uid, req.projectSlug)] != host then (db, NotOnHost)
      else if f.store then (db, StoreFailed)
      else (db.(credentials := db.credentials[(uid, host, req.projectSlug) := req.nkeyPublic.value]), Registered)
  }

  /** What has to hold of the database for a request to be accepted. */
  predicate Entitled(db: Db, host: string, userSlug: string, projectSlug: string) {
    && userSlug != "" && projectSlug != ""
    && userSlug in db.users
    && db.users[userSlug] in db.access && host in db.access[db.users[userSlug]]
    && (db.users[userSlug], projectSlug) in db.projects && db.projects[(db.users[userSlug], projectSlug)] == host
  }

  function Row(db: Db, host: string, userSlug: string, projectSlug: string): Option<PublicKey> {
    if userSlug in db.users && (db.users[userSlug], host, projectSlug) in db.credentials
    then Some(db.credentials[(db.users[userSlug], host, projectSlug)]) else None
  }

  /**
   Registration succeeds only for an entitled caller, then sets exactly that caller's row; otherwise nothing
   changes.
   */
  lemma RegisterIsExact(db: Db, host: string, req: Request, f: Faults, u: string, h: string, p: string)
    ensures var (db', reply) := Register(db, host, req, f);
            && (reply.Registered? <==>
                Entitled(db, host, req.userSlug, req.projectSlug) && req.nkeyPublic.Some?
                    && f == Faults(false, false, false, false))
            && (!reply.Registered? ==> db' == db)
            && (reply.Registered? ==>
                Row(db', h, u, p) == if u in db.users && db.users[u] == db.users[req.userSlug] && h == host
                    && p == req.projectSlug
                                     then req.nkeyPublic else Row(db, h, u, p))
            && db'.users == db.users && db'.access == db.access && db'.projects == db.projects
  {}

  // ---------------------------------------------------------------- the protocol

  /** `connected` is false when the reconciler has no NATS connection and skips registration. */
  datatype Config = Config(host: string, userSlug: string, projectSlug: string, connected: bool)

  datatype Secret = Absent | Present(seed: Option<Seed>)

  /** Where the reconcile of this project is: idle, awaiting request `id`, or about to write the Secret. */
  datatype Pc = Idle | Await(id: nat, seed: Seed, existed: bool) | Store(seed: Seed, existed: bool)

  datatype World = World(cfg: Config, db: Db, secret: Secret, pc: Pc, inFlight: seq<(nat, Request)>,
      replies: map<nat, Reply>, sent: nat)

  datatype Step =
    | Reconcile(readOk: bool, newSeed: Seed)
    | Deliver(index: nat, faults: Faults)
    | Lose(index: nat)
    | TakeReply
    | GiveUp                                  // timeout, or the controller restarts
    | Write(ok: bool)
    | SecretGone(emptied: bool)               // someone deletes or empties the Secret
    | Reassign(access: map<nat, set<string>>, projects: map<(nat, string), string>)

  function Start(cfg: Config, db: Db, secret: Secret): World {
    World(cfg, db, secret, Idle, [], map[], 0)
  }

  function Without<T>(s: seq<T>, i: nat): seq<T>
    requires i < |s|
  {
    s[..i] + s[i + 1..]
  }

  function BeginReconcile(w: World, readOk: bool, newSeed: Seed): World {
    if !readOk || (w.secret.Present? && w.secret.seed.Some?) then w
    else if !w.cfg.connected then w.(pc := Store(newSeed, w.secret.Present?))
    else
      var req := Request(w.cfg.userSlug, w.cfg.projectSlug, Some(PublicKey(newSeed)));
      w.(pc := Await(w.sent, newSeed, w.secret.Present?), inFlight := w.inFlight + [(w.sent, req)], sent := w.sent + 1)
  }

  function DeliverRequest(w: World, i: nat, f: Faults): World
    requires i < |w.inFlight|
  {
    var (id, req) := w.inFlight[i];
    var (db, reply) := Register(w.db, w.cfg.host, req, f);
    w.(db := db, inFlight := Without(w.inFlight, i), replies := w.replies[id := reply])
  }

  /** Create ignores "already exists"; update fails when the Secret has gone. */
  function WriteSecret(w: World, ok: bool): World
    requires w.pc.Store?
  {
    var idle := w.(pc := Idle);
    if !ok then idle
    else if !w.pc.existed then (if w.secret.Absent? then idle.(secret := Present(Some(w.pc.seed))) else idle)
    else if w.secret.Present? then idle.(secret := Present(Some(w.pc.seed))) else idle
  }

  function Next(w: World, step: Step): World {
    match step
    case Reconcile(readOk, newSeed) => if w.pc.Idle? then BeginReconcile(w, readOk, newSeed) else w
    case Deliver(i, f) => if i < |w.inFlight| then DeliverRequest(w, i, f) else w
    case Lose(i) => if i < |w.inFlight| then w.(inFlight := Without(w.inFlight, i)) else w
    case TakeReply =>
      if w.pc.Await? && w.pc.id in w.replies
      then w.(pc := if w.replies[w.pc.id].Registered? then Store(w.pc.seed, w.pc.existed) else Idle)
      else w
    case GiveUp => w.(pc := Idle)
    case Write(ok) => if w.pc.Store? then WriteSecret(w, ok) else w
    case SecretGone(emptied) => w.(secret := if emptied && w.secret.Present? then Present(None) else Absent)
    case Reassign(access, projects) => w.(db := w.db.(access := access, projects := projects))
  }

  function Exec(w: World, steps: seq<Step>): World {
    if steps == [] then w else Next(Exec(w, steps[..|steps| - 1]), steps[|steps| - 1])
  }

  lemma ExecAppend(w: World, steps: seq<Step>, step: Step)
    ensures Exec(w, steps + [step]) == Next(Exec(w, steps), step)
  {
    assert (steps + [step])[..|steps|] == steps;
  }

  // ---------------------------------------------------------------- safety

  function RowOf(w: World): Option<PublicKey> { Row(w.db, w.cfg.host, w.cfg.userSlug, w.cfg.projectSlug) }

  /** Whenever the Secret holds a seed, the row is that seed's public key. */
  predicate Agreed(w: World) {
    w.secret.Present? && w.secret.seed.Some? ==> RowOf(w) == Some(PublicKey(w.secret.seed.value))
  }

  predicate Seeded(w: World) { w.secret.Present? && w.secret.seed.Some? }

  predicate Inv(w: World) {
    && w.cfg.connected
    && (forall i | 0 <= i < |w.inFlight| :: w.inFlight[i].0 < w.sent && w.inFlight[i].0 !in w.replies
          && w.inFlight[i].1.userSlug == w.cfg.userSlug && w.inFlight[i].1.projectSlug == w.cfg.projectSlug)
    && (forall i, j | 0 <= i < j < |w.inFlight| :: w.inFlight[i].0 < w.inFlight[j].0)
    && (forall id <- w.replies :: id < w.sent)
    && (Seeded(w) ==> w.pc.Idle? && w.inFlight == [])
    && (w.pc.Store? ==> w.inFlight == [] && RowOf(w) == Some(PublicKey(w.pc.seed)))
    && (w.pc.Await? ==>
        && w.pc.id + 1 == w.sent
        && (forall i | 0 <= i < |w.inFlight| && w.inFlight[i].0 == w.pc.id ::
            w.inFlight[i].1.nkeyPublic == Some(PublicKey(w.pc.seed)))
        && (w.pc.id in w.replies && w.replies[w.pc.id].Registered? ==>
            w.inFlight == [] && RowOf(w) == Some(PublicKey(w.pc.seed))))
    && Agreed(w)
  }

  predicate InOrder(step: Step) { step.Deliver? ==> step.index == 0 }

  lemma InvDeliver(w: World, f: Faults)
    requires Inv(w) && 0 < |w.inFlight|
    ensures Inv(DeliverRequest(w, 0, f))
  {
    var (id, req) := w.inFlight[0];
    RegisterIsExact(w.db, w.cfg.host, req, f, w.cfg.userSlug, w.cfg.host, w.cfg.projectSlug);
    var w' := DeliverRequest(w, 0, f);
    assert w'.inFlight == w.inFlight[1..];
    assert |w.inFlight| > 1 ==> id < w.inFlight[1].0 < w.sent;
    assert w.pc.Await? && id == w.pc.id ==> w'.inFlight == [] && req.nkeyPublic == Some(PublicKey(w.pc.seed));
    assert w.pc.Await? && id != w.pc.id && w.pc.id in w.replies ==> w'.replies[w.pc.id] == w.replies[w.pc.id];
  }

  lemma InvReconcile(w: World, readOk: bool, newSeed: Seed)
    requires Inv(w) && w.pc.Idle?
    ensures Inv(BeginReconcile(w, readOk, newSeed))
  {}

  lemma InvLose(w: World, i: nat)
    requires Inv(w) && i < |w.inFlight|
    ensures Inv(w.(inFlight := Without(w.inFlight, i)))
  {}

  lemma InvStep(w: World, step: Step)
    requires Inv(w) && InOrder(step)
    ensures Inv(Next(w, step))
  {
    match step
    case Reconcile(readOk, newSeed) => if w.pc.Idle? { InvReconcile(w, readOk, newSeed); }
    case Lose(i) => if i < |w.inFlight| { InvLose(w, i); }
    case Deliver(i, f) => if i < |w.inFlight| { InvDeliver(w, f); }
    case _ =>
  }

  lemma {:induction false} InvInRun(w: World, steps: seq<Step>)
    requires w == Start(w.cfg, w.db, w.secret) && w.cfg.connected && Agreed(w)
    requires forall i | 0 <= i < |steps| :: InOrder(steps[i])
    ensures Inv(Exec(w, steps))
  {
    if steps != [] {
      InvInRun(w, steps[..|steps| - 1]);
      InvStep(Exec(w, steps[..|steps| - 1]), steps[|steps| - 1]);
    }
  }

  /** With in-order delivery, any losses, rejections and failed writes keep Secret and row agreed. */
  lemma SeedMatchesRow(cfg: Config, db: Db, secret: Secret, steps: seq<Step>)
    requires cfg.connected && Agreed(Start(cfg, db, secret))
    requires forall i | 0 <= i < |steps| :: InOrder(steps[i])
    ensures Agreed(Exec(Start(cfg, db, secret), steps))
  {
    InvInRun(Start(cfg, db, secret), steps);
  }

  /** A first request for key `a` still under way when the retry's request for key `b` is sent. */
  function TwoUnderWay(cfg: Config, db: Db, a: Seed, b: Seed): World {
    World(cfg, db, Absent, Await(1, b, false),
          [(0, Request(cfg.userSlug, cfg.projectSlug, Some(PublicKey(a)))), (1, Request(cfg.userSlug,
              cfg.projectSlug, Some(PublicKey(b))))],
          map[], 2)
  }

  lemma RetryAfterTimeout(cfg: Config, db: Db, a: Seed, b: Seed) returns (steps: seq<Step>)
    requires cfg.connected
    ensures Exec(Start(cfg, db, Absent), steps) == TwoUnderWay(cfg, db, a, b)
  {
    var w := Start(cfg, db, Absent);
    var s1 := [] + [Reconcile(true, a)];
    var s2 := s1 + [GiveUp];
    steps := s2 + [Reconcile(true, b)];
    ExecAppend(w, [], Reconcile(true, a));
    ExecAppend(w, s1, GiveUp);
    ExecAppend(w, s2, Reconcile(true, b));
    assert Exec(w, s1).inFlight == [TwoUnderWay(cfg, db, a, b).inFlight[0]];
  }

  // ---------------------------------------------------------------- any order of delivery

  /** What holds whatever the order: requests are the reconciler's own, and no reply is older than its request. */
  ghost predicate Base(w: World) {
    && (forall i | 0 <= i < |w.inFlight| ::
          w.inFlight[i].0 < w.sent && w.inFlight[i].1.userSlug == w.cfg.userSlug
          && w.inFlight[i].1.projectSlug == w.cfg.projectSlug && w.inFlight[i].1.nkeyPublic.Some?)
    && (forall id <- w.replies :: id < w.sent)
    && (Seeded(w) ==> w.pc.Idle?)
  }

  lemma BaseStep(w: World, step: Step)
    requires Base(w)
    ensures Base(Next(w, step))
  {
    if step.Deliver? && step.index < |w.inFlight| {
      var (_, req) := w.inFlight[step.index];
      RegisterIsExact(w.db, w.cfg.host, req, step.faults, "", "", "");
    }
  }

  lemma {:induction false} BaseInRun(w: World, steps: seq<Step>)
    requires w == Start(w.cfg, w.db, w.secret)
    ensures Base(Exec(w, steps)) && Exec(w, steps).cfg == w.cfg
  {
    if steps != [] {
      BaseInRun(w, steps[..|steps| - 1]);
      BaseStep(Exec(w, steps[..|steps| - 1]), steps[|steps| - 1]);
    }
  }

  /** Requests of this project can be accepted, now or after its access or host assignment changes. */
  predicate Known(w: World) { w.cfg.userSlug != "" && w.cfg.projectSlug != "" && w.cfg.userSlug in w.db.users }

  /** Every request in flight registers this seed's key. */
  predicate OnlyFor(w: World, seed: Seed) {
    forall i | 0 <= i < |w.inFlight| :: w.inFlight[i].1.nkeyPublic == Some(PublicKey(seed))
  }

  predicate Harmless(w: World, seed: Seed) { Known(w) ==> OnlyFor(w, seed) }

  /** A reconcile that registers a key now. */
  predicate Sends(w: World, step: Step) {
    step.Reconcile? && step.readOk && w.cfg.connected && w.pc.Idle? && !Seeded(w)
  }

  /** The latest attempt has a key that no request in flight can replace. */
  ghost predicate Calm(w: World) {
    && Base(w) && w.cfg.connected
    && (Seeded(w) ==> Harmless(w, w.secret.seed.value) && RowOf(w) == Some(PublicKey(w.secret.seed.value)))
    && (w.pc.Store? ==> Harmless(w, w.pc.seed) && RowOf(w) == Some(PublicKey(w.pc.seed)))
    && (w.pc.Await? ==>
        && Harmless(w, w.pc.seed)
        && (w.pc.id in w.replies && w.replies[w.pc.id].Registered? ==> RowOf(w) == Some(PublicKey(w.pc.seed))))
  }

  lemma CalmDeliver(w: World, i: nat, f: Faults)
    requires Calm(w) && i < |w.inFlight|
    ensures Calm(DeliverRequest(w, i, f))
  {
    var (id, req) := w.inFlight[i];
    RegisterIsExact(w.db, w.cfg.host, req, f, w.cfg.userSlug, w.cfg.host, w.cfg.projectSlug);
    BaseStep(w, Deliver(i, f));
  }

  /**
   A step that sends nothing, or sends while nothing in flight could replace the new key, keeps the latest key
   safe.
   */
  lemma CalmStep(w: World, step: Step)
    requires Calm(w) && (Sends(w, step) ==> Harmless(w, step.newSeed))
    ensures Calm(Next(w, step))
  {
    BaseStep(w, step);
    if step.Deliver? && step.index < |w.inFlight| { CalmDeliver(w, step.index, step.faults); }
  }

  lemma {:induction false} CalmInRun(w: World, more: seq<Step>)
    requires Calm(w) && forall i | 0 <= i < |more| :: !more[i].Reconcile?
    ensures Calm(Exec(w, more))
  {
    if more != [] {
      CalmInRun(w, more[..|more| - 1]);
      CalmStep(Exec(w, more[..|more| - 1]), more[|more| - 1]);
    }
  }

  /** Everything the running service can do next but reconcile again. */
  ghost predicate NoReconcile(more: seq<Step>) { forall i | 0 <= i < |more| :: !more[i].Reconcile? }

  const NO_FAULTS := Faults(false, false, false, false)

  /** The new request is accepted and its seed stored, then an earlier request lands. */
  function Overtake(w: World, i: nat): seq<Step> {
    var uid := if w.cfg.userSlug in w.db.users then w.db.users[w.cfg.userSlug] else 0;
    [Reassign(map[uid := {w.cfg.host}], map[(uid, w.cfg.projectSlug) := w.cfg.host]),
     Deliver(|w.inFlight|, NO_FAULTS), TakeReply, Write(true), Deliver(i, NO_FAULTS)]
  }

  lemma ExecCons(w: World, first: Step, rest: seq<Step>)
    ensures Exec(w, [first] + rest) == Exec(Next(w, first), rest)
    decreases |rest|
  {
    if rest == [] {
      ExecAppend(w, [], first);
      assert [first] + rest == [] + [first];
    } else {
      var init := rest[..|rest| - 1];
      assert ([first] + rest)[..|rest|] == [first] + init;
      ExecCons(w, first, init);
    }
  }

  /** The row's user may use the host, and the project is on it. */
  predicate Assigned(w: World) { Entitled(w.db, w.cfg.host, w.cfg.userSlug, w.cfg.projectSlug) }

  lemma Accepted(w: World, i: nat)
    requires i < |w.inFlight| && Base(w) && Assigned(w)
    ensures var (id, req) := w.inFlight[i];
            var w' := DeliverRequest(w, i, NO_FAULTS);
            && Assigned(w') && RowOf(w') == req.nkeyPublic && w'.replies == w.replies[id := Registered]
            && w'.inFlight == Without(w.inFlight, i) && w'.pc == w.pc && w'.secret == w.secret && Base(w')
  {
    var (id, req) := w.inFlight[i];
    RegisterIsExact(w.db, w.cfg.host, req, NO_FAULTS, w.cfg.userSlug, w.cfg.host, w.cfg.projectSlug);
    BaseStep(w, Deliver(i, NO_FAULTS));
  }

  lemma OvertakeBreaks(w: World, newSeed: Seed, i: nat)
    requires Base(w) && Sends(w, Reconcile(true, newSeed)) && Known(w)
    requires i < |w.inFlight| && w.inFlight[i].1.nkeyPublic != Some(PublicKey(newSeed))
    ensures !Agreed(Exec(BeginReconcile(w, true, newSeed), Overtake(w, i)))
  {
    var steps, n := Overtake(w, i), |w.inFlight|;
    var w0 := BeginReconcile(w, true, newSeed);
    BaseStep(w, Reconcile(true, newSeed));
    var w1 := Next(w0, steps[0]);
    BaseStep(w0, steps[0]);
    Accepted(w1, n);
    var w2 := Next(w1, steps[1]);
    assert w2.inFlight == w.inFlight;
    var w3 := Next(w2, TakeReply);
    var w4 := Next(w3, Write(true));
    assert w4.secret == Present(Some(newSeed)) && w4.inFlight == w.inFlight && w4.db == w2.db && w4.cfg == w.cfg;
    BaseStep(w2, TakeReply);
    BaseStep(w3, Write(true));
    Accepted(w4, i);
    FiveSteps(w0, steps);
  }

  lemma FiveSteps(w: World, s: seq<Step>)
    requires |s| == 5
    ensures Exec(w, s) == Next(Next(Next(Next(Next(w, s[0]), s[1]), s[2]), s[3]), s[4])
  {
    assert s[..1][..0] == [] && Exec(w, s[..1]) == Next(w, s[0]);
    assert s[..2][..1] == s[..1] && Exec(w, s[..2]) == Next(Exec(w, s[..1]), s[1]);
    assert s[..3][..2] == s[..2] && Exec(w, s[..3]) == Next(Exec(w, s[..2]), s[2]);
    assert s[..4][..3] == s[..3] && Exec(w, s[..4]) == Next(Exec(w, s[..3]), s[3]);
  }

  /**
   From every reachable state and with deliveries in any order, a reconcile that registers a new key keeps
   Secret and row agreed through everything but a further reconcile, if and only if no earlier request with
   another key is in flight for a project whose user exists.
   */
  lemma SeedMatchesRowIff(cfg: Config, db: Db, secret: Secret, steps: seq<Step>, newSeed: Seed)
    requires var w := Exec(Start(cfg, db, secret), steps); Sends(w, Reconcile(true, newSeed))
    ensures var w := Exec(Start(cfg, db, secret), steps);
            (forall more | NoReconcile(more) :: Agreed(Exec(BeginReconcile(w, true, newSeed), more)))
            <==> Harmless(w, newSeed)
  {
    var w := Exec(Start(cfg, db, secret), steps);
    var w0 := BeginReconcile(w, true, newSeed);
    BaseInRun(Start(cfg, db, secret), steps);
    if Harmless(w, newSeed) {
      BaseStep(w, Reconcile(true, newSeed));
      assert Calm(w0);
      forall more | NoReconcile(more) ensures Agreed(Exec(w0, more)) { CalmInRun(w0, more); }
    } else {
      var i :| 0 <= i < |w.inFlight| && w.inFlight[i].1.nkeyPublic != Some(PublicKey(newSeed));
      OvertakeBreaks(w, newSeed, i);
      assert NoReconcile(Overtake(w, i));
    }
  }

  /** Every registration in the run was sent while no request in flight could replace its key. */
  ghost predicate SendsCalmly(w: World, steps: seq<Step>) {
    forall i | 0 <= i < |steps| ::
      Sends(Exec(w, steps[..i]), steps[i]) ==> Harmless(Exec(w, steps[..i]), steps[i].newSeed)
  }

  /** In every run whose registrations were sent so, in whatever order they land, Secret and row agree. */
  lemma {:induction false} CalmSendsStayAgreed(w: World, steps: seq<Step>)
    requires w == Start(w.cfg, w.db, w.secret) && w.cfg.connected && Agreed(w) && SendsCalmly(w, steps)
    ensures Calm(Exec(w, steps)) && Agreed(Exec(w, steps))
  {
    if steps != [] {
      var init := steps[..|steps| - 1];
      assert forall i | 0 <= i < |init| :: init[..i] == steps[..i] && init[i] == steps[i];
      CalmSendsStayAgreed(w, init);
      CalmStep(Exec(w, init), steps[|steps| - 1]);
    }
  }

  /** A reconciler without a connection stores a seed it never registered. */
  lemma SkippedRegistrationBreaksIt(cfg: Config, db: Db, seed: Seed)
    requires !cfg.connected
    ensures !Agreed(Exec(Start(cfg, db.(credentials := map[]), Absent), [Reconcile(true, seed), Write(true)]))
  {
    var w := Start(cfg, db.(credentials := map[]), Absent);
    ExecCons(w, Reconcile(true, seed), [Write(true)]);
    ExecCons(Next(w, Reconcile(true, seed)), Write(true), []);
    assert [Reconcile(true, seed)] + [Write(true)] == [Reconcile(true, seed), Write(true)];
    assert [Write(true)] + [] == [Write(true)];
  }

  /** Order matters: a first request overtaken by its retry replaces the stored key's row when it lands. */
  lemma OvertakenRequestBreaksIt(cfg: Config, db: Db, a: Seed, b: Seed)
    requires cfg.connected && Entitled(db, cfg.host, cfg.userSlug, cfg.projectSlug) && a != b
    ensures exists steps :: !Agreed(Exec(Start(cfg, db, Absent), steps))
  {
    var w := Start(cfg, db, Absent);
    var none := Faults(false, false, false, false);
    var s3 := RetryAfterTimeout(cfg, db, a, b);
    var s4 := s3 + [Deliver(1, none)];
    var s5 := s4 + [TakeReply];
    var s6 := s5 + [Write(true)];
    ExecAppend(w, s3, Deliver(1, none));
    ExecAppend(w, s4, TakeReply);
    ExecAppend(w, s5, Write(true));
    ExecAppend(w, s6, Deliver(0, none));
    var reqs := TwoUnderWay(cfg, db, a, b).inFlight;
    assert Exec(w, s4).inFlight == [reqs[0]] && Exec(w, s4).replies == map[1 := Registered];
    assert Exec(w, s6).secret == Present(Some(b)) && Exec(w, s6).inFlight == [reqs[0]];
    assert RowOf(Exec(w, s6 + [Deliver(0, none)])) == Some(PublicKey(a));
  }
}
