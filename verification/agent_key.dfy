/** The control plane's registration handler and the reconciler as objects, tied to AgentKeySpec. */
module AgentKey {
  import opened Basics
  import opened AgentKeySpec

  class ControlPlane {
    var users: map<string, nat>
    var access: map<nat, set<string>>
    var projects: map<(nat, string), string>
    var credentials: map<(nat, string, string), PublicKey>

    function View(): Db
      reads this
    {
      Db(users, access, projects, credentials)
    }

    method HandleAgentRegister(host: string, req: Request, f: Faults) returns (reply: Reply)
      modifies `credentials
      ensures (View(), reply) == Register(old(View()), host, req, f)
    {
      if req.userSlug == "" || req.projectSlug == "" || req.nkeyPublic.None? { return InvalidRequest; }
      if f.user || req.userSlug !in users { return UserNotFound; }
      var uid := users[req.userSlug];
      if f.access { return InternalError; }
      var hasAccess := uid in access && host in access[uid];
      if !hasAccess { return NoHostAccess; }
      if f.project || (uid, req.projectSlug) !in projects { return ProjectNotFound; }
      if projects[(uid, req.projectSlug)] != host { return NotOnHost; }
      if f.store { return StoreFailed; }
      credentials := credentials[(uid, host, req.projectSlug) := req.nkeyPublic.value];
      return Registered;
    }
  }

  /** The reconciler of one project, with the request channel between it and the control plane. */
  class Reconciler {
    const cfg: Config
    const cp: ControlPlane
    var secret: Secret
    var pc: Pc
    var inFlight: seq<(nat, Request)>
    var replies: map<nat, Reply>
    var sent: nat

    constructor (cfg: Config, cp: ControlPlane, secret: Secret)
      ensures this.cp == cp && View() == Start(cfg, cp.View(), secret)
    {
      this.cfg, this.cp, this.secret := cfg, cp, secret;
      pc, inFlight, replies, sent := Idle, [], map[], 0;
    }

    ghost function View(): World
      reads this, cp
    {
      World(cfg, cp.View(), secret, pc, inFlight, replies, sent)
    }

    /** Up to the request: keep a stored seed, else generate a pair and register its public key. */
    method BeginReconcile(readOk: bool, newSeed: Seed)
      requires pc.Idle?
      modifies this
      ensures View() == AgentKeySpec.BeginReconcile(old(View()), readOk, newSeed)
    {
      if !readOk { return; }
      var secretExists := secret.Present?;
      if secretExists && secret.seed.Some? { return; }
      if cfg.connected {
        inFlight := inFlight + [(sent, Request(cfg.userSlug, cfg.projectSlug, Some(PublicKey(newSeed))))];
        pc := Await(sent, newSeed, secretExists);
        sent := sent + 1;
      } else {
        pc := Store(newSeed, secretExists);
      }
    }

    method Deliver(i: nat, f: Faults)
      requires i < |inFlight|
      modifies this, cp
      ensures View() == DeliverRequest(old(View()), i, f)
    {
      var (id, req) := inFlight[i];
      var reply := cp.HandleAgentRegister(cfg.host, req, f);
      inFlight := inFlight[..i] + inFlight[i + 1..];
      replies := replies[id := reply];
    }

    /** After the reply: any error ends the reconcile. */
    method TakeReply()
      requires pc.Await? && pc.id in replies
      modifies `pc
      ensures View() == Next(old(View()), Step.TakeReply)
    {
      if !replies[pc.id].Registered? {
        pc := Idle;
      } else {
        pc := Store(pc.seed, pc.existed);
      }
    }

    /** Creates or updates the Secret; `ok` is false when Kubernetes refuses the write. */
    method WriteSecret(ok: bool)
      requires pc.Store?
      modifies `secret, `pc
      ensures View() == AgentKeySpec.WriteSecret(old(View()), ok)
    {
      var seed, existed := pc.seed, pc.existed;
      pc := Idle;
      if !ok { return; }
      if !existed {
        if secret.Absent? { secret := Present(Some(seed)); }
      } else if secret.Present? {
        secret := Present(Some(seed));
      }
    }

    /** The reconciler's next piece, a delivery or loss on the channel, or a change made by someone else. */
    method Perform(step: Step)
      modifies this, cp
      ensures View() == Next(old(View()), step)
    {
      match step
      case Reconcile(readOk, newSeed) => if pc == Idle { BeginReconcile(readOk, newSeed); }
      case Deliver(i, f) => if i < |inFlight| { Deliver(i, f); }
      case Lose(i) => if i < |inFlight| { inFlight := inFlight[..i] + inFlight[i + 1..]; }
      case TakeReply => if pc.Await? && pc.id in replies { TakeReply(); }
      case GiveUp => pc := Idle;
      case Write(ok) => if pc.Store? { WriteSecret(ok); }
      case SecretGone(emptied) => secret := if emptied && secret.Present? then Present(None) else Absent;
      case Reassign(access, projects) => cp.access, cp.projects := access, projects;
    }

    /** Any schedule; if its registrations are sent calmly, the Secret's seed is the registered one at its end. */
    method Run(schedule: seq<Step>)
      requires View() == Start(cfg, cp.View(), secret)
      modifies this, cp
      ensures View() == Exec(old(View()), schedule)
      ensures cfg.connected && old(Agreed(View())) && SendsCalmly(old(View()), schedule) ==> Agreed(View())
    {
      ghost var start := View();
      for i := 0 to |schedule|
        invariant View() == Exec(start, schedule[..i])
      {
        assert schedule[..i + 1] == schedule[..i] + [schedule[i]];
        ExecAppend(start, schedule[..i], schedule[i]);
        Perform(schedule[i]);
      }
      assert schedule[..|schedule|] == schedule;
      if cfg.connected && Agreed(start) && SendsCalmly(start, schedule) { CalmSendsStayAgreed(start, schedule); }
    }
  }
}
