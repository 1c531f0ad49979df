/** The relay's shared tables as an object; every lock-protected section is tied to RelayTunnelsSpec. */
module RelayTunnels {
  import opened Basics
  import opened RelayRouting
  import opened RelayTunnelsSpec

  class RelayServer {
    var tunnels: map<string, nat>
    var entries: seq<Entry>
    var chans: seq<Chan>
    var reqSeq: nat
    var clients: map<nat, map<string, string>>
    var wsSeq: nat

    constructor ()
      ensures View() == EMPTY
    {
      tunnels, entries, chans, reqSeq, clients, wsSeq := map[], [], [], 0, map[], 0;
    }

    ghost function View(): Relay
      reads this
    {
      Relay(tunnels, entries, chans, reqSeq, clients, wsSeq)
    }

    /** The registering section of `HandleTunnel`: close the host's old connection, take its place. */
    method RegisterTunnel(host: string)
      modifies this
      ensures View() == RelayTunnelsSpec.RegisterTunnel(old(View()), host)
    {
      if host in tunnels {
        var last := tunnels[host];
        if last < |entries| { entries := entries[last := entries[last].(closed := true)]; }
      }
      tunnels := tunnels[host := |entries|];
      entries := entries + [Entry(host, map[], Reading, false)];
    }

    /** The start of `sendHTTPViaTunnel`. */
    method StartRequest(e: nat) returns (chan: nat)
      requires e < |entries|
      modifies this
      ensures chan == old(|chans|) && View() == AskVia(old(View()), e)
    {
      reqSeq := reqSeq + 1;
      chan := |chans|;
      chans := chans + [Chan(e, reqSeq, None, 0, 0, Sending)];
      entries := entries[e := entries[e].(pending := entries[e].pending[reqSeq := chan])];
    }

    /** A failed send or an expired wait. */
    method AbandonRequest(chan: nat)
      requires chan < |chans| && chans[chan].entry < |entries|
      modifies this
      ensures View() == Abandon(old(View()), chan)
    {
      var e := chans[chan].entry;
      entries := entries[e := entries[e].(pending := entries[e].pending - {chans[chan].id})];
      chans := chans[chan := chans[chan].(waiter := Done(None))];
    }

    /** The locked section of `dispatchTunnelMsg` for an HTTP response. */
    method MatchResponse(e: nat, id: nat)
      requires e < |entries| && entries[e].reader.Reading?
      modifies this
      ensures View() == ReadResponse(old(View()), e, id)
    {
      if id in entries[e].pending {
        var chan := entries[e].pending[id];
        var rest := entries[e].pending - {id};
        entries := entries[e := entries[e].(pending := rest, reader := Holding(chan, Response(id, e)))];
      }
    }

    method Deliver(e: nat)
      requires e < |entries| && entries[e].reader.Holding? && entries[e].reader.chan < |chans|
      modifies this
      ensures View() == HandOver(old(View()), e)
    {
      var Holding(chan, response) := entries[e].reader;
      if chans[chan].slot.None? {
        chans := chans[chan := chans[chan].(slot := Some(response), sends := chans[chan].sends + 1)];
      } else {
        chans := chans[chan := chans[chan].(dropped := chans[chan].dropped + 1)];
      }
      entries := entries[e := entries[e].(reader := Reading)];
    }

    /** The first teardown section: leave the map unless a newer entry took the host. */
    method UnlistTunnel(e: nat)
      requires e < |entries|
      modifies this
      ensures View() == RelayTunnelsSpec.UnlistTunnel(old(View()), e)
    {
      var host := entries[e].host;
      if host in tunnels && tunnels[host] == e {
        tunnels := tunnels - {host};
      }
      entries := entries[e := entries[e].(reader := Unlisted)];
    }

    /** The second teardown section: offer nil to every pending request. */
    method FailPending(e: nat)
      requires e < |entries| && EntryOk(e, entries[e], chans) && entries[e].reader.Unlisted?
      modifies `entries, `chans
      ensures View() == DrainTunnel(old(View()), e)
    {
      var todo := entries[e].pending;
      while todo != map[]
        invariant |chans| == old(|chans|) && entries == old(entries)
        invariant forall id <- todo :: id in entries[e].pending && entries[e].pending[id] == todo[id]
        invariant forall c | 0 <= c < |chans| ::
            chans[c] == if old(chans)[c].id in todo then old(chans)[c] else Failed(entries[e], c, old(chans)[c])
        decreases |todo|
      {
        var id :| id in todo;
        var c := todo[id];
        chans := chans[c := Offer(chans[c], NilReply)];
        todo := todo - {id};
      }
      ghost var drained := DrainTunnel(old(View()), e);
      assert forall c | 0 <= c < |chans| :: chans[c] == drained.chans[c];
      assert chans == drained.chans;
      entries := entries[e := entries[e].(pending := map[], reader := Drained)];
    }

    /** The last teardown section: no client keeps a tunnel-side ID for the host, and each that had one is told. */
    method ForgetTunnel(e: nat) returns (closed: map<nat, string>)
      requires e < |entries|
      modifies `clients
      ensures View() == ForgetHost(old(View()), entries[e].host)
      ensures closed == map n | n in old(clients) && entries[e].host in old(clients)[n] ::
              old(clients)[n][entries[e].host]
    {
      var host := entries[e].host;
      var todo := clients.Keys;
      closed := map[];
      while todo != {}
        invariant todo <= old(clients).Keys && clients.Keys == old(clients).Keys
        invariant forall n <- clients :: clients[n] == if n in todo then old(clients)[n] else old(clients)[n] - {host}
        invariant closed == map n | n in old(clients) && n !in todo && host in old(clients)[n] :: old(clients)[n][host]
        decreases todo
      {
        var n :| n in todo;
        if host in clients[n] {
          closed := closed[n := clients[n][host]];
          clients := clients[n := clients[n] - {host}];
        }
        todo := todo - {n};
      }
    }

    method JoinClient() returns (n: nat)
      modifies this
      ensures n == old(wsSeq) + 1 && View() == Next(old(View()), Join)
    {
      wsSeq := wsSeq + 1;
      n := wsSeq;
      clients := clients[n := map[]];
    }

    method BindClient(n: nat, host: string)
      requires n in clients
      modifies `clients
      ensures View() == Next(old(View()), Bind(n, host))
    {
      clients := clients[n := clients[n][host := TunnelWsID(ClientID(n), host)]];
    }

    /** Forwards one tunnel frame: the clients that own its ID on this host, in a reachable state never two. */
    method Recipients(id: string, host: string) returns (ns: set<nat>)
      ensures forall n :: n in ns <==> Matches(View(), n, id, host)
      ensures Bindings(View()) ==> forall m, n | m in ns && n in ns :: m == n
    {
      ns := {};
      var todo := clients.Keys;
      while todo != {}
        invariant todo <= clients.Keys
        invariant forall n :: n in ns <==> n !in todo && Matches(View(), n, id, host)
        decreases todo
      {
        var n :| n in todo;
        var matched := Owns(clients[n], id, host);
        if matched { ns := ns + {n}; }
        todo := todo - {n};
      }
      forall m, n | Bindings(View()) && m in ns && n in ns ensures m == n { BoundMatchesOne(View(), m, n, id, host); }
    }

    /** The search through one client's tunnel-side IDs. */
    static method Owns(tunnelIDs: map<string, string>, id: string, host: string) returns (matched: bool)
      ensures matched <==> host in tunnelIDs && tunnelIDs[host] == id
    {
      var todo := tunnelIDs.Keys;
      while todo != {}
        invariant todo <= tunnelIDs.Keys
        invariant host in tunnelIDs && host !in todo ==> tunnelIDs[host] != id
        decreases todo
      {
        var h :| h in todo;
        if tunnelIDs[h] == id && h == host { return true; }
        todo := todo - {h};
      }
      return false;
    }

    /** A request's own steps. */
    method PerformRequest(step: Step)
      requires step.Ask? || step.Sent? || step.Take? || step.Timeout?
      modifies this
      ensures View() == Next(old(View()), step)
    {
      match step
      case Ask(e) => if e < |entries| { var _ := StartRequest(e); }
      case Sent(c, ok) =>
        if c < |chans| && chans[c].waiter == Sending && chans[c].entry < |entries| {
          if ok { chans := chans[c := chans[c].(waiter := Waiting)]; } else { AbandonRequest(c); }
        }
      case Take(c) =>
        if c < |chans| && chans[c].waiter == Waiting && chans[c].slot.Some? {
          var reply := chans[c].slot.value;
          chans := chans[c := chans[c].(slot := None, waiter := Done(Some(reply)))];
        }
      case Timeout(c) =>
        if c < |chans| && chans[c].waiter == Waiting && chans[c].entry < |entries| { AbandonRequest(c); }
    }

    /** A tunnel's steps: registering, its reader, its teardown. */
    method PerformTunnel(step: Step)
      requires step.Register? || step.Read? || step.Hand? || step.Unlist? || step.Drain? || step.Forget?
      requires Replies(View())
      modifies this
      ensures View() == Next(old(View()), step)
    {
      match step
      case Register(host) => RegisterTunnel(host);
      case Read(e, id) => if e < |entries| && entries[e].reader == Reading { MatchResponse(e, id); }
      case Hand(e) =>
        if e < |entries| && entries[e].reader.Holding? && entries[e].reader.chan < |chans| { Deliver(e); }
      case Unlist(e) => if e < |entries| && entries[e].reader == Reading { UnlistTunnel(e); }
      case Drain(e) => if e < |entries| && entries[e].reader == Unlisted { FailPending(e); }
      case Forget(e) => if e < |entries| && entries[e].reader == Drained { var _ := ForgetTunnel(e); }
    }

    /** A phone socket's steps. */
    method PerformClient(step: Step)
      requires step.Join? || step.Bind? || step.Leave?
      modifies this
      ensures View() == Next(old(View()), step)
    {
      match step
      case Join => var _ := JoinClient();
      case Bind(n, host) => if n in clients { BindClient(n, host); }
      case Leave(n) => clients := clients - {n};
    }

    method Perform(step: Step)
      requires Replies(View())
      modifies this
      ensures View() == Next(old(View()), step) && Replies(View())
    {
      RepliesStep(View(), step);
      if step.Ask? || step.Sent? || step.Take? || step.Timeout? {
        PerformRequest(step);
      } else if step.Join? || step.Bind? || step.Leave? {
        PerformClient(step);
      } else {
        PerformTunnel(step);
      }
    }

    /** Any interleaving from the relay's start, and what the laws say of the tables it leaves. */
    method Run(schedule: seq<Step>)
      requires View() == EMPTY
      modifies this
      ensures View() == Exec(schedule)
      ensures forall c | 0 <= c < |chans| :: chans[c].sends <= 1 && chans[c].dropped == 0
      ensures forall host: string, e: nat ::
                host in tunnels && tunnels[host] == e <==> Latest(entries, host, e) && !TornDown(entries[e])
    {
      RepliesInRun([]);
      for i := 0 to |schedule|
        invariant View() == Exec(schedule[..i]) && Replies(View())
      {
        assert schedule[..i + 1] == schedule[..i] + [schedule[i]];
        ExecAppend(EMPTY, schedule[..i], schedule[i]);
        Perform(schedule[i]);
      }
      assert schedule[..|schedule|] == schedule;
      forall c: nat | c < |chans| ensures chans[c].sends <= 1 && chans[c].dropped == 0 {
        EachRequestGetsAtMostItsOwnReply(schedule, c);
      }
      forall host: string, e: nat
        ensures host in tunnels && tunnels[host] == e <==> Latest(entries, host, e) && !TornDown(entries[e])
      {
        ListedExactly(schedule, host, e);
      }
    }
  }
}
