/**
 The relay's naming schemes (relay.go): laptop-prefixed session IDs, the route taken by a
 `/sessions/...` path, the merged session list, and the tunnel-side IDs of phone sockets.
 */
module RelayRouting {
  import opened Basics

  // ---------------------------------------------------------------- prefixed IDs

  function PrefixSessionID(host: string, id: string): string { host + "~" + id }

  /** Index of the first `c`, or the length of `s`. */
  function IndexOf(s: string, c: char): (i: nat)
    ensures i <= |s| && (forall k | 0 <= k < i :: s[k] != c) && (i < |s| ==> s[i] == c)
  {
    if s == "" || s[0] == c then 0 else IndexOf(s[1..], c) + 1
  }

  function ParsePrefixedID(p: string): (string, string) {
    var i := IndexOf(p, '~');
    if i < |p| then (p[..i], p[i + 1..]) else ("default", p)
  }

  lemma IndexOfAt(a: string, c: char, b: string)
    requires c !in a
    ensures IndexOf(a + [c] + b, c) == |a|
  {
    var s := a + [c] + b;
    assert s[|a|] == c;
    assert forall k | 0 <= k < |a| :: s[k] == a[k];
  }

  /** Parsing undoes prefixing exactly when the host name has no separator. */
  lemma ParseUndoesPrefixIff(host: string, id: string)
    ensures ParsePrefixedID(PrefixSessionID(host, id)) == (host, id) <==> '~' !in host
  {
    var p := PrefixSessionID(host, id);
    if '~' !in host {
      IndexOfAt(host, '~', id);
      assert p[..|host|] == host && p[|host| + 1..] == id;
    } else {
      var k :| 0 <= k < |host| && host[k] == '~';
      var i := IndexOf(p, '~');
      assert p[k] == '~';
      assert i <= k;
    }
  }

  // ---------------------------------------------------------------- routes

  const SESSIONS := "/sessions/"

  /** The host and rewritten path for a session path, given what follows `/sessions/`. */
  function Route(rest: string): (string, string) {
    var i := IndexOf(rest, '/');
    var (host, id) := ParsePrefixedID(rest[..i]);
    (host, SESSIONS + id + rest[i..])
  }

  /** The session part of `HandleAPI`'s routing; None for other paths. */
  function RoutePath(path: string): Option<(string, string)> {
    if SESSIONS <= path then Some(Route(path[|SESSIONS|..])) else None
  }

  /** The path a client uses for session `id` of `host`; `tail` is whatever follows the ID. */
  function SessionPath(host: string, id: string, tail: string): string {
    SESSIONS + PrefixSessionID(host, id) + tail
  }

  lemma RoutedHostIsPlain(rest: string)
    ensures '~' !in Route(rest).0 && '/' !in Route(rest).0
  {}

  lemma PlainHostRoutesHome(host: string, id: string, tail: string)
    requires '~' !in host && '/' !in host
    ensures Route(PrefixSessionID(host, id) + tail) == (host, SESSIONS + id + tail)
  {
    var both := id + tail;
    var rest := PrefixSessionID(host, id) + tail;
    assert rest == host + "~" + both;
    var i := IndexOf(rest, '/');
    assert rest[|host|] == '~' && forall k | 0 <= k < |host| :: rest[k] == host[k];
    var x := both[..i - |host| - 1];
    assert rest[..i] == PrefixSessionID(host, x);
    ParseUndoesPrefixIff(host, x);
    assert x + rest[i..] == both by { assert rest[i..] == both[i - |host| - 1..]; }
    assert SESSIONS + x + rest[i..] == SESSIONS + both == SESSIONS + id + tail;
  }

  /** A fan-out ID routes back to its laptop with its own ID and tail exactly when the host has no '~' and no '/'. */
  lemma RouteReturnsHomeIff(host: string, id: string, tail: string)
    ensures RoutePath(SessionPath(host, id, tail)) == Some((host, SESSIONS + id + tail)) <==>
            '~' !in host && '/' !in host
  {
    var rest := PrefixSessionID(host, id) + tail;
    assert SessionPath(host, id, tail) == SESSIONS + rest;
    assert SessionPath(host, id, tail)[|SESSIONS|..] == rest;
    RoutedHostIsPlain(rest);
    if '~' !in host && '/' !in host { PlainHostRoutesHome(host, id, tail); }
  }

  /** Session routing is for the paths under `/sessions/` and no others. */
  lemma RoutedIff(path: string)
    ensures RoutePath(path).Some? <==> exists rest :: path == "/sessions/" + rest
  {
    if SESSIONS <= path { assert path == SESSIONS + path[|SESSIONS|..]; }
  }

  /** An ID without a prefix goes to the laptop called "default", under the same path. */
  lemma UnprefixedRoutesToDefault(id: string, tail: string)
    requires '~' !in id && '/' !in id && (tail == "" || tail[0] == '/')
    ensures RoutePath("/sessions/" + id + tail) == Some(("default", "/sessions/" + id + tail))
  {
    var rest := id + tail;
    assert ("/sessions/" + id + tail)[|SESSIONS|..] == rest;
    assert IndexOf(rest, '/') == |id| by {
      assert forall k | 0 <= k < |id| :: rest[k] == id[k];
      if tail != "" { assert rest[|id|] == '/'; }
    }
    assert rest[..|id|] == id && rest[|id|..] == tail;
    assert IndexOf(id, '~') == |id|;
  }

  // ---------------------------------------------------------------- fan-out

  /** A session as a laptop lists it; None when its ID is not a string. */
  datatype Session = Session(id: Option<string>, laptop: string)

  function Tagged(host: string, s: Session): Session {
    Session(if s.id.Some? then Some(PrefixSessionID(host, s.id.value)) else None, host)
  }

  /** A merged session is labelled with its laptop; its ID, if it has one, is prefixed. */
  lemma TaggedIff(host: string, s: Session)
    ensures Tagged(host, s).laptop == host
    ensures forall id :: Tagged(host, s).id == Some(host + "~" + id) <==> s.id == Some(id)
    ensures Tagged(host, s).id.None? <==> s.id.None?
  {
    forall id ensures Tagged(host, s).id == Some(host + "~" + id) <==> s.id == Some(id) {
      if s.id.Some? && host + "~" + s.id.value == host + "~" + id {
        assert s.id.value == (host + "~" + s.id.value)[|host| + 1..] == (host + "~" + id)[|host| + 1..] == id;
      }
    }
  }

  /** Tags one laptop's list in place. */
  method TagSessions(sessions: array<Session>, host: string)
    modifies sessions
    ensures forall i | 0 <= i < sessions.Length :: sessions[i] == Tagged(host, old(sessions[i]))
  {
    for i := 0 to sessions.Length
      invariant forall j | 0 <= j < i :: sessions[j] == Tagged(host, old(sessions[j]))
      invariant forall j | i <= j < sessions.Length :: sessions[j] == old(sessions[j])
    {
      if sessions[i].id.Some? {
        sessions[i] := sessions[i].(id := Some(PrefixSessionID(host, sessions[i].id.value)));
      }
      sessions[i] := sessions[i].(laptop := host);
    }
  }

  /** Two merged sessions with one ID come from one laptop and one original ID. */
  lemma MergedIDsAreDistinct(h1: string, s1: Session, h2: string, s2: Session)
    requires '~' !in h1 && '~' !in h2
    requires s1.id.Some? && s2.id.Some? && Tagged(h1, s1).id == Tagged(h2, s2).id
    ensures h1 == h2 && s1.id == s2.id
  {
    ParseUndoesPrefixIff(h1, s1.id.value);
    ParseUndoesPrefixIff(h2, s2.id.value);
  }

  // ---------------------------------------------------------------- socket IDs

  function Decimal(n: nat): (d: string)
    ensures d != "" && forall c <- d :: '0' <= c <= '9'
  {
    var digit := [('0' as int + n % 10) as char];
    if n < 10 then digit else Decimal(n / 10) + digit
  }

  lemma {:induction false} DecimalIsInjective(m: nat, n: nat)
    requires Decimal(m) == Decimal(n)
    ensures m == n
  {
    var a, b := Decimal(m), Decimal(n);
    assert a[|a| - 1] == b[|b| - 1];
    if m >= 10 && n >= 10 {
      assert a[..|a| - 1] == Decimal(m / 10) && b[..|b| - 1] == Decimal(n / 10);
      DecimalIsInjective(m / 10, n / 10);
    }
  }

  /** The number a decimal writes. */
  function Value(d: string): int {
    if d == "" then 0 else 10 * Value(d[..|d| - 1]) + (d[|d| - 1] as int - '0' as int)
  }

  /** A decimal writes its number, without leading zeros. */
  lemma {:induction false} DecimalWritesItsNumber(n: nat)
    ensures Value(Decimal(n)) == n && (Decimal(n)[0] == '0' ==> n == 0)
  {
    var d := Decimal(n);
    if n >= 10 {
      DecimalWritesItsNumber(n / 10);
      assert d[..|d| - 1] == Decimal(n / 10);
    } else {
      assert d[..|d| - 1] == "";
    }
  }

  /** The tunnel-side ID is "ws-", the client's number, a dash, and the host. */
  lemma TunnelWsIDIsMadeOf(n: nat, host: string) returns (d: string)
    ensures Value(d) == n && TunnelWsID(ClientID(n), host) == "ws-" + d + "-" + host
  {
    d := Decimal(n);
    DecimalWritesItsNumber(n);
  }

  function ClientID(n: nat): string { "ws-" + Decimal(n) }
  function TunnelWsID(client: string, host: string): string { client + "-" + host }

  /** The tunnel-side ID determines both the client number and the host. */
  lemma TunnelWsIDIsInjective(m: nat, g: string, n: nat, h: string)
    requires TunnelWsID(ClientID(m), g) == TunnelWsID(ClientID(n), h)
    ensures m == n && g == h
  {
    var s, t := Decimal(m) + "-" + g, Decimal(n) + "-" + h;
    assert TunnelWsID(ClientID(m), g) == "ws-" + s && TunnelWsID(ClientID(n), h) == "ws-" + t;
    assert s == ("ws-" + s)[3..] == ("ws-" + t)[3..] == t;
    IndexOfAt(Decimal(m), '-', g);
    IndexOfAt(Decimal(n), '-', h);
    assert Decimal(m) == s[..|Decimal(m)|] && Decimal(n) == t[..|Decimal(n)|];
    DecimalIsInjective(m, n);
    assert g == s[|Decimal(m)| + 1..] && h == t[|Decimal(n)| + 1..];
  }
}
