/**
 Keeping a connection to one peer over its best transport (manager.rs, transport.rs): candidates in
 priority order, three missed pings, redialling, and going back to the local network when it answers.

 An open connection is live when its pings come back. That is independent of whether its address can
 be dialled: a peer that restarted leaves a dead connection to an address that answers.
 */
module Failover {
  import opened Outcomes

  datatype Transport = Lan | Tailscale | Manual

  datatype Address = Address(addr: string, transport: Transport)

  datatype Connection = Connection(to: Address, alive: bool)

  datatype Peer = Peer(candidates: seq<Address>, active: Option<Connection>, misses: nat)

  /** The surroundings: whether the local network is switched off by simulation, and who answers at which address. */
  datatype Net = Net(lanDisabled: bool, answering: map<Address, string>)

  function Priority(a: Address): (p: nat)
    ensures 1 <= p <= 3
  {
    match a.transport
    case Lan => 1
    case Tailscale => 2
    case Manual => 3
  }

  predicate Barred(net: Net, a: Address) {
    a.transport == Lan && net.lanDisabled
  }

  /** May be dialled, and answers. */
  predicate Up(net: Net, a: Address) {
    !Barred(net, a) && a in net.answering
  }

  /** The first candidate in order that may be dialled and answers. */
  function FirstReachable(candidates: seq<Address>, net: Net): (first: Option<Address>)
    ensures first.Some? ==> first.value in candidates && Up(net, first.value)
    ensures first.None? ==> forall a :: a in candidates ==> !Up(net, a)
  {
    if candidates == [] then None
    else if !Barred(net, candidates[0]) && candidates[0] in net.answering then Some(candidates[0])
    else FirstReachable(candidates[1..], net)
  }

  function FirstLan(candidates: seq<Address>): (first: Option<Address>)
    ensures first.Some? ==> first.value in candidates && first.value.transport == Lan
    ensures first.None? ==> forall a :: a in candidates ==> a.transport != Lan
  {
    if candidates == [] then None
    else if candidates[0].transport == Lan then Some(candidates[0])
    else FirstLan(candidates[1..])
  }

  function Connect(p: Peer, net: Net): (q: Peer)
    ensures q.candidates == p.candidates
  {
    if p.active.Some? then p
    else
      match FirstReachable(p.candidates, net)
      case Some(a) => p.(active := Some(Connection(a, true)), misses := 0)
      case None => p
  }

  /** One maintenance round for one peer. */
  function Maintain(p: Peer, net: Net): (q: Peer)
    ensures q.candidates == p.candidates
  {
    match p.active
    case None => Connect(p.(misses := 0), net)
    case Some(c) =>
      if Barred(net, c.to) then Connect(p.(active := None, misses := 0), net)
      else if !c.alive && p.misses + 1 >= 3 then Connect(p.(active := None, misses := 0), net)
      else
        var pinged := p.(misses := if c.alive then 0 else p.misses + 1);
        if c.to.transport == Tailscale && !net.lanDisabled then
          match FirstLan(p.candidates)
          case Some(lan) =>
            if lan in net.answering then pinged.(active := Some(Connection(lan, true)), misses := 0) else pinged
          case None => pinged
        else pinged
  }

  function Rounds(p: Peer, net: Net, n: nat): (q: Peer)
    ensures q.candidates == p.candidates
  {
    if n == 0 then p else Maintain(Rounds(p, net, n - 1), net)
  }

  ghost predicate Sorted(s: seq<Address>) {
    forall i, j :: 0 <= i < j < |s| ==> Priority(s[i]) <= Priority(s[j])
  }

  // ---------- the best transport ----------

  ghost predicate Dialable(candidates: seq<Address>, net: Net, t: Transport) {
    exists a :: a in candidates && a.transport == t && Up(net, a)
  }

  predicate Works(net: Net, c: Connection) {
    c.alive && !Barred(net, c.to)
  }

  ghost predicate Reaches(p: Peer, net: Net, t: Transport) {
    Dialable(p.candidates, net, t) || (p.active.Some? && Works(net, p.active.value) && p.active.value.to.transport == t)
  }

  /** The best transport there is, over a candidate that answers or the connection there is. */
  ghost function Best(p: Peer, net: Net): (best: Option<Transport>)
    ensures best.Some? ==> Reaches(p, net, best.value)
  {
    if Reaches(p, net, Lan) then Some(Lan)
    else if Reaches(p, net, Tailscale) then Some(Tailscale)
    else if Reaches(p, net, Manual) then Some(Manual)
    else None
  }

  ghost predicate Settled(p: Peer, net: Net) {
    match p.active
    case None => Best(p, net) == None
    case Some(c) => Works(net, c) && Best(p, net) == Some(c.to.transport)
  }

  /** A working connection that is never given up for the better transport that is there. */
  ghost predicate Stuck(p: Peer, net: Net) {
    p.active.Some? && Works(net, p.active.value) &&
    match p.active.value.to.transport
    case Lan => false
    case Tailscale =>
      Dialable(p.candidates, net, Lan) &&
      !(FirstLan(p.candidates).Some? && FirstLan(p.candidates).value in net.answering)
    case Manual => Dialable(p.candidates, net, Lan) || Dialable(p.candidates, net, Tailscale)
  }

  // ---------- one round, spelled out ----------

  /** It answers, and is not a local address while the local network is switched off. */
  predicate Answers(net: Net, a: Address) {
    a in net.answering && (net.lanDisabled ==> a.transport != Lan)
  }

  /** The first position in order whose address answers. */
  ghost predicate IsFirstUp(candidates: seq<Address>, net: Net, i: nat) {
    i < |candidates| && Answers(net, candidates[i]) && forall j :: 0 <= j < i ==> !Answers(net, candidates[j])
  }

  ghost predicate IsFirstLan(candidates: seq<Address>, i: nat) {
    i < |candidates| && candidates[i].transport == Lan && forall j :: 0 <= j < i ==> candidates[j].transport != Lan
  }

  lemma {:induction false} FirstReachableIsFirst(candidates: seq<Address>, net: Net) returns (i: nat)
    requires FirstReachable(candidates, net).Some?
    ensures IsFirstUp(candidates, net, i) && FirstReachable(candidates, net) == Some(candidates[i])
  {
    if Up(net, candidates[0]) {
      i := 0;
    } else {
      var m := FirstReachableIsFirst(candidates[1..], net);
      i := m + 1;
      assert forall j :: 0 < j < i ==> candidates[j] == candidates[1..][j - 1];
    }
  }

  lemma {:induction false} FirstLanIsFirst(candidates: seq<Address>) returns (i: nat)
    requires FirstLan(candidates).Some?
    ensures IsFirstLan(candidates, i) && FirstLan(candidates) == Some(candidates[i])
  {
    if candidates[0].transport == Lan {
      i := 0;
    } else {
      var m := FirstLanIsFirst(candidates[1..]);
      i := m + 1;
      assert forall j :: 0 < j < i ==> candidates[j] == candidates[1..][j - 1];
    }
  }

  lemma FirstUpIsUnique(candidates: seq<Address>, net: Net, i: nat, j: nat)
    requires IsFirstUp(candidates, net, i) && IsFirstUp(candidates, net, j)
    ensures i == j
  {}

  /** The connection is gone: the first candidate that answers is connected, or none is. */
  ghost predicate Redialled(p: Peer, q: Peer, net: Net) {
    q.candidates == p.candidates &&
    if exists i: nat :: IsFirstUp(p.candidates, net, i) then
      exists i: nat :: IsFirstUp(p.candidates, net, i) && q.active == Some(Connection(p.candidates[i], true)) &&
        q.misses == 0
    else q.active == None
  }

  lemma DialRedials(p: Peer, net: Net)
    requires p.active == None
    ensures Redialled(p, Connect(p, net), net) && Connect(p, net).misses <= p.misses
  {
    if FirstReachable(p.candidates, net).Some? {
      var i := FirstReachableIsFirst(p.candidates, net);
    } else {
      forall i: nat ensures !IsFirstUp(p.candidates, net, i) {
        assert i < |p.candidates| ==> p.candidates[i] in p.candidates;
      }
    }
  }

  /** A connection is given up when its transport is switched off, and when it misses its third ping in a row. */
  predicate GivesUp(p: Peer, net: Net) {
    || p.active.None?
    || (p.active.value.to.transport == Lan && net.lanDisabled)
    || (!p.active.value.alive && 2 <= p.misses)
  }

  /** Over Tailscale the first local candidate is tried, unless the local network is switched off. */
  ghost predicate Restores(p: Peer, net: Net, i: nat) {
    p.active.Some? && p.active.value.to.transport == Tailscale && !net.lanDisabled &&
    IsFirstLan(p.candidates, i) && p.candidates[i] in net.answering
  }

  /**
   What a round does: it gives the connection up and redials, or goes back to the local network, or counts the ping.
   */
  lemma RoundDoes(p: Peer, net: Net)
    ensures var q := Maintain(p, net);
            && (GivesUp(p, net) ==> Redialled(p, q, net) && q.misses == 0)
            && (forall i: nat :: !GivesUp(p, net) && Restores(p, net, i) ==>
                  q == p.(active := Some(Connection(p.candidates[i], true)), misses := 0))
            && (!GivesUp(p, net) && (forall i: nat :: !Restores(p, net, i)) ==>
                  q == p.(misses := if p.active.value.alive then 0 else p.misses + 1))
  {
    hide FirstReachable;
    DialRedials(p.(active := None, misses := 0), net);
    hide Connect, Redialled;
    if !GivesUp(p, net) && FirstLan(p.candidates).Some? {
      var i := FirstLanIsFirst(p.candidates);
      var c := p.active.value;
      assert c.to.transport == Tailscale && !net.lanDisabled && p.candidates[i] in net.answering ==>
             Restores(p, net, i);
    }
    forall i: nat, j: nat | IsFirstLan(p.candidates, i) && IsFirstLan(p.candidates, j) ensures i == j {
    }
    forall i: nat | Restores(p, net, i) ensures FirstLan(p.candidates).Some? {
      assert p.candidates[i] in p.candidates;
    }
  }

  /** In a sorted list the first that answers has the best priority of all that answer. */
  lemma {:induction false} FirstReachableIsBest(candidates: seq<Address>, net: Net, a: Address)
    requires Sorted(candidates) && a in candidates && Up(net, a)
    ensures Priority(FirstReachable(candidates, net).value) <= Priority(a)
  {
    if !Up(net, candidates[0]) {
      FirstReachableIsBest(candidates[1..], net, a);
    }
  }

  /** Dialling from scratch finds the best transport. */
  lemma DialSettles(p: Peer, net: Net)
    requires Sorted(p.candidates) && p.active == None
    ensures Settled(Connect(p, net), net) && Best(Connect(p, net), net) == Best(p, net)
    ensures Connect(p, net).misses <= p.misses
  {
    hide Sorted;
    match FirstReachable(p.candidates, net)
    case None =>
    case Some(first) =>
      assert Dialable(p.candidates, net, first.transport);
      forall a | a in p.candidates && Up(net, a) ensures Priority(first) <= Priority(a) {
        FirstReachableIsBest(p.candidates, net, a);
      }
  }

  /** A round leaves a stuck peer stuck. Any other it settles, or counts one more miss on a connection that is dead. */
  lemma OneRound(p: Peer, net: Net)
    requires Sorted(p.candidates)
    ensures var q := Maintain(p, net);
            && q.misses <= 2 && Best(q, net) == Best(p, net)
            && (Stuck(p, net) ==> q == p.(misses := 0))
            && (!Stuck(p, net) ==> Settled(q, net) || (p.misses < 2 && q == p.(misses := p.misses + 1)))
            && (Settled(p, net) ==> Settled(q, net))
  {
    hide Sorted, FirstReachable;
    match p.active
    case None =>
      DialSettles(p.(misses := 0), net);
    case Some(c) =>
      if Barred(net, c.to) || (!c.alive && p.misses + 1 >= 3) {
        DialSettles(p.(active := None, misses := 0), net);
      } else {
        HealthyRound(p, net, c);
      }
  }

  lemma HealthyRound(p: Peer, net: Net, c: Connection)
    requires p.active == Some(c) && !Barred(net, c.to) && (c.alive || p.misses < 2)
    ensures var q := Maintain(p, net);
            && q.misses <= 2 && Best(q, net) == Best(p, net)
            && (Stuck(p, net) ==> q == p.(misses := 0))
            && (!Stuck(p, net) ==> Settled(q, net) || (p.misses < 2 && q == p.(misses := p.misses + 1)))
            && (Settled(p, net) ==> Settled(q, net))
  {
    var lan := FirstLan(p.candidates);
    if lan.Some? && !net.lanDisabled && lan.value in net.answering {
      assert Dialable(p.candidates, net, Lan);
    }
  }

  lemma SettledIsNotStuck(p: Peer, net: Net)
    requires Settled(p, net)
    ensures !Stuck(p, net)
  {}

  /** Until the peer is settled every round is one more miss, so the third round settles it, unless it is stuck. */
  lemma {:induction false} RoundsSettle(p: Peer, net: Net, n: nat)
    requires Sorted(p.candidates)
    ensures var q := Rounds(p, net, n);
            && Best(q, net) == Best(p, net) && (0 < n ==> q.misses <= 2)
            && (Stuck(p, net) ==> q == if n == 0 then p else p.(misses := 0))
            && (!Stuck(p, net) && 0 < n ==>
                  Settled(q, net) || (q.misses == p.misses + n && q == p.(misses := q.misses)))
  {
    hide Sorted, Maintain, Best, Settled, Dialable, Works;
    if 0 < n {
      var before := Rounds(p, net, n - 1);
      RoundsSettle(p, net, n - 1);
      OneRound(before, net);
    }
  }

  /**
   Exactly when failover succeeds: from any state, after three or more rounds the peer is on the best transport
   there is, if and only if it did not start out on a working connection that is never given up for a better one.
   A stuck peer stays on that connection for good.
   */
  lemma FailoverIff(p: Peer, net: Net, n: nat)
    requires Sorted(p.candidates) && 3 <= n
    ensures Settled(Rounds(p, net, n), net) <==> !Stuck(p, net)
    ensures Stuck(p, net) ==> Rounds(p, net, n).active == p.active
    ensures Rounds(p, net, n).misses <= 2 && Best(Rounds(p, net, n), net) == Best(p, net)
  {
    hide Sorted, Best, Settled, Works, Rounds;
    RoundsSettle(p, net, n);
    if Settled(Rounds(p, net, n), net) {
      SettledIsNotStuck(Rounds(p, net, n), net);
    }
  }

  /** A list with at most one local address and no manual one. */
  ghost predicate Plain(p: Peer) {
    (forall a, b :: a in p.candidates && b in p.candidates && a.transport == b.transport == Lan ==> a == b) &&
    (p.active.Some? ==> p.active.value.to.transport != Manual)
  }

  /**
   With one local address and no manual connection, within three rounds the peer is on its best transport, and stays
   there.
   */
  lemma BoundedFailover(p: Peer, net: Net, n: nat)
    requires Sorted(p.candidates) && Plain(p) && 3 <= n
    ensures var q := Rounds(p, net, n);
            && q.misses <= 2
            && match Best(p, net)
               case None => q.active == None
               case Some(t) => q.active.Some? && q.active.value.to.transport == t && Works(net, q.active.value)
  {
    FailoverIff(p, net, n);
    hide Sorted, Rounds, Best;
  }

  /** Between rounds the miss counter stays below the limit, whatever the network does. */
  lemma MissesStayBelowThree(p: Peer, net: Net)
    ensures Maintain(p, net).misses <= 2
  {}

  /** With two local addresses a peer can stay on the slower transport for good: only the first one is probed. */
  lemma SecondLanIsNotProbed(n: nat)
    requires 3 <= n
    ensures var dead, lan, ts := Address("a", Lan), Address("b", Lan), Address("c", Tailscale);
            var p, net := Peer([dead, lan, ts], Some(Connection(ts, true)), 0), Net(false, map[lan := "p", ts := "p"]);
            Best(p, net) == Some(Lan) && Rounds(p, net, n).active == Some(Connection(ts, true))
  {
    var dead, lan, ts := Address("a", Lan), Address("b", Lan), Address("c", Tailscale);
    var p, net := Peer([dead, lan, ts], Some(Connection(ts, true)), 0), Net(false, map[lan := "p", ts := "p"]);
    assert p.candidates[1] == lan && Up(net, lan);
    assert dead.addr != lan.addr by { assert dead.addr[0] != lan.addr[0]; }
    FailoverIff(p, net, n);
  }
}
