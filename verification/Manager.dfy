/**
 The connection manager's tables for all peers, and the manager as an object (manager.rs).

 A dial tells who is at the other end. When a peer known under a placeholder name answers under its
 real one, its candidate moves to the real name's list, at the end and without sorting.
 */
module Manager {
  import opened Outcomes
  import opened Failover

  datatype Table = Table(candidates: map<string, seq<Address>>, active: map<string, Connection>,
    failedPings: map<string, nat>)

  function CandidatesOf(t: Table, peer: string): (list: seq<Address>) {
    if peer in t.candidates then t.candidates[peer] else []
  }

  /** What the tables hold of one peer. */
  function PeerOf(t: Table, peer: string): (p: Peer) {
    Peer(CandidatesOf(t, peer), if peer in t.active then Some(t.active[peer]) else None,
         if peer in t.failedPings then t.failedPings[peer] else 0)
  }

  function Registered(t: Table, peer: string, c: Connection): (t': Table) {
    t.(active := t.active[peer := c], failedPings := t.failedPings - {peer})
  }

  /** The candidate of `peer` that turned out to be `actual`. */
  function Migrated(t: Table, peer: string, actual: string, a: Address): (t': Table) {
    if actual == peer then t
    else
      var list := CandidatesOf(t, actual);
      t.(candidates := (t.candidates - {peer})[actual := if a in list then list else list + [a]])
  }

  function Attempt(t: Table, peer: string, net: Net): (t': Table) {
    if peer in t.active then t
    else
      match FirstReachable(CandidatesOf(t, peer), net)
      case None => t
      case Some(a) =>
        var actual := net.answering[a];
        Registered(Migrated(t, peer, actual, a), actual, Connection(a, true))
  }

  function Dropped(t: Table, peer: string): (t': Table) {
    t.(active := t.active - {peer}, failedPings := t.failedPings - {peer})
  }

  function Misses(t: Table, peer: string): (n: nat) {
    if peer in t.failedPings then t.failedPings[peer] else 0
  }

  /** One maintenance round for one peer. */
  function Keep(t: Table, peer: string, net: Net): (t': Table) {
    if peer !in t.active then Attempt(Dropped(t, peer), peer, net)
    else
      var c := t.active[peer];
      if Barred(net, c.to) || (!c.alive && Misses(t, peer) + 1 >= 3) then Attempt(Dropped(t, peer), peer, net)
      else
        var pinged :=
          t.(failedPings := if c.alive then t.failedPings - {peer} else t.failedPings[peer := Misses(t, peer) + 1]);
        if c.to.transport == Tailscale && !net.lanDisabled then
          match FirstLan(CandidatesOf(t, peer))
          case Some(lan) => if lan in net.answering then Registered(pinged, peer, Connection(lan, true)) else pinged
          case None => pinged
        else pinged
  }

  function KeepAll(t: Table, order: seq<string>, net: Net): (t': Table) {
    if order == [] then t else Keep(KeepAll(t, order[..|order| - 1], net), order[|order| - 1], net)
  }

  // ---------- candidates ----------

  function Insert(s: seq<Address>, a: Address): (s': seq<Address>) {
    if s == [] then [a]
    else if Priority(s[|s| - 1]) <= Priority(a) then s + [a]
    else Insert(s[..|s| - 1], a) + [s[|s| - 1]]
  }

  /** The stable sort by priority. */
  function StableSort(s: seq<Address>): (s': seq<Address>) {
    if s == [] then [] else Insert(StableSort(s[..|s| - 1]), s[|s| - 1])
  }

  /** An address is discovered for a peer. */
  function Discover(t: Table, peer: string, a: Address, net: Net): (t': Table) {
    var list := CandidatesOf(t, peer);
    if a in list then t else Attempt(t.(candidates := t.candidates[peer := StableSort(list + [a])]), peer, net)
  }

  lemma {:induction false} InsertAdds(s: seq<Address>, a: Address)
    ensures multiset(Insert(s, a)) == multiset(s) + multiset{a}
  {
    if s != [] {
      assert s == s[..|s| - 1] + [s[|s| - 1]];
      InsertAdds(s[..|s| - 1], a);
    }
  }

  lemma {:induction false} InsertSorts(s: seq<Address>, a: Address)
    requires Sorted(s)
    ensures Sorted(Insert(s, a))
  {
    if s != [] && Priority(s[|s| - 1]) > Priority(a) {
      var front, last := s[..|s| - 1], s[|s| - 1];
      var r := Insert(front, a);
      InsertSorts(front, a);
      InsertAdds(front, a);
      forall i | 0 <= i < |r| ensures Priority(r[i]) <= Priority(last) {
        assert r[i] in multiset(r);
        assert r[i] == a || r[i] in front;
      }
    }
  }

  lemma {:induction false} StableSortSorts(s: seq<Address>)
    ensures Sorted(StableSort(s)) && multiset(StableSort(s)) == multiset(s)
  {
    hide Sorted, Insert;
    if s == [] {
      NothingIsSorted();
    } else {
      var front, last := s[..|s| - 1], s[|s| - 1];
      assert s == front + [last];
      StableSortSorts(front);
      InsertSorts(StableSort(front), last);
      InsertAdds(StableSort(front), last);
    }
  }

  lemma NothingIsSorted()
    ensures Sorted([])
  {}

  // ---------- one peer at a time ----------

  /** Whoever answers at a candidate of this peer is this peer. */
  ghost predicate Genuine(t: Table, peer: string, net: Net) {
    forall a :: a in CandidatesOf(t, peer) && a in net.answering ==> net.answering[a] == peer
  }

  lemma AttemptIsConnect(t: Table, peer: string, net: Net, other: string)
    requires Genuine(t, peer, net)
    ensures PeerOf(Attempt(t, peer, net), peer) == Connect(PeerOf(t, peer), net)
    ensures other != peer ==> PeerOf(Attempt(t, peer, net), other) == PeerOf(t, other)
    ensures Attempt(t, peer, net).candidates == t.candidates
  {}

  lemma KeepIsMaintain(t: Table, peer: string, net: Net, other: string)
    requires Genuine(t, peer, net)
    ensures PeerOf(Keep(t, peer, net), peer) == Maintain(PeerOf(t, peer), net)
    ensures other != peer ==> PeerOf(Keep(t, peer, net), other) == PeerOf(t, other)
    ensures Keep(t, peer, net).candidates == t.candidates
  {
    RedialIsConnect(t, peer, net, other);
    hide Attempt, Connect, Dropped, FirstReachable, Genuine;
  }

  lemma RedialIsConnect(t: Table, peer: string, net: Net, other: string)
    requires Genuine(t, peer, net)
    ensures var t' := Attempt(Dropped(t, peer), peer, net);
            && PeerOf(t', peer) == Connect(PeerOf(t, peer).(active := None, misses := 0), net)
            && (other != peer ==> PeerOf(t', other) == PeerOf(t, other))
            && t'.candidates == t.candidates
  {
    AttemptIsConnect(Dropped(t, peer), peer, net, other);
    hide Attempt, Connect;
  }

  predicate OnceEach(order: seq<string>) {
    forall i, j :: 0 <= i < j < |order| ==> order[i] != order[j]
  }

  /** In whatever order the peers come, a round is one round for each of them. */
  lemma {:induction false} RoundIsPerPeer(t: Table, order: seq<string>, net: Net, peer: string)
    requires OnceEach(order) && forall q :: q in order ==> Genuine(t, q, net)
    ensures PeerOf(KeepAll(t, order, net), peer) == if peer in order then Maintain(PeerOf(t, peer), net)
            else PeerOf(t, peer)
    ensures KeepAll(t, order, net).candidates == t.candidates
  {
    hide Maintain, Keep;
    if order != [] {
      var front, last := order[..|order| - 1], order[|order| - 1];
      RoundIsPerPeer(t, front, net, peer);
      assert Genuine(t, last, net);
      KeepIsMaintain(KeepAll(t, front, net), last, net, peer);
    }
  }

  /** Maintenance round after round, each in an order of its own. */
  function ManyRounds(t: Table, orders: seq<seq<string>>, net: Net): (t': Table) {
    if orders == [] then t else KeepAll(ManyRounds(t, orders[..|orders| - 1], net), orders[|orders| - 1], net)
  }

  /** Every round visits every peer that has candidates, once. */
  ghost predicate FullRounds(t: Table, orders: seq<seq<string>>) {
    forall order :: order in orders ==> OnceEach(order) && forall peer :: peer in order <==> peer in t.candidates
  }

  lemma {:induction false} ManyRoundsAreRounds(t: Table, orders: seq<seq<string>>, net: Net, peer: string)
    requires FullRounds(t, orders) && peer in t.candidates && forall q :: q in t.candidates ==> Genuine(t, q, net)
    ensures PeerOf(ManyRounds(t, orders, net), peer) == Rounds(PeerOf(t, peer), net, |orders|)
    ensures ManyRounds(t, orders, net).candidates == t.candidates
  {
    hide Maintain, KeepAll, OnceEach;
    if orders != [] {
      var front, last := orders[..|orders| - 1], orders[|orders| - 1];
      ManyRoundsAreRounds(t, front, net, peer);
      assert last in orders;
      var before := ManyRounds(t, front, net);
      forall q | q in last ensures Genuine(before, q, net) {
        assert Genuine(t, q, net);
      }
      RoundIsPerPeer(before, last, net, peer);
    }
  }

  /** The manager brings every peer to its best transport within three rounds, exactly unless that peer was stuck. */
  lemma EveryPeerFailsOverIff(t: Table, orders: seq<seq<string>>, net: Net, peer: string)
    requires FullRounds(t, orders) && 3 <= |orders| && forall q :: q in t.candidates ==> Genuine(t, q, net)
    requires peer in t.candidates && Sorted(t.candidates[peer])
    ensures Settled(PeerOf(ManyRounds(t, orders, net), peer), net) <==> !Stuck(PeerOf(t, peer), net)
  {
    hide Settled, Stuck, Genuine, FullRounds;
    ManyRoundsAreRounds(t, orders, net, peer);
    FailoverIff(PeerOf(t, peer), net, |orders|);
  }

  /** A discovered address joins its peer's list, which stays in priority order and gains nothing else. */
  lemma CandidatesStaySorted(t: Table, peer: string, a: Address, net: Net)
    requires Sorted(CandidatesOf(t, peer)) && Genuine(t, peer, net) && (a in net.answering ==> net.answering[a] == peer)
    ensures var list, list' := CandidatesOf(t, peer), CandidatesOf(Discover(t, peer, a, net), peer);
            Sorted(list') && multiset(list') == multiset(list) + if a in list then multiset{} else multiset{a}
  {
    hide Sorted, StableSort, Attempt, Genuine;
    if a !in CandidatesOf(t, peer) {
      StableSortSorts(CandidatesOf(t, peer) + [a]);
      NewAddressConnects(t, peer, a, net, peer);
      ListedOf(Discover(t, peer, a, net), peer);
    }
  }

  // ---------- discovering an address ----------

  /** The address stands behind all of its priority and better, and before all that are worse; the rest is as it was. */
  ghost predicate SlottedIn(s: seq<Address>, a: Address, s': seq<Address>, i: nat) {
    i <= |s| && s' == s[..i] + [a] + s[i..] &&
    (forall j :: 0 <= j < i ==> Priority(s[j]) <= Priority(a)) && forall j :: i <= j < |s| ==>
      Priority(a) < Priority(s[j])
  }

  lemma {:induction false} InsertSlotsIn(s: seq<Address>, a: Address) returns (i: nat)
    requires Sorted(s)
    ensures SlottedIn(s, a, Insert(s, a), i)
  {
    if s == [] || Priority(s[|s| - 1]) <= Priority(a) {
      i := |s|;
      assert s + [a] == s[..i] + [a] + s[i..];
    } else {
      var front, last := s[..|s| - 1], s[|s| - 1];
      i := InsertSlotsIn(front, a);
      assert front[..i] == s[..i] && s[i..] == front[i..] + [last];
      assert front[..i] + [a] + front[i..] + [last] == s[..i] + [a] + s[i..];
    }
  }

  lemma {:induction false} SortedStays(s: seq<Address>)
    requires Sorted(s)
    ensures StableSort(s) == s
  {
    if s != [] {
      var front := s[..|s| - 1];
      SortedStays(front);
      assert s == front + [s[|s| - 1]];
    }
  }

  lemma SortSlotsIn(s: seq<Address>, a: Address) returns (i: nat)
    requires Sorted(s)
    ensures SlottedIn(s, a, StableSort(s + [a]), i)
  {
    assert (s + [a])[..|s|] == s;
    SortedStays(s);
    i := InsertSlotsIn(s, a);
  }

  lemma ListedIsGenuine(t: Table, peer: string, a: Address, net: Net)
    requires Genuine(t, peer, net) && (a in net.answering ==> net.answering[a] == peer)
    ensures Genuine(t.(candidates := t.candidates[peer := StableSort(CandidatesOf(t, peer) + [a])]), peer, net)
  {
    hide StableSort;
    var list := CandidatesOf(t, peer);
    StableSortSorts(list + [a]);
    forall b | b in StableSort(list + [a]) && b in net.answering ensures net.answering[b] == peer {
      assert b in multiset(StableSort(list + [a]));
      assert b in list + [a];
    }
  }

  lemma NewAddressConnects(t: Table, peer: string, a: Address, net: Net, other: string)
    requires Genuine(t, peer, net) && (a in net.answering ==> net.answering[a] == peer) && a !in CandidatesOf(t, peer)
    ensures var t', listed := Discover(t, peer, a, net), StableSort(CandidatesOf(t, peer) + [a]);
            && PeerOf(t', peer) == Connect(PeerOf(t, peer).(candidates := listed), net)
            && (other != peer ==> PeerOf(t', other) == PeerOf(t, other))
  {
    hide StableSort, Attempt, Genuine, Connect;
    ListedIsGenuine(t, peer, a, net);
    AttemptIsConnect(t.(candidates := t.candidates[peer := StableSort(CandidatesOf(t, peer) + [a])]), peer, net, other);
  }

  /** An address that is known changes nothing. A new one is slotted in, and a peer without a connection is dialled. */
  lemma DiscoverDoes(t: Table, peer: string, a: Address, net: Net, other: string) returns (i: nat)
    requires Sorted(CandidatesOf(t, peer)) && Genuine(t, peer, net) && (a in net.answering ==> net.answering[a] == peer)
    ensures var t', list := Discover(t, peer, a, net), CandidatesOf(t, peer);
            && (a in list ==> t' == t)
            && (other != peer ==> PeerOf(t', other) == PeerOf(t, other))
            && (a !in list ==>
                  && SlottedIn(list, a, PeerOf(t', peer).candidates, i)
                  && var dialled := PeerOf(t, peer).(candidates := PeerOf(t', peer).candidates);
                  if PeerOf(t, peer).active.Some? then PeerOf(t', peer) == dialled
                  else Redialled(dialled, PeerOf(t', peer), net))
  {
    hide StableSort, SlottedIn, Sorted, Attempt, Redialled, Connect, Genuine;
    var list := CandidatesOf(t, peer);
    if a in list {
      i := 0;
    } else {
      hide Discover, PeerOf, CandidatesOf;
      NewAddressConnects(t, peer, a, net, other);
      i := SortSlotsIn(list, a);
      ListedOf(t, peer);
      var p := PeerOf(t, peer).(candidates := StableSort(list + [a]));
      if p.active.Some? {
        ConnectedStays(p, net);
      } else {
        DialRedials(p, net);
      }
    }
  }

  lemma ListedOf(t: Table, peer: string)
    ensures PeerOf(t, peer).candidates == CandidatesOf(t, peer)
  {}

  lemma ConnectedStays(p: Peer, net: Net)
    requires p.active.Some?
    ensures Connect(p, net) == p
  {}

  // ---------- placeholders ----------

  /**
   A dial answered under another name moves the connection and that candidate there, and leaves nothing of the
   placeholder. The list it joins stays in priority order exactly if the address already was there or is last in order.
   */
  lemma PlaceholderMoves(t: Table, peer: string, net: Net, other: string)
    requires peer !in t.active && FirstReachable(CandidatesOf(t, peer), net).Some?
    requires net.answering[FirstReachable(CandidatesOf(t, peer), net).value] != peer
    ensures var a, t' := FirstReachable(CandidatesOf(t, peer), net).value, Attempt(t, peer, net);
            var actual := net.answering[a];
            var list, list' := CandidatesOf(t, actual), CandidatesOf(t', actual);
            && PeerOf(t', peer) == Peer([], None, PeerOf(t, peer).misses)
            && PeerOf(t', actual).active == Some(Connection(a, true)) && PeerOf(t', actual).misses == 0
            && a in list' && (forall b :: b in list' <==> b in list || b == a)
            && (other != peer && other != actual ==> PeerOf(t', other) == PeerOf(t, other))
            && (Sorted(list') <==>
                  Sorted(list) && (a in list || list == [] || Priority(list[|list| - 1]) <= Priority(a)))
  {
    var a := FirstReachable(CandidatesOf(t, peer), net).value;
    var list := CandidatesOf(t, net.answering[a]);
    AppendSortedIff(list, a);
    hide Sorted, FirstReachable;
  }

  lemma AppendSortedIff(s: seq<Address>, a: Address)
    ensures Sorted(s + [a]) <==> Sorted(s) && (s == [] || Priority(s[|s| - 1]) <= Priority(a))
  {
    var more := s + [a];
    if Sorted(more) {
      forall i, j | 0 <= i < j < |s| ensures Priority(s[i]) <= Priority(s[j]) {
        assert more[i] == s[i] && more[j] == s[j];
      }
      assert more[|s|] == a;
      assert s != [] ==> more[|s| - 1] == s[|s| - 1];
    }
  }

  // ---------- the manager as an object ----------

  class ConnectionManager {
    var candidates: map<string, seq<Address>>
    var active: map<string, Connection>
    var failedPings: map<string, nat>

    ghost function View(): (t: Table)
      reads this
    {
      Table(candidates, active, failedPings)
    }

    constructor ()
      ensures View() == Table(map[], map[], map[])
    {
      candidates, active, failedPings := map[], map[], map[];
    }

    method RegisterActiveConnection(peer: string, c: Connection)
      modifies this`active, this`failedPings
      ensures View() == Registered(old(View()), peer, c)
    {
      active := active[peer := c];
      failedPings := failedPings - {peer};
    }

    method AttemptConnectBestCandidate(peer: string, net: Net)
      modifies this
      ensures View() == Attempt(old(View()), peer, net)
    {
      if peer in active || peer !in candidates {
        return;
      }
      var list := candidates[peer];
      var i := 0;
      while i < |list|
        invariant 0 <= i <= |list|
        invariant FirstReachable(list, net) == FirstReachable(list[i..], net)
      {
        var a := list[i];
        assert list[i..][0] == a && list[i..][1..] == list[i + 1..];
        if !(a.transport == Lan && net.lanDisabled) && a in net.answering {
          var actual := net.answering[a];
          if actual != peer {
            candidates := candidates - {peer};
            var theirs := if actual in candidates then candidates[actual] else [];
            candidates := candidates[actual := if a in theirs then theirs else theirs + [a]];
          }
          RegisterActiveConnection(actual, Connection(a, true));
          return;
        }
        i := i + 1;
      }
    }

    method AddCandidate(peer: string, a: Address, net: Net)
      modifies this
      ensures View() == Discover(old(View()), peer, a, net)
    {
      var list := if peer in candidates then candidates[peer] else [];
      if a in list {
        return;
      }
      candidates := candidates[peer := StableSort(list + [a])];
      if peer !in active {
        AttemptConnectBestCandidate(peer, net);
      }
    }

    method MaintainPeer(peer: string, net: Net)
      modifies this
      ensures View() == Keep(old(View()), peer, net)
    {
      hide Attempt;
      var healthy, onTailscale := false, false;
      if peer in active {
        var c := active[peer];
        if !(c.to.transport == Lan && net.lanDisabled) {
          onTailscale := c.to.transport == Tailscale;
          if c.alive {
            healthy := true;
            failedPings := failedPings - {peer};
          } else {
            var count := (if peer in failedPings then failedPings[peer] else 0) + 1;
            failedPings := failedPings[peer := count];
            healthy := count < 3;
          }
        }
      }
      if !healthy {
        active := active - {peer};
        failedPings := failedPings - {peer};
        assert View() == Dropped(old(View()), peer);
        AttemptConnectBestCandidate(peer, net);
      } else if onTailscale && !net.lanDisabled {
        var lan := FirstLan(if peer in candidates then candidates[peer] else []);
        if lan.Some? && lan.value in net.answering {
          RegisterActiveConnection(peer, Connection(lan.value, true));
        }
      }
    }

    /** One maintenance round over the peers that have candidates, in whatever order the map yields them. */
    method MaintainConnections(net: Net) returns (ghost order: seq<string>)
      modifies this
      ensures View() == KeepAll(old(View()), order, net)
      ensures OnceEach(order) && forall peer :: peer in order <==> peer in old(candidates)
    {
      hide Keep;
      order := [];
      var left := candidates.Keys;
      while left != {}
        invariant View() == KeepAll(old(View()), order, net)
        invariant OnceEach(order) && forall peer :: peer in order <==> peer in old(candidates) && peer !in left
        invariant left <= old(candidates).Keys
        decreases left
      {
        var peer :| peer in left;
        MaintainPeer(peer, net);
        assert (order + [peer])[..|order|] == order;
        order := order + [peer];
        left := left - {peer};
      }
    }
  }
}
