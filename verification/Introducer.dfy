/** The introducer: joins and departures change the ring, and every member is sent the list of its
    ring neighbours. */
module Introducer {
  import opened Text
  import opened RingOrder
  import opened Neighbourhood
  import opened Ring
  import Membership

  /** The text that tells member `x` its neighbours: their addresses in key order. */
  ghost function NeighbourList(ips: seq<string>, x: string): string
  {
    Terminated(Keys(NeighboursOf(ips, x)), ';')
  }

  ghost function Pointed(t: Node, p: Node?): set<string>
  {
    if p == null || p.ip == t.ip then {} else {p.ip}
  }

  ghost function PointedIps(t: Node): set<string>
    reads t
  {
    Pointed(t, t.next1) + Pointed(t, t.next2) + Pointed(t, t.prev1) + Pointed(t, t.prev2)
  }

  /** The four pointers of a ring node hold exactly the addresses near it, at every ring size. */
  lemma PointersAreNeighbours(s: seq<Node>, i: nat)
    requires IsRing(s) && RingList(Ips(s)) && i < |s|
    ensures PointedIps(s[i]) == NeighboursOf(Ips(s), s[i].ip)
  {
    var ips := Ips(s);
    if |s| < 3 {
      SmallPointers(s, i);
    } else {
      NeighbourSet(ips, i);
      assert Linked(s, i);
      assert s[i].next1.ip == ips[Turn(|s|, i + 1)] && s[i].next2.ip == ips[Turn(|s|, i + 2)];
      assert s[i].prev1.ip == ips[Turn(|s|, i + |s| - 1)] && s[i].prev2.ip == ips[Turn(|s|, i + |s| - 2)];
    }
  }

  lemma SmallPointers(s: seq<Node>, i: nat)
    requires IsRing(s) && RingList(Ips(s)) && i < |s| < 3
    ensures PointedIps(s[i]) == NeighboursOf(Ips(s), s[i].ip)
  {
  }

  method CollectIps(t: Node) returns (ips: set<string>)
    ensures ips == PointedIps(t)
  {
    ips := {};
    if t.next1 != null {
      if t.ip != t.next1.ip { ips := ips + {t.next1.ip}; }
    }
    if t.next2 != null {
      if t.ip != t.next2.ip { ips := ips + {t.next2.ip}; }
    }
    if t.prev1 != null {
      if t.ip != t.prev1.ip { ips := ips + {t.prev1.ip}; }
    }
    if t.prev2 != null {
      if t.ip != t.prev2.ip { ips := ips + {t.prev2.ip}; }
    }
  }

  lemma {:induction false} TerminatedAppend(a: seq<string>, x: string, sep: char)
    ensures Terminated(a + [x], sep) == Terminated(a, sep) + x + [sep]
  {
    if a == [] {
      assert [x] == [] + [x];
    } else {
      assert (a + [x])[1..] == a[1..] + [x];
      TerminatedAppend(a[1..], x, sep);
    }
  }

  method Response(ips: set<string>) returns (response: string)
    ensures response == Terminated(Keys(ips), ';')
  {
    response := "";
    var ks := Keys(ips);
    for i := 0 to |ks|
      invariant response == Terminated(ks[..i], ';')
    {
      TerminatedAppend(ks[..i], ks[i], ';');
      assert ks[..i] + [ks[i]] == ks[..i + 1];
      response := response + ks[i];
      response := response + ";";
    }
    assert ks[..|ks|] == ks;
  }

  ghost function PointedList(t: Node): string
    reads t
  {
    Terminated(Keys(PointedIps(t)), ';')
  }

  /** The message about node `t`, as built from its pointers. */
  method ResponseFor(t: Node) returns (response: string)
    ensures response == PointedList(t)
  {
    var collected := CollectIps(t);
    response := Response(collected);
  }

  /** The message about the node at place `i` of a ring lists that member's neighbours. */
  method ResponseAt(t: Node, ghost s: seq<Node>, ghost i: nat) returns (response: string)
    requires IsRing(s) && RingList(Ips(s)) && i < |s| && s[i] == t
    ensures response == NeighbourList(Ips(s), t.ip)
  {
    PointersAreNeighbours(s, i);
    response := ResponseFor(t);
  }

  lemma NextNode(s: seq<Node>, i: nat)
    requires IsRing(s) && i + 1 < |s|
    ensures s[i].next1 == s[i + 1]
  {
    assert |s| >= 3 ==> Linked(s, i);
  }

  datatype Update = Update(ip: string, response: string)

  ghost function UpdateFor(ips: seq<string>, x: string): Update
  {
    Update(x, NeighbourList(ips, x))
  }

  /** Every member but the introducer is addressed exactly once, in ring order, with its own
      neighbours. */
  ghost predicate AllUpdated(ips: seq<string>, sent: seq<Update>)
  {
    |sent| == |ips| - 1 && forall i :: 0 <= i < |sent| ==> sent[i] == UpdateFor(ips, ips[i + 1])
  }

  /** What has been sent when the first `i` of the nodes `s` have been visited; the introducer itself
      is sent nothing. */
  ghost predicate Visited(s: seq<Node>, lists: seq<string>, i: nat, sent: seq<Update>)
    requires i <= |s| == |lists|
  {
    && |sent| == (if i == 0 then 0 else i - 1)
    && forall j :: 0 <= j < |sent| ==> sent[j] == Update(s[j + 1].ip, lists[j + 1])
  }

  lemma VisitNext(s: seq<Node>, lists: seq<string>, i: nat, sent: seq<Update>)
    requires i < |s| == |lists| && Visited(s, lists, i, sent)
    ensures Visited(s, lists, i + 1, if i == 0 then sent else sent + [Update(s[i].ip, lists[i])])
  {
  }

  /** The walk along `next1` over the nodes `s`, whose messages are `lists`. */
  method VisitAll(introducer: Node, count: nat, ghost s: seq<Node>, ghost lists: seq<string>)
    returns (sent: seq<Update>)
    requires |s| == |lists| == count >= 1 && s[0] == introducer
    requires forall i :: 0 <= i < |s| - 1 ==> s[i].next1 == s[i + 1]
    requires forall i :: 0 < i < |s| ==> s[i].ip != introducer.ip
    requires forall i :: 0 <= i < |s| ==> PointedList(s[i]) == lists[i]
    ensures Visited(s, lists, |s|, sent)
  {
    sent := [];
    var t: Node? := introducer;
    for i := 0 to count
      invariant i < count ==> t == s[i]
      invariant Visited(s, lists, i, sent)
    {
      VisitNext(s, lists, i, sent);
      var response := ResponseFor(t);
      if t.ip != introducer.ip {
        sent := sent + [Update(t.ip, response)];
      }
      t := t.next1;
    }
  }

  /** The lists each node of the ring `s` is due, in ring order. */
  ghost function ListsOf(s: seq<Node>): (lists: seq<string>)
    reads s
    ensures |lists| == |s|
    ensures forall i :: 0 <= i < |s| ==> lists[i] == NeighbourList(Ips(s), s[i].ip)
  {
    seq(|s|, i requires 0 <= i < |s| reads s => NeighbourList(Ips(s), s[i].ip))
  }

  lemma WalkFacts(s: seq<Node>)
    requires IsRing(s) && RingList(Ips(s))
    ensures forall i :: 0 <= i < |s| - 1 ==> s[i].next1 == s[i + 1]
    ensures forall i :: 0 < i < |s| ==> s[i].ip != s[0].ip
    ensures forall i :: 0 <= i < |s| ==> PointedList(s[i]) == ListsOf(s)[i]
  {
    forall i | 0 <= i < |s| - 1 ensures s[i].next1 == s[i + 1] { NextNode(s, i); }
    forall i | 0 <= i < |s| ensures PointedList(s[i]) == ListsOf(s)[i] { PointersAreNeighbours(s, i); }
    forall i | 0 < i < |s| ensures s[i].ip != s[0].ip { assert Ips(s)[0] != Ips(s)[i]; }
  }

  /** Walks the whole ring once and addresses to every member but the introducer its own list. The
      one ring that is not valid, the node left behind by an introducer, is sent nothing either. */
  method UpdateNodes(ring: VirtualRing) returns (sent: seq<Update>)
    requires ring.Valid() || (ring.count == 1 && ring.nodes == [ring.introducer])
    ensures AllUpdated(Ips(ring.nodes), sent)
  {
    if ring.count == 1 {
      ghost var s := [ring.introducer];
      sent := VisitAll(ring.introducer, 1, s, [PointedList(ring.introducer)]);
      return;
    }
    ghost var s := ring.nodes;
    WalkFacts(s);
    sent := VisitAll(ring.introducer, ring.count, s, ListsOf(s));
    VisitedAll(s, sent);
  }

  lemma VisitedAll(s: seq<Node>, sent: seq<Update>)
    requires s != [] && Visited(s, ListsOf(s), |s|, sent)
    ensures AllUpdated(Ips(s), sent)
  {
  }

  /** A join answers with the joiner's neighbours in the ring it has just entered; anything but a
      join or a departure leaves the ring alone. After a join or a departure every member is sent
      its neighbours in the new ring. */
  method IntroHandler(ring: VirtualRing, request: string, ip: string) returns (response: string, sent: seq<Update>)
    requires ring.Valid() && Dotted(ip)
    requires request == "LEAVE" && ip == ring.introducer.ip ==>
               ring.introducer.next2 != null && ring.introducer.prev2 != null
    modifies ring, ring.nodes
    ensures ring.Valid() <==> (request == "LEAVE" && ip == old(ring.introducer.ip) ==> old(ring.count) >= 3)
    ensures Ips(ring.nodes) == if request == "JOIN" then Joined(Ips(old(ring.nodes)), ip)
                               else if request == "LEAVE" then Departed(Ips(old(ring.nodes)), ip)
                               else Ips(old(ring.nodes))
    ensures response == if request == "JOIN" then NeighbourList(Ips(ring.nodes), ip) else "pong"
    ensures if request in {"JOIN", "LEAVE"} then AllUpdated(Ips(ring.nodes), sent) else sent == []
  {
    if request == "JOIN" {
      var t := ring.Insert(ip);
      ghost var i :| 0 <= i < |ring.nodes| && ring.nodes[i] == t;
      response := ResponseAt(t, ring.nodes, i);
      sent := UpdateNodes(ring);
      return;
    }
    if request == "LEAVE" {
      ring.Leave(ip);
      sent := UpdateNodes(ring);
      return "pong", sent;
    }
    return "pong", [];
  }

  /** Addresses carry no list separator. */
  ghost predicate Plain(ips: seq<string>)
  {
    forall i :: 0 <= i < |ips| ==> ';' !in ips[i]
  }

  /** What a member reads back, on joining or on an update, is the ordered set of its neighbours. */
  lemma ListRoundTrip(ips: seq<string>, x: string)
    requires Plain(ips)
    ensures Membership.ReadList(NeighbourList(ips, x)) == Keys(NeighboursOf(ips, x))
  {
    var ks := Keys(NeighboursOf(ips, x));
    forall i | 0 <= i < |ks| ensures ';' !in ks[i] {
      assert ks[i] in NeighboursOf(ips, x);
    }
    SplitTerminated(ks, ';');
  }
}
