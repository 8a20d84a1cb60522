/** From the ring to the group: with the neighbour lists the introducer sends out, two failed machines
    cannot keep a verdict from any survivor. */
module Spread {
  import opened Membership
  import opened RingOrder
  import opened Neighbourhood
  import opened Gossip
  import opened Sets

  /** A member that neither failed nor is the introducer. */
  ghost predicate Survivor(s: State, ips: seq<string>, failed: set<string>, x: string)
  {
    x in ips && x !in failed && x != s.introducer
  }

  /** Every survivor has the neighbour list of the ring and knows all members, and none holds another
      survivor failed. All members anyone knows are among `known`, whose list fits a datagram. */
  ghost predicate RingViews(s: State, ips: seq<string>, failed: set<string>, known: set<string>)
  {
    && Distinct(ips) && Fits(known) && (forall x :: x in ips ==> x in known)
    && (forall x :: Survivor(s, ips, failed, x) && x in s.views ==> s.views[x].members.Keys <= known)
    && (forall x :: Survivor(s, ips, failed, x) ==> x in s.views)
    && (forall x, y :: Survivor(s, ips, failed, x) ==>
          (y in s.views[x].neighbours <==> y in NeighboursOf(ips, x)) && (y in ips ==> y in s.views[x].members))
    && (forall x, y :: Survivor(s, ips, failed, x) && Survivor(s, ips, failed, y) && x != y ==> !Holds(s, x, y))
  }

  /** Every survivor that watches `h` has come to its own verdict. */
  ghost predicate WatchersHold(s: State, ips: seq<string>, failed: set<string>, h: string)
  {
    forall x :: Survivor(s, ips, failed, x) && x in NeighboursOf(ips, h) ==> Holds(s, x, h)
  }

  /** A gossip path that starts at a watcher of `h` and then meets neither another one nor the same
      node twice. */
  ghost predicate Clear(ips: seq<string>, h: string, q: seq<string>)
  {
    && q != [] && q[0] in NeighboursOf(ips, h)
    && (forall i :: 1 <= i < |q| ==> q[i] !in NeighboursOf(ips, h))
    && (forall i, j :: 0 <= i < j < |q| ==> q[i] != q[j])
  }

  lemma {:induction false} ClearPath(ips: seq<string>, gone: set<string>, h: string, q: seq<string>, y: string)
    returns (r: seq<string>)
    requires q != [] && GossipPath(ips, gone, q, q[0], y) && q[0] in NeighboursOf(ips, h)
    ensures r != [] && GossipPath(ips, gone, r, r[0], y) && Clear(ips, h, r)
    decreases |q|
  {
    if i :| 1 <= i < |q| && q[i] in NeighboursOf(ips, h) {
      r := ClearPath(ips, gone, h, q[i..], y);
    } else if i, j :| 0 <= i < j < |q| && q[i] == q[j] {
      Shortcut(ips, gone, q, y, i, j);
      r := ClearPath(ips, gone, h, q[..i] + q[j..], y);
    } else {
      r := q;
    }
  }

  lemma Shortcut(ips: seq<string>, gone: set<string>, q: seq<string>, y: string, i: nat, j: nat)
    requires i < j < |q| && q[i] == q[j] && GossipPath(ips, gone, q, q[0], y)
    ensures GossipPath(ips, gone, q[..i] + q[j..], q[0], y) && (q[..i] + q[j..])[0] == q[0]
  {
    var r := q[..i] + q[j..];
    forall k | 0 <= k < |r| - 1 ensures r[k + 1] in NeighboursOf(ips, r[k]) {
      var m := if k < i then k else k - i + j;
      assert q[m + 1] in NeighboursOf(ips, q[m]);
    }
  }

  /** A clear path of survivors is a chain along which the verdict travels. */
  lemma ClearIsChain(s: State, ips: seq<string>, failed: set<string>, known: set<string>, h: string, q: seq<string>,
                     y: string)
    requires RingViews(s, ips, failed, known) && h in ips && h in failed
    requires q != [] && GossipPath(ips, failed + {s.introducer}, q, q[0], y) && Clear(ips, h, q)
    ensures Chain(s, q, h) && Within(s, q, known)
  {
    forall i | 0 <= i < |q| - 1 ensures q[i] != s.introducer && Sends(s, q[i], q[i + 1]) {
      ClearSends(s, ips, failed, known, q, y, i);
    }
    forall i | 0 <= i < |q|
      ensures q[i] in s.views && h in s.views[q[i]].members && h != q[i]
      ensures q[i] !in NeighboursOf(ips, h) ==> h !in s.views[q[i]].neighbours
    {
      ClearNode(s, ips, failed, known, h, q[i]);
    }
    ClearWithin(s, ips, failed, known, q, y);
  }

  lemma ClearNode(s: State, ips: seq<string>, failed: set<string>, known: set<string>, h: string, x: string)
    requires RingViews(s, ips, failed, known) && h in ips && h in failed && Survivor(s, ips, failed, x)
    ensures x in s.views && h in s.views[x].members && h != x
    ensures x !in NeighboursOf(ips, h) ==> h !in s.views[x].neighbours
  {
    if h in NeighboursOf(ips, x) { NeighboursSymmetric(ips, h, x); }
  }

  lemma ClearSends(s: State, ips: seq<string>, failed: set<string>, known: set<string>, q: seq<string>, y: string,
                   i: nat)
    requires RingViews(s, ips, failed, known) && i < |q| - 1
    requires GossipPath(ips, failed + {s.introducer}, q, q[0], y) && q[i] != q[i + 1]
    ensures Survivor(s, ips, failed, q[i]) && Sends(s, q[i], q[i + 1])
  {
    assert Survivor(s, ips, failed, q[i]) && Survivor(s, ips, failed, q[i + 1]);
    assert q[i + 1] in NeighboursOf(ips, q[i]);
    assert !Holds(s, q[i], q[i + 1]);
  }

  lemma ClearWithin(s: State, ips: seq<string>, failed: set<string>, known: set<string>, q: seq<string>, y: string)
    requires RingViews(s, ips, failed, known) && q != [] && GossipPath(ips, failed + {s.introducer}, q, q[0], y)
    ensures Within(s, q, known)
  {
    forall x | x in q ensures x in known && (x in s.views ==> s.views[x].members.Keys <= known) {
      assert Survivor(s, ips, failed, x);
    }
  }

  /** Whenever someone survives who does not watch `h` itself, a watcher survives too. */
  lemma WatcherSurvives(s: State, ips: seq<string>, failed: set<string>, h: string, y: string) returns (x: string)
    requires Distinct(ips) && |failed| <= 2 && h in ips && h in failed
    requires Survivor(s, ips, failed, y) && y !in NeighboursOf(ips, h)
    ensures Survivor(s, ips, failed, x) && x in NeighboursOf(ips, h)
  {
    var i :| 0 <= i < |ips| && ips[i] == h;
    if |ips| <= 5 {
      SmallNeighbourSet(ips, i);
    }
    NeighbourCount(ips, i);
    var watchers := NeighboursOf(ips, h);
    var gone := failed + {s.introducer} - {h};
    assert |failed - {h}| == |failed| - 1;
    assert gone <= failed - {h} + {s.introducer};
    SubsetSize(gone, failed - {h} + {s.introducer});
    if watchers <= gone { SubsetSize(watchers, gone); }
    x :| x in watchers && x !in gone;
    NeighboursSymmetric(ips, x, h);
  }

  /** In every ring whose member list fits a datagram, with the neighbour lists the introducer sent: with
      at most two machines failed, among them `h`, and every surviving watcher of `h` having noticed,
      gossip alone brings the verdict to any other survivor, without help from the introducer. */
  lemma {:induction false} EverySurvivorLearns(s: State, ips: seq<string>, failed: set<string>, known: set<string>,
          h: string, y: string) returns (steps: seq<Step>, t: State)
    requires RingViews(s, ips, failed, known) && |failed| <= 2 && h in ips && h in failed
    requires WatchersHold(s, ips, failed, h) && Survivor(s, ips, failed, y)
    ensures Gossip.Run(s, steps, t) && Holds(t, y, h)
  {
    if y in NeighboursOf(ips, h) {
      steps, t := [], s;
    } else {
      var x := WatcherSurvives(s, ips, failed, h, y);
      var gone := failed + {s.introducer};
      GossipSurvivesThree(ips, gone, x, y);
      var p :| GossipPath(ips, gone, p, x, y);
      var q := ClearPath(ips, gone, h, p, y);
      ClearIsChain(s, ips, failed, known, h, q, y);
      t := VerdictSpreads(s, q, h, known);
      steps :| Gossip.Run(s, steps, t);
    }
  }
}
