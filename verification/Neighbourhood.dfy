/** The neighbour relation of the ring and how many failures it survives. Nodes are ring indices;
    two nodes are near when at most two ring steps apart. */
module Neighbourhood {
  import opened RingOrder
  import opened Sets

  predicate Near(n: nat, i: nat, j: nat)
    requires i < n && j < n
  {
    var d := if i < j then j - i else i - j;
    0 < d && (d <= 2 || n - d <= 2)
  }

  /** The addresses the introducer sends to member `x`. */
  ghost function NeighboursOf(ips: seq<string>, x: string): set<string>
  {
    set i, j | 0 <= i < |ips| && 0 <= j < |ips| && ips[i] == x && Near(|ips|, i, j) :: ips[j]
  }

  lemma NeighboursSymmetric(ips: seq<string>, x: string, y: string)
    requires Distinct(ips) && x in NeighboursOf(ips, y)
    ensures y in NeighboursOf(ips, x) && x != y
  {
  }

  /** Index `d` steps ahead, wrapped once. */
  function Turn(n: nat, k: nat): nat
    requires k < 2 * n
  {
    if k < n then k else k - n
  }

  lemma NeighbourSet(ips: seq<string>, i: nat)
    requires Distinct(ips) && i < |ips| && |ips| >= 3
    ensures NeighboursOf(ips, ips[i]) ==
              {ips[Turn(|ips|, i + 1)], ips[Turn(|ips|, i + 2)],
               ips[Turn(|ips|, i + |ips| - 1)], ips[Turn(|ips|, i + |ips| - 2)]} - {ips[i]}
  {
  }

  /** In rings of up to five, everyone is everyone's neighbour. */
  lemma SmallNeighbourSet(ips: seq<string>, i: nat)
    requires Distinct(ips) && i < |ips| <= 5
    ensures NeighboursOf(ips, ips[i]) == (set y | y in ips) - {ips[i]}
  {
  }

  lemma {:induction false} DistinctCount(ips: seq<string>)
    requires Distinct(ips)
    ensures |set y | y in ips| == |ips|
  {
    if ips != [] {
      var rest := ips[1..];
      DistinctCount(rest);
      assert (set y | y in ips) == {ips[0]} + (set y | y in rest);
      assert ips[0] !in rest;
    }
  }

  /** Every member is sent exactly four neighbours, or all the others when there are fewer. */
  lemma NeighbourCount(ips: seq<string>, i: nat)
    requires Distinct(ips) && i < |ips|
    ensures |NeighboursOf(ips, ips[i])| == if |ips| > 4 then 4 else |ips| - 1
  {
    var n := |ips|;
    if n <= 5 {
      SmallNeighbourSet(ips, i);
      DistinctCount(ips);
      assert ips[i] in (set y | y in ips);
    } else {
      NeighbourSet(ips, i);
      FourDistinct(ips[Turn(n, i + 1)], ips[Turn(n, i + 2)], ips[Turn(n, i + n - 1)], ips[Turn(n, i + n - 2)]);
    }
  }

  lemma FourDistinct<T>(a: T, b: T, c: T, d: T)
    requires a != b && a != c && a != d && b != c && b != d && c != d
    ensures |{a, b, c, d}| == 4
  {
  }

  // ----- routes among the survivors of a set of failed nodes

  ghost predicate Alive(n: nat, failed: set<nat>, x: nat) { x < n && x !in failed }

  ghost predicate Route(n: nat, failed: set<nat>, p: seq<nat>, x: nat, y: nat)
  {
    && p != [] && p[0] == x && p[|p| - 1] == y
    && (forall k :: 0 <= k < |p| ==> Alive(n, failed, p[k]))
    && (forall k :: 0 <= k < |p| - 1 ==> Near(n, p[k], p[k + 1]))
  }

  /** Two consecutive failed nodes strictly inside the arc of `len` steps from `a`. */
  ghost predicate BrokenAt(n: nat, failed: set<nat>, a: nat, len: nat, t: nat)
    requires a < n && len <= n
  {
    1 <= t && t + 1 < len && Turn(n, a + t) in failed && Turn(n, a + t + 1) in failed
  }

  ghost predicate Broken(n: nat, failed: set<nat>, a: nat, len: nat)
    requires a < n && len <= n
  {
    exists t: nat :: BrokenAt(n, failed, a, len, t)
  }

  /** An arc that is not broken can be walked. */
  lemma {:induction false} ArcRoute(n: nat, failed: set<nat>, a: nat, len: nat) returns (p: seq<nat>)
    requires a < n && len < n && Alive(n, failed, a) && Alive(n, failed, Turn(n, a + len))
    requires !Broken(n, failed, a, len)
    ensures Route(n, failed, p, a, Turn(n, a + len))
    decreases len
  {
    if len == 0 {
      p := [a];
    } else {
      var step := if Alive(n, failed, Turn(n, a + 1)) then 1 else 2;
      assert !BrokenAt(n, failed, a, len, 1);
      var b := Turn(n, a + step);
      if Broken(n, failed, b, len - step) {
        var t: nat :| BrokenAt(n, failed, b, len - step, t);
        assert BrokenAt(n, failed, a, len, t + step);
      }
      var q := ArcRoute(n, failed, b, len - step);
      p := [a] + q;
    }
  }

  lemma {:induction false} RouteReversed(n: nat, failed: set<nat>, p: seq<nat>, x: nat, y: nat) returns (q: seq<nat>)
    requires Route(n, failed, p, x, y)
    ensures Route(n, failed, q, y, x)
    decreases |p|
  {
    if |p| == 1 {
      q := p;
    } else {
      var r := RouteReversed(n, failed, p[1..], p[1], y);
      q := r + [x];
      assert Near(n, p[0], p[1]);
    }
  }

  /** With both arcs between x and y broken, a route from x never leaves x's side. */
  lemma {:induction false} StaysInside(n: nat, failed: set<nat>, p: seq<nat>, x: nat, y: nat, s: nat, t: nat, z: nat)
    requires x < y < n
    requires BrokenAt(n, failed, x, y - x, s) && BrokenAt(n, failed, y, n - (y - x), t)
    requires Route(n, failed, p, z, y)
    requires Inside(n, x + s, y + t, z)
    ensures false
    decreases |p|
  {
    if |p| > 1 {
      assert Near(n, p[0], p[1]);
      assert Alive(n, failed, p[0]) && Alive(n, failed, p[1]);
      assert Route(n, failed, p[1..], p[1], y);
      StaysInside(n, failed, p[1..], x, y, s, t, p[1]);
    }
  }

  /** The nodes strictly between the failed pair at `b` and the failed pair at `a`. */
  predicate Inside(n: nat, a: nat, b: nat, z: nat) { b + 1 - n < z < a || b + 1 < z }

  /** Exactly when two survivors can still reach each other: one of the two arcs between them has
      no two consecutive failures. Holds for failed sets of any size. */
  lemma ConnectedIff(n: nat, failed: set<nat>, x: nat, y: nat)
    requires x < y && Alive(n, failed, x) && Alive(n, failed, y)
    ensures (exists p :: Route(n, failed, p, x, y)) <==>
              !Broken(n, failed, x, y - x) || !Broken(n, failed, y, n - (y - x))
  {
    if !Broken(n, failed, x, y - x) {
      var p := ArcRoute(n, failed, x, y - x);
    } else if !Broken(n, failed, y, n - (y - x)) {
      var p := ArcRoute(n, failed, y, n - (y - x));
      var q := RouteReversed(n, failed, p, y, x);
    } else {
      var s: nat :| BrokenAt(n, failed, x, y - x, s);
      var t: nat :| BrokenAt(n, failed, y, n - (y - x), t);
      forall p | Route(n, failed, p, x, y) ensures false {
        StaysInside(n, failed, p, x, y, s, t, x);
      }
    }
  }

  /** Any three nodes may fail without separating two survivors. */
  lemma ThreeFailuresConnected(n: nat, failed: set<nat>, x: nat, y: nat)
    requires |failed| <= 3 && x < y && Alive(n, failed, x) && Alive(n, failed, y)
    ensures exists p :: Route(n, failed, p, x, y)
  {
    ConnectedIff(n, failed, x, y);
    if Broken(n, failed, x, y - x) && Broken(n, failed, y, n - (y - x)) {
      var s: nat :| BrokenAt(n, failed, x, y - x, s);
      var t: nat :| BrokenAt(n, failed, y, n - (y - x), t);
      var a, b, c, d := x + s, x + s + 1, Turn(n, y + t), Turn(n, y + t + 1);
      FourDistinct(a, b, c, d);
      SubsetSize({a, b, c, d}, failed);
    }
  }

  /** In every ring of six or more, four failures can separate: the bound of three is tight. */
  lemma FourCanSeparate(n: nat)
    requires n >= 6
    ensures !exists p :: Route(n, {1, 2, 4, 5}, p, 0, 3)
  {
    var failed: set<nat> := {1, 2, 4, 5};
    ConnectedIff(n, failed, 0, 3);
    assert BrokenAt(n, failed, 0, 3, 1);
    assert BrokenAt(n, failed, 3, n - 3, 1);
  }

  // ----- the same for addresses

  /** A chain of live addresses, each in the neighbour set sent to the one before it. */
  ghost predicate GossipPath(ips: seq<string>, failed: set<string>, q: seq<string>, x: string, y: string)
  {
    && q != [] && q[0] == x && q[|q| - 1] == y
    && (forall k :: 0 <= k < |q| ==> q[k] in ips && q[k] !in failed)
    && (forall k :: 0 <= k < |q| - 1 ==> q[k + 1] in NeighboursOf(ips, q[k]))
  }

  /** In a ring of any size, after any three members are gone (the introducer, which forwards no
      member list, and two failed machines) gossip still has a path between any two others. */
  lemma GossipSurvivesThree(ips: seq<string>, failed: set<string>, x: string, y: string)
    requires Distinct(ips) && |failed| <= 3
    requires x in ips && y in ips && x !in failed && y !in failed
    ensures exists q :: GossipPath(ips, failed, q, x, y)
  {
    var n := |ips|;
    var i :| 0 <= i < n && ips[i] == x;
    var j :| 0 <= j < n && ips[j] == y;
    var gone: set<nat> := set k: nat | k < n && ips[k] in failed;
    IndexCount(ips, failed, gone);
    var p: seq<nat>;
    if i == j {
      p := [i];
    } else if i < j {
      ThreeFailuresConnected(n, gone, i, j);
      p :| Route(n, gone, p, i, j);
    } else {
      ThreeFailuresConnected(n, gone, j, i);
      var r :| Route(n, gone, r, j, i);
      p := RouteReversed(n, gone, r, j, i);
    }
    assert Route(n, gone, p, i, j);
    forall k | 0 <= k < |p| ensures p[k] < n && ips[p[k]] !in failed {
      assert Alive(n, gone, p[k]);
    }
    var q := seq(|p|, k requires 0 <= k < |p| => ips[p[k]]);
    forall k | 0 <= k < |q| - 1 ensures q[k + 1] in NeighboursOf(ips, q[k]) {
      assert Near(n, p[k], p[k + 1]);
      assert ips[p[k]] == q[k] && ips[p[k + 1]] == q[k + 1];
    }
    assert GossipPath(ips, failed, q, x, y);
  }

  lemma {:induction false} IndexCount(ips: seq<string>, failed: set<string>, gone: set<nat>)
    requires Distinct(ips) && (forall k :: k in gone ==> k < |ips| && ips[k] in failed)
    ensures |gone| <= |failed|
    decreases |gone|
  {
    if gone != {} {
      var k :| k in gone;
      IndexCount(ips, failed - {ips[k]}, gone - {k});
    }
  }
}
