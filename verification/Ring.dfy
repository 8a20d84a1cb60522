/** The virtual ring on the heap: nodes joined by two forward and two backward pointers. */
module Ring {
  import opened Text
  import opened RingOrder

  class Node {
    const ip: string
    var next1: Node?
    var next2: Node?
    var prev1: Node?
    var prev2: Node?

    constructor (ip: string)
      ensures this.ip == ip
      ensures next1 == null && next2 == null && prev1 == null && prev2 == null
    {
      this.ip := ip;
      next1, next2, prev1, prev2 := null, null, null, null;
    }

    method Detach()
      modifies this
      ensures next1 == null && next2 == null && prev1 == null && prev2 == null
    {
      next1 := null;
      next2 := null;
      prev1 := null;
      prev2 := null;
    }
  }

  /** Cyclic index arithmetic for distances no longer than one turn. */
  function Ahead(n: nat, i: nat, d: nat): nat
    requires i < n && d <= n
    ensures Ahead(n, i, d) < n
  {
    if i + d < n then i + d else i + d - n
  }

  function Behind(n: nat, i: nat, d: nat): nat
    requires i < n && d <= n
    ensures Behind(n, i, d) < n || d == 0
  {
    if d <= i then i - d else i + n - d
  }

  ghost predicate DistinctNodes(s: seq<Node>)
  {
    forall i, j :: 0 <= i < j < |s| ==> s[i] != s[j]
  }

  ghost predicate Linked(s: seq<Node>, i: nat)
    requires 3 <= |s| && i < |s|
    reads s
  {
    && s[i].next1 == s[Ahead(|s|, i, 1)]
    && s[i].next2 == s[Ahead(|s|, i, 2)]
    && s[i].prev1 == s[Behind(|s|, i, 1)]
    && s[i].prev2 == s[Behind(|s|, i, 2)]
  }

  /** At size two the second pointers are unset, or both still point at their own node after a
      departure from size three. */
  ghost predicate LinkedPair(a: Node, b: Node)
    reads a
  {
    a.next1 == b && a.prev1 == b && (a.next2 == null || a.next2 == a) && (a.prev2 == null || a.prev2 == a)
  }

  /** The pointers of the nodes of `s` form exactly the ring that `s` lists. */
  ghost predicate IsRing(s: seq<Node>)
    reads s
  {
    && s != []
    && DistinctNodes(s)
    && (|s| == 1 ==> s[0].next1 == null && s[0].next2 == null && s[0].prev1 == null && s[0].prev2 == null)
    && (|s| == 2 ==> LinkedPair(s[0], s[1]) && LinkedPair(s[1], s[0]))
    && (|s| >= 3 ==> forall i :: 0 <= i < |s| ==> Linked(s, i))
  }

  ghost function Ips(s: seq<Node>): (ips: seq<string>)
    ensures |ips| == |s|
    ensures forall i :: 0 <= i < |s| ==> ips[i] == s[i].ip
  {
    seq(|s|, i requires 0 <= i < |s| => s[i].ip)
  }

  ghost function WithNode(s: seq<Node>, t: Node, k: nat): (r: seq<Node>)
    requires k <= |s|
    ensures |r| == |s| + 1 && r[k] == t && (k > 0 ==> r[0] == s[0])
    ensures forall i :: 0 <= i < |r| ==> r[i] == t || r[i] in s
  {
    s[..k] + [t] + s[k..]
  }

  lemma IpsAdded(s: seq<Node>, t: Node, k: nat)
    requires k <= |s|
    ensures Ips(WithNode(s, t, k)) == InsertedAt(Ips(s), k, t.ip)
  {
  }

  ghost function Rotated<T>(s: seq<T>, k: nat): seq<T>
    requires k <= |s|
  {
    s[k..] + s[..k]
  }

  lemma PredecessorAtEnd(s: seq<Node>)
    requires IsRing(s) && |s| >= 2
    ensures s[0].prev1 == s[|s| - 1]
  {
    assert |s| >= 3 ==> Linked(s, 0);
  }

  lemma LinkedRotated(s: seq<Node>, k: nat, i: nat)
    requires 3 <= |s| && k <= |s| && i < |s|
    requires Linked(s, if i + k < |s| then i + k else i + k - |s|)
    ensures Linked(Rotated(s, k), i)
  {
  }

  /** A ring may be read off starting at any of its nodes. */
  lemma RotatedRing(s: seq<Node>, k: nat)
    requires IsRing(s) && k <= |s|
    ensures IsRing(Rotated(s, k))
  {
    var r := Rotated(s, k);
    forall i, j | 0 <= i < j < |r| ensures r[i] != r[j] {
      assert r[i] == s[if i + k < |s| then i + k else i + k - |s|];
      assert r[j] == s[if j + k < |s| then j + k else j + k - |s|];
    }
    if |s| >= 3 {
      forall i | 0 <= i < |s| ensures Linked(r, i) { LinkedRotated(s, k, i); }
    }
  }

  /** Reading a grown or shrunken ring off from the original first node again. */
  lemma RotatedBack(s: seq<Node>, t: Node, k: nat)
    requires k <= |s| && IsRing(Rotated(s, k) + [t])
    ensures IsRing(WithNode(s, t, k))
  {
    RotatedRing(Rotated(s, k) + [t], |s| - k);
    assert Rotated(Rotated(s, k) + [t], |s| - k) == WithNode(s, t, k);
  }

  lemma RotatedGap(s: seq<Node>, k: nat)
    requires k < |s| && IsRing(Rotated(s, k + 1)[..|s| - 1])
    ensures IsRing(s[..k] + s[k + 1..])
  {
    var r := Rotated(s, k + 1)[..|s| - 1];
    RotatedRing(r, |s| - 1 - k);
    assert Rotated(r, |s| - 1 - k) == s[..k] + s[k + 1..];
  }

  /** The pointer writes of a splice between the last and the first node of `s`. */
  twostate predicate SplicedAtEnd(s: seq<Node>, new temp: Node)
    requires |s| >= 4
    reads s, temp
  {
    var n := |s|;
    && temp.next1 == s[0] && temp.next2 == s[1] && temp.prev1 == s[n - 1] && temp.prev2 == s[n - 2]
    && (forall i :: 0 <= i < n ==> s[i].next1 == if i == n - 1 then temp else old(s[i].next1))
    && (forall i :: 0 <= i < n ==>
          s[i].next2 == if i == n - 1 then s[0] else if i == n - 2 then temp else old(s[i].next2))
    && (forall i :: 0 <= i < n ==> s[i].prev1 == if i == 0 then temp else old(s[i].prev1))
    && (forall i :: 0 <= i < n ==> s[i].prev2 == if i == 0 then s[n - 1] else if i == 1 then temp else old(s[i].prev2))
  }

  twostate lemma Grown(s: seq<Node>, new temp: Node)
    requires old(IsRing(s)) && |s| >= 4 && temp !in s && SplicedAtEnd(s, temp)
    ensures IsRing(s + [temp])
  {
    var t := s + [temp];
    forall i | 0 <= i < |t| ensures Linked(t, i) {
      if i < |s| { assert old(Linked(s, i)); }
    }
  }

  /** The second pointers a departure from size three leaves behind: each node's own. */
  ghost predicate OwnSeconds(s: seq<Node>)
    reads s
  {
    forall x :: x in s ==> x.next2 == x && x.prev2 == x
  }

  /** The pointer writes that bypass the last node of `s`; at size three they leave each of the two
      remaining nodes with second pointers at itself. */
  twostate predicate BypassedEnd(s: seq<Node>)
    requires |s| >= 3
    reads s
  {
    var n := |s|;
    && (forall i :: 0 <= i < n - 1 ==> s[i].next1 == if i == n - 2 then s[0] else old(s[i].next1))
    && (forall i :: 0 <= i < n - 1 ==>
          s[i].next2 == if i == n - 2 then s[1] else if i == n - 3 then s[0] else old(s[i].next2))
    && (forall i :: 0 <= i < n - 1 ==> s[i].prev1 == if i == 0 then s[n - 2] else old(s[i].prev1))
    && (forall i :: 0 <= i < n - 1 ==>
          s[i].prev2 == if i == 0 then s[n - 3] else if i == 1 then s[n - 2] else old(s[i].prev2))
  }

  twostate lemma Shrunk(s: seq<Node>)
    requires old(IsRing(s)) && |s| >= 3 && BypassedEnd(s)
    ensures IsRing(s[..|s| - 1])
    ensures |s| == 3 ==> OwnSeconds(s[..|s| - 1])
  {
    var t := s[..|s| - 1];
    if |s| == 3 {
      assert old(Linked(s, 0)) && old(Linked(s, 1));
    } else {
      forall i | 0 <= i < |t| ensures Linked(t, i) {
        assert old(Linked(s, i));
      }
    }
  }

  class VirtualRing {
    var introducer: Node
    var count: int
    var introducerExists: bool
    ghost var nodes: seq<Node>

    ghost predicate Valid()
      reads this, nodes
    {
      && IsRing(nodes)
      && nodes[0] == introducer
      && count == |nodes|
      && RingList(Ips(nodes))
    }

    constructor (ip: string)
      requires Dotted(ip)
      ensures Valid() && Ips(nodes) == [ip] && introducerExists && fresh(nodes)
    {
      var first := new Node(ip);
      introducer := first;
      count := 1;
      introducerExists := true;
      nodes := [first];
    }

    // ----- splices; from the third node on `introducer` is set to the predecessor of the new node while they run

    method SpliceSecond(temp: Node)
      requires IsRing(nodes) && nodes == [introducer] && temp != introducer
      modifies introducer, temp
      ensures IsRing(nodes + [temp])
    {
      introducer.next1 := temp;
      introducer.prev1 := temp;
      temp.next1 := introducer;
      temp.prev1 := introducer;
      temp.next2 := null;
      temp.prev2 := null;
    }

    method SpliceThird(temp: Node, ghost s: seq<Node>)
      requires IsRing(s) && |s| == 2 && introducer == s[1] && temp !in s
      modifies s, temp
      ensures IsRing(s + [temp])
    {
      var temp1 := introducer.next1;
      introducer.next1 := temp;
      introducer.next2 := temp1;
      introducer.prev2 := temp;

      temp.next1 := temp1;
      temp.next2 := temp.next1.next1;
      temp.prev1 := introducer;
      temp.prev2 := introducer.prev1;

      temp1.next2 := introducer.next1;
      temp1.prev1 := temp;
      temp1.prev2 := introducer;
      ghost var t := s + [temp];
      assert Linked(t, 0) && Linked(t, 1) && Linked(t, 2);
    }

    method SpliceFourth(temp: Node, ghost s: seq<Node>)
      requires IsRing(s) && |s| == 3 && introducer == s[2] && temp !in s
      modifies s, temp
      ensures IsRing(s + [temp])
    {
      assert Linked(s, 0) && Linked(s, 1) && Linked(s, 2);
      var temp2 := introducer.next1;
      introducer.next1 := temp;
      introducer.next2 := temp2;

      temp.next1 := temp2;
      temp.next2 := temp2.next1;
      temp.prev1 := introducer;
      temp.prev2 := introducer.prev1;

      temp2.prev2 := temp2.prev1;
      temp2.prev1 := temp;

      var temp3 := introducer.prev1;
      temp3.prev2 := temp3.prev1.prev1;
      temp3.next2 := introducer.next1;
      ghost var t := s + [temp];
      assert Linked(t, 0) && Linked(t, 1) && Linked(t, 2) && Linked(t, 3);
    }

    method SpliceLater(temp: Node, ghost s: seq<Node>)
      requires IsRing(s) && |s| >= 4 && introducer == s[|s| - 1] && temp !in s
      modifies s, temp
      ensures IsRing(s + [temp])
    {
      ghost var n := |s|;
      assert Linked(s, 0) && Linked(s, n - 1);
      var temp4 := introducer.next1;
      introducer.next1 := temp;
      introducer.next2 := temp4;

      temp.next1 := temp4;
      temp.next2 := temp4.next1;
      temp.prev1 := introducer;
      temp.prev2 := introducer.prev1;

      temp4.prev1 := temp;
      temp4.prev2 := temp.prev1;

      temp4.next1.prev2 := temp;

      introducer.prev1.next2 := temp;
      Grown(s, temp);
    }

    /** The lookup that starts `insert`: one turn around the ring. */
    method Find(ipAddr: string) returns (found: Node?)
      requires Valid()
      ensures found == null <==> ipAddr !in Ips(nodes)
      ensures found != null ==> found in nodes && found.ip == ipAddr
    {
      var itr: Node? := introducer;
      for i := 0 to count
        invariant i < count ==> itr == nodes[i]
        invariant ipAddr !in Ips(nodes)[..i]
      {
        if ipAddr == itr.ip {
          assert Ips(nodes)[i] == ipAddr;
          return itr;
        }
        assert count >= 3 ==> Linked(nodes, i);
        itr := itr.next1;
      }
      assert Ips(nodes)[..count] == Ips(nodes);
      found := null;
    }

    /** The ordered search of `insert`; `count` already includes the new node. It ends within the
        old ring size in steps and stops at the node the new one goes in front of. */
    method Search(val: nat) returns (temporary: Node, ghost k: nat)
      requires IsRing(nodes) && nodes[0] == introducer && count == |nodes| + 1 && |nodes| >= 2
      requires AllDotted(Ips(nodes))
      ensures k == Position(Ips(nodes), val)
      ensures temporary == nodes[Ahead(|nodes|, 0, Position(Ips(nodes), val))]
    {
      ghost var ips := Ips(nodes);
      var i := 1;
      var val1 := 1;
      temporary := introducer;
      while val1 < val && i < count
        invariant 1 <= i <= count
        invariant temporary == nodes[Ahead(|nodes|, 0, i - 1)]
        invariant val1 == if i == 1 then 1 else Octet(temporary.ip)
        invariant i > 1 ==> val > 1 && forall j :: 1 <= j < i - 1 ==> Octet(ips[j]) < val
        decreases count - i
      {
        assert |nodes| >= 3 ==> Linked(nodes, i - 1);
        temporary := temporary.next1;
        val1 := Octet(temporary.ip);
        i := i + 1;
      }
      k := if i == 1 then |nodes| else i - 1;
      assert i > 1 && i - 1 < |nodes| ==> Octet(ips[i - 1]) >= val;
    }

    /** The three splices of `insert`, chosen by the new count, behind `introducer`. */
    method SpliceBehind(temp: Node, ghost s: seq<Node>)
      requires IsRing(s) && |s| >= 2 && count == |s| + 1 && introducer == s[|s| - 1] && temp !in s
      modifies s, temp
      ensures IsRing(s + [temp])
    {
      if count == 3 {
        SpliceThird(temp, s);
      }
      if count == 4 {
        SpliceFourth(temp, s);
      } else if count > 4 {
        SpliceLater(temp, s);
      }
    }

    /** The splice of `insert` in front of node `k`, through a temporarily moved `introducer`. */
    method Splice(temp: Node, temporary: Node, ghost k: nat)
      requires IsRing(nodes) && nodes[0] == introducer && count == |nodes| + 1 && |nodes| >= 2
      requires 1 <= k <= |nodes| && temporary == nodes[Ahead(|nodes|, 0, k)] && temp !in nodes
      modifies this`introducer, nodes, temp
      ensures introducer == old(introducer)
      ensures IsRing(WithNode(nodes, temp, k))
    {
      ghost var s := Rotated(nodes, k);
      RotatedRing(nodes, k);
      PredecessorAtEnd(s);
      var originalIntroducer := introducer;
      introducer := temporary.prev1;
      SpliceBehind(temp, s);
      introducer := originalIntroducer;
      RotatedBack(nodes, temp, k);
    }

    /** Puts the new node into the pointers, in front of node `k`; `count` already includes it. */
    method Place(temp: Node) returns (ghost k: nat)
      requires IsRing(nodes) && nodes[0] == introducer && count == |nodes| + 1
      requires AllDotted(Ips(nodes)) && Dotted(temp.ip) && temp !in nodes
      modifies this`introducer, nodes, temp
      ensures introducer == old(introducer) && k == Position(Ips(nodes), Octet(temp.ip))
      ensures IsRing(WithNode(nodes, temp, k))
    {
      var val := Octet(temp.ip);
      if count == 2 {
        k := 1;
        SpliceSecond(temp);
        assert WithNode(nodes, temp, 1) == nodes + [temp];
      } else {
        var temporary;
        temporary, k := Search(val);
        Splice(temp, temporary, k);
      }
    }

    /** The part of `insert` that follows an unsuccessful lookup. */
    method Add(ipAddr: string) returns (temp: Node)
      requires Valid() && Dotted(ipAddr) && ipAddr !in Ips(nodes)
      modifies this, nodes
      ensures Valid() && introducer == old(introducer) && introducerExists == old(introducerExists)
      ensures temp.ip == ipAddr && fresh(temp) && temp in nodes
      ensures Ips(nodes) == Joined(Ips(old(nodes)), ipAddr)
      ensures forall i :: 0 <= i < |nodes| ==> nodes[i] == temp || nodes[i] in old(nodes)
      ensures exists p: nat :: PlaceFor(Ips(old(nodes)), ipAddr, p)
                               && nodes == old(nodes)[..p] + [temp] + old(nodes)[p..]
    {
      JoinedKeepsRing(Ips(nodes), ipAddr);
      count := count + 1;
      temp := new Node(ipAddr);
      ghost var k := Place(temp);
      IpsAdded(nodes, temp, k);
      assert PlaceFor(Ips(nodes), ipAddr, k);
      nodes := WithNode(nodes, temp, k);
    }

    /** Adds an address in octet order and returns its node; an address already present is only
        looked up. */
    method Insert(ipAddr: string) returns (found: Node)
      requires Valid() && Dotted(ipAddr)
      modifies this, nodes
      ensures Valid() && introducer == old(introducer) && introducerExists == old(introducerExists)
      ensures Ips(nodes) == Joined(Ips(old(nodes)), ipAddr)
      ensures found in nodes && found.ip == ipAddr
      ensures ipAddr in Ips(old(nodes)) ==>
                nodes == old(nodes) && unchanged(this) && forall x :: x in nodes ==> unchanged(x)
      ensures ipAddr !in Ips(old(nodes)) ==>
                fresh(found) && exists p: nat :: PlaceFor(Ips(old(nodes)), ipAddr, p)
                                                 && nodes == old(nodes)[..p] + [found] + old(nodes)[p..]
      ensures forall i :: 0 <= i < |nodes| ==> nodes[i] in old(nodes) || (nodes[i] == found && fresh(found))
    {
      var itr := Find(ipAddr);
      if itr != null {
        return itr;
      }
      found := Add(ipAddr);
    }

    /** The introducer's own departure; its successor takes over. */
    method LeaveIntroducer(ghost r: seq<Node>)
      requires IsRing(r) && |r| >= 2 && r[|r| - 1] == introducer && count == |r|
      requires introducer.next2 != null && introducer.prev2 != null
      modifies this, r
      ensures count == |r| - 1 && !introducerExists && introducer == r[0] && nodes == old(nodes)
      ensures |r| >= 3 ==> BypassedEnd(r)
      ensures |r| == 2 ==> r[0].next1 == r[0] && r[0].next2 == r[1]
    {
      assert |r| >= 3 ==> Linked(r, |r| - 1);
      var s := introducer;
      count := count - 1;
      introducerExists := false;
      introducer := s.next1;
      s.prev1.next1 := s.next1;
      s.prev1.next2 := s.next2;

      s.prev2.next2 := s.next1;

      s.next1.prev1 := s.prev1;
      s.next1.prev2 := s.prev2;

      s.next2.prev2 := s.prev1;
    }

    /** The pointer writes of `leave` around a node other than the introducer. */
    method Bypass(s: Node, ghost r: seq<Node>)
      requires IsRing(r) && |r| >= 3 && s == r[|r| - 1]
      modifies r
      ensures BypassedEnd(r)
    {
      assert Linked(r, |r| - 1) && Linked(r, |r| - 2);
      var s1 := s.prev1;
      s1.next1 := s.next1;
      s1.next2 := s.next2;

      s1.prev1.next2 := s.next1;

      s.next1.prev1 := s1;
      s.next1.prev2 := s1.prev1;

      s.next2.prev2 := s1;
    }

    method BypassAndDetach(s: Node, ghost r: seq<Node>)
      requires IsRing(r) && |r| >= 3 && s == r[|r| - 1]
      modifies r
      ensures IsRing(r[..|r| - 1]) && (|r| == 3 ==> OwnSeconds(r[..|r| - 1]))
      ensures s.next1 == null && s.next2 == null && s.prev1 == null && s.prev2 == null
    {
      Bypass(s, r);
      Shrunk(r);
      s.Detach();
    }

    /** The departure of node `k` from a ring of three or more. */
    method Unlink(s: Node, ghost k: nat)
      requires IsRing(nodes) && |nodes| >= 3 && 1 <= k < |nodes| && s == nodes[k]
      modifies this`nodes, nodes
      ensures nodes == old(nodes)[..k] + old(nodes)[k + 1..]
      ensures IsRing(nodes) && (|old(nodes)| == 3 ==> OwnSeconds(nodes))
      ensures s.next1 == null && s.next2 == null && s.prev1 == null && s.prev2 == null
    {
      ghost var r := Rotated(nodes, k + 1);
      RotatedRing(nodes, k + 1);
      assert r[|r| - 1] == nodes[k];
      BypassAndDetach(s, r);
      RotatedGap(nodes, k);
      assert r[..|r| - 1] == nodes[k + 1..] + nodes[..k];
      nodes := nodes[..k] + nodes[k + 1..];
    }

    /** The walk of `leave` to the departing node. */
    method Walk(ip: string) returns (s: Node?, ghost k: nat)
      requires Valid() && count > 2
      ensures s == null ==> ip !in Ips(nodes)
      ensures s != null ==> k < |nodes| && s == nodes[k] && s.ip == ip
    {
      s := introducer;
      var i := 1;
      while i <= count
        invariant 1 <= i <= count + 1
        invariant s == nodes[Ahead(|nodes|, 0, i - 1)]
        invariant forall j :: 0 <= j < i - 1 ==> nodes[j].ip != ip
      {
        if s.ip == ip {
          return s, i - 1;
        }
        assert Linked(nodes, i - 1);
        s := s.next1;
        i := i + 1;
      }
      return null, 0;
    }

    /** The departure of a node other than the introducer from a ring of three or more. */
    method LeaveOther(ip: string)
      requires Valid() && count > 2 && ip != introducer.ip
      modifies this`count, this`nodes, nodes
      ensures IsRing(nodes) && nodes[0] == introducer && count == |nodes|
      ensures Ips(nodes) == Without(Ips(old(nodes)), ip) && forall x :: x in nodes ==> x in old(nodes)
      ensures old(count) == 3 && count == 2 ==> OwnSeconds(nodes)
      ensures ip !in Ips(old(nodes)) ==>
                nodes == old(nodes) && unchanged(this) && forall x :: x in nodes ==> unchanged(x)
      ensures forall k :: 0 <= k < |old(nodes)| && old(nodes)[k].ip == ip ==>
                            nodes == old(nodes)[..k] + old(nodes)[k + 1..]
    {
      ghost var ips := Ips(nodes);
      var s, k := Walk(ip);
      if s == null {
        WithoutAbsent(ips, ip);
      } else {
        count := count - 1;
        WithoutAt(ips, k);
        Unlink(s, k);
        assert Ips(nodes) == Without(ips, ip);
      }
    }

    method LeaveFirst()
      requires IsRing(nodes) && nodes[0] == introducer && count == |nodes|
      requires introducer.next2 != null && introducer.prev2 != null
      modifies this, nodes
      ensures nodes == old(nodes)[1..] && count == |nodes| && !introducerExists && introducer == nodes[0]
      ensures old(count) >= 3 ==> IsRing(nodes)
      ensures old(count) == 3 ==> OwnSeconds(nodes)
      ensures old(count) == 2 ==> introducer.next1 == introducer && introducer.next2 == old(introducer)
    {
      ghost var r := Rotated(nodes, 1);
      RotatedRing(nodes, 1);
      LeaveIntroducer(r);
      if |r| >= 3 { Shrunk(r); }
      nodes := nodes[1..];
      assert r[..|r| - 1] == nodes;
    }

    /** A departure keeps the ring except when the introducer leaves a ring of two, where its
        successor is left pointing at itself and at the departed node. A ring whose second
        pointers are unset has no code path for its introducer to leave. */
    method Leave(ip: string)
      requires Valid()
      requires ip == introducer.ip ==> introducer.next2 != null && introducer.prev2 != null
      modifies this, nodes
      ensures Valid() <==> (ip == old(introducer.ip) ==> old(count) >= 3)
      ensures Ips(nodes) == Departed(Ips(old(nodes)), ip) && forall x :: x in nodes ==> x in old(nodes)
      ensures old(count) == 3 && count == 2 ==> OwnSeconds(nodes)
      ensures old(count) == 2 && ip == old(introducer.ip) ==> count == 1 && nodes == [introducer]
      ensures old(count) == 2 && ip == old(introducer.ip) ==>
                introducer.next1 == introducer && introducer.next2 == old(introducer) && introducer != old(introducer)
      ensures introducerExists == (old(introducerExists) && ip != old(introducer.ip))
      ensures ip !in Ips(old(nodes)) ==>
                nodes == old(nodes) && unchanged(this) && forall x :: x in nodes ==> unchanged(x)
      ensures forall k :: 0 <= k < |old(nodes)| && old(nodes)[k].ip == ip ==>
                            nodes == if k == 0 || |old(nodes)| >= 3 then old(nodes)[..k] + old(nodes)[k + 1..]
                                     else old(nodes)
    {
      ghost var ips := Ips(nodes);
      if |nodes| > 1 { DepartedKeepsRing(ips, ip); }
      if ip == introducer.ip {
        LeaveFirst();
        assert Ips(nodes) == ips[1..];
      } else if count > 2 {
        LeaveOther(ip);
      }
    }

    /** On the heap as on the address list: an address that joins and leaves again has changed
        neither the nodes nor their order nor the introducer. */
    method InsertThenLeave(ipAddr: string)
      requires Valid() && |nodes| >= 2 && Dotted(ipAddr) && ipAddr !in Ips(nodes)
      modifies this, nodes
      ensures Valid() && nodes == old(nodes) && introducer == old(introducer)
      ensures |nodes| == 2 ==> OwnSeconds(nodes)
    {
      ghost var was := nodes;
      JoinThenDepart(Ips(was), ipAddr);
      JoinedKeepsRing(Ips(was), ipAddr);
      var joined := Insert(ipAddr);
      Leave(ipAddr);
      assert forall x :: x in nodes ==> x == joined || x in was;
      SameNodes(was, nodes, joined);
    }

    /** Joins and departures in any permitted order, on the heap. */
    method Perform(cs: seq<Change>)
      requires Valid() && AllPermitted(Ips(nodes), cs)
      modifies this, nodes
      ensures Valid() && Ips(nodes) == ApplyAll(Ips(old(nodes)), cs)
      ensures forall i :: 0 <= i < |nodes| ==> nodes[i] in old(nodes) || fresh(nodes[i])
    {
      ghost var was := Ips(nodes);
      ghost var final := ApplyAll(was, cs);
      for i := 0 to |cs|
        invariant Valid() && AllPermitted(Ips(nodes), cs[i..])
        invariant ApplyAll(Ips(nodes), cs[i..]) == final
        invariant forall i :: 0 <= i < |nodes| ==> nodes[i] in old(nodes) || fresh(nodes[i])
      {
        assert cs[i..][0] == cs[i] && cs[i..][1..] == cs[i + 1..];
        PerformOne(cs[i]);
      }
    }

    method PerformOne(c: Change)
      requires Valid() && Permitted(Ips(nodes), c)
      modifies this, nodes
      ensures Valid() && Ips(nodes) == Apply(Ips(old(nodes)), c)
      ensures forall i :: 0 <= i < |nodes| ==> nodes[i] in old(nodes) || fresh(nodes[i])
    {
      match c
      case Join(ip) =>
        var joined := Insert(ip);
      case Depart(ip) =>
        assert |nodes| >= 3 ==> Linked(nodes, 0);
        Leave(ip);
    }
  }

  /** Two rings with the same addresses, over the same nodes and one with another address, are the
      same ring. */
  lemma SameNodes(s: seq<Node>, t: seq<Node>, other: Node)
    requires Ips(s) == Ips(t) && Distinct(Ips(s)) && other.ip !in Ips(s)
    requires forall x :: x in t ==> x == other || x in s
    ensures s == t
  {
    forall i | 0 <= i < |t| ensures s[i] == t[i] {
      assert t[i].ip == Ips(t)[i] == Ips(s)[i] == s[i].ip;
      assert t[i] in t && t[i] in s;
      var j :| 0 <= j < |s| && s[j] == t[i];
      assert Ips(s)[j] == Ips(s)[i];
    }
  }

  /** Every permitted run from a single introducer can be performed on the heap and leaves a ring
      whose addresses are those of the run. */
  method PerformRun(first: string, cs: seq<Change>) returns (ring: VirtualRing)
    requires Dotted(first) && AllPermitted([first], cs)
    ensures fresh(ring) && ring.Valid() && Run(first, cs, Ips(ring.nodes))
    ensures SearchableJoiners(cs) ==> Sorted(Ips(ring.nodes))
  {
    ring := new VirtualRing(first);
    ring.Perform(cs);
    ApplyAllIsRun(first, [], [first], cs);
    assert [] + cs == cs;
    if SearchableJoiners(cs) { RunSorted(first, cs, Ips(ring.nodes)); }
  }

  lemma JoinedPair(a: string, b: string)
    requires RingList([a, b])
    ensures AllDotted([a]) && Dotted(a) && Dotted(b) && Joined([a], b) == [a, b]
  {
    assert [a, b][0] == a && [a, b][1] == b;
    assert InsertedAt([a], 1, b) == [a, b];
  }

  method NewPair(a: string, b: string) returns (ring: VirtualRing)
    requires RingList([a, b])
    ensures fresh(ring) && ring.Valid() && fresh(ring.nodes) && Ips(ring.nodes) == [a, b]
  {
    JoinedPair(a, b);
    ring := new VirtualRing(a);
    var joined := ring.Insert(b);
  }

  /** The one departure that breaks a ring, in a run: three join, one leaves, the introducer leaves. */
  method IntroducerLeavesPair(a: string, b: string, c: string) returns (ring: VirtualRing)
    requires RingList([a, b]) && Dotted(c) && c !in [a, b]
    ensures !ring.Valid() && ring.count == 1 && ring.introducer.next1 == ring.introducer
  {
    ring := NewPair(a, b);
    ring.InsertThenLeave(c);
    assert ring.introducer in ring.nodes && Ips(ring.nodes)[0] == a;
    ring.Leave(a);
  }
}
