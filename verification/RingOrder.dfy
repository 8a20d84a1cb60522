/** The virtual ring seen as the list of its addresses, introducer first: what a join and a
    departure do to that list, and what that keeps. */
module RingOrder {
  import opened Text

  ghost predicate Distinct(ips: seq<string>)
  {
    forall i, j :: 0 <= i < j < |ips| ==> ips[i] != ips[j]
  }

  ghost predicate AllDotted(ips: seq<string>)
  {
    forall i :: 0 <= i < |ips| ==> Dotted(ips[i])
  }

  /** A ring list is never empty, repeats no address and holds only dotted addresses. */
  ghost predicate RingList(ips: seq<string>)
  {
    ips != [] && Distinct(ips) && AllDotted(ips)
  }

  /** First index from `k` on whose octet reaches `val`, or the length of the list. */
  function Reaches(ips: seq<string>, val: nat, k: nat): (p: nat)
    requires k <= |ips|
    requires forall i :: 0 <= i < |ips| ==> Dotted(ips[i])
    ensures k <= p <= |ips|
    ensures forall j :: k <= j < p ==> Octet(ips[j]) < val
    ensures p < |ips| ==> Octet(ips[p]) >= val
    decreases |ips| - k
  {
    if k == |ips| || Octet(ips[k]) >= val then k else Reaches(ips, val, k + 1)
  }

  /** Where a joiner goes: the search starts behind the introducer with the constant 1 as its
      first octet, so an octet below 2 is never searched for and lands at the end. */
  function Position(ips: seq<string>, val: nat): (p: nat)
    requires ips != []
    requires forall i :: 0 <= i < |ips| ==> Dotted(ips[i])
    ensures 1 <= p <= |ips|
  {
    if val <= 1 then |ips| else Reaches(ips, val, 1)
  }

  ghost function Joined(ips: seq<string>, ip: string): seq<string>
    requires ips != [] && AllDotted(ips) && Dotted(ip)
  {
    if ip in ips then ips
    else
      InsertedAt(ips, Position(ips, Octet(ip)), ip)
  }

  ghost function InsertedAt(ips: seq<string>, p: nat, ip: string): (joined: seq<string>)
    requires p <= |ips|
    ensures |joined| == |ips| + 1
    ensures forall i :: 0 <= i < |joined| ==>
                          joined[i] == if i < p then ips[i] else if i == p then ip else ips[i - 1]
  {
    ips[..p] + [ip] + ips[p..]
  }

  /** Departure: the introducer's place passes to its successor; any other node leaves only
      when more than two are present. */
  ghost function Departed(ips: seq<string>, ip: string): seq<string>
    requires ips != []
  {
    if ip == ips[0] then ips[1..]
    else if |ips| > 2 then Without(ips, ip)
    else ips
  }

  ghost function Without(ips: seq<string>, ip: string): seq<string>
  {
    if ips == [] then []
    else if ips[0] == ip then ips[1..]
    else [ips[0]] + Without(ips[1..], ip)
  }

  lemma {:induction false} WithoutAt(ips: seq<string>, k: nat)
    requires k < |ips| && Distinct(ips)
    ensures Without(ips, ips[k]) == ips[..k] + ips[k + 1..]
  {
    if k > 0 {
      WithoutAt(ips[1..], k - 1);
      assert ips[1..][..k - 1] + ips[1..][k..] == ips[1..k] + ips[k + 1..];
      assert [ips[0]] + ips[1..k] == ips[..k];
    }
  }

  lemma {:induction false} WithoutAbsent(ips: seq<string>, ip: string)
    requires ip !in ips
    ensures Without(ips, ip) == ips
  {
    if ips != [] { WithoutAbsent(ips[1..], ip); }
  }

  lemma JoinedKeepsRing(ips: seq<string>, ip: string)
    requires RingList(ips) && Dotted(ip)
    ensures RingList(Joined(ips, ip)) && Joined(ips, ip)[0] == ips[0]
  {
    if ip !in ips { InsertedKeepsRing(ips, Position(ips, Octet(ip)), ip); }
  }

  lemma InsertedKeepsRing(ips: seq<string>, p: nat, ip: string)
    requires RingList(ips) && Dotted(ip) && ip !in ips && p <= |ips|
    ensures RingList(InsertedAt(ips, p, ip))
  {
  }

  lemma GapKeepsRing(ips: seq<string>, k: nat)
    requires RingList(ips) && k < |ips| && |ips| > 1
    ensures RingList(ips[..k] + ips[k + 1..])
  {
  }

  lemma DepartedKeepsRing(ips: seq<string>, ip: string)
    requires RingList(ips) && |ips| > 1
    ensures RingList(Departed(ips, ip))
  {
    if ip == ips[0] {
      GapKeepsRing(ips, 0);
      assert ips[..0] + ips[1..] == ips[1..];
    } else if |ips| > 2 {
      if ip in ips {
        var k :| 0 <= k < |ips| && ips[k] == ip;
        WithoutAt(ips, k);
        GapKeepsRing(ips, k);
      } else {
        WithoutAbsent(ips, ip);
      }
    }
  }

  /** Where a joiner goes: behind every member with a smaller octet up to the first that has one at
      least as large, or to the end, where an octet below 2 goes at once. */
  lemma JoinerPlace(ips: seq<string>, ip: string)
    requires RingList(ips) && Dotted(ip)
    ensures ip in ips ==> Joined(ips, ip) == ips
    ensures ip !in ips ==> exists p: nat :: PlaceFor(ips, ip, p) && Joined(ips, ip) == ips[..p] + [ip] + ips[p..]
  {
    if ip !in ips { assert PlaceFor(ips, ip, Position(ips, Octet(ip))); }
  }

  ghost predicate PlaceFor(ips: seq<string>, ip: string, p: nat)
    requires AllDotted(ips) && Dotted(ip)
  {
    && 1 <= p <= |ips|
    && if Octet(ip) < 2 then p == |ips|
       else (forall i :: 1 <= i < p ==> Octet(ips[i]) < Octet(ip)) && (p < |ips| ==> Octet(ips[p]) >= Octet(ip))
  }

  lemma PlaceUnique(ips: seq<string>, ip: string, p: nat, q: nat)
    requires AllDotted(ips) && Dotted(ip) && PlaceFor(ips, ip, p) && PlaceFor(ips, ip, q)
    ensures p == q
  {
  }

  /** A departure takes out the departing address and nothing else, and all others stay in their order.
      An absent address changes nothing; nor does a present one in a ring of two, except the
      introducer. */
  lemma DepartedMeans(ips: seq<string>, ip: string)
    requires RingList(ips)
    ensures ip !in ips ==> Departed(ips, ip) == ips
    ensures forall k :: 0 <= k < |ips| && ips[k] == ip ==>
                          Departed(ips, ip) == if k == 0 || |ips| >= 3 then ips[..k] + ips[k + 1..] else ips
  {
    if k :| 0 <= k < |ips| && ips[k] == ip {
      WithoutAt(ips, k);
      assert k == 0 ==> ips[..k] + ips[k + 1..] == ips[1..];
    } else {
      WithoutAbsent(ips, ip);
    }
  }

  lemma GapMembers(ips: seq<string>, k: nat, x: string)
    requires Distinct(ips) && k < |ips|
    ensures x in ips[..k] + ips[k + 1..] <==> x in ips && x != ips[k]
  {
    var rest := ips[..k] + ips[k + 1..];
    if i :| 0 <= i < |rest| && rest[i] == x { assert x == ips[if i < k then i else i + 1]; }
    if j :| 0 <= j < |ips| && ips[j] == x && j != k { assert rest[if j < k then j else j - 1] == x; }
  }

  /** Exactly when a departure leaves the departing address out of the ring: in a ring of two, a member
      other than the introducer stays listed. All others stay in any case. */
  lemma GoneIff(ips: seq<string>, ip: string)
    requires RingList(ips)
    ensures ip !in Departed(ips, ip) <==> ip !in ips || ip == ips[0] || |ips| >= 3
    ensures forall x :: x != ip ==> (x in Departed(ips, ip) <==> x in ips)
  {
    DepartedMeans(ips, ip);
    if k :| 0 <= k < |ips| && ips[k] == ip {
      forall x { GapMembers(ips, k, x); }
      assert k != 0 ==> ips[0] != ips[k];
    }
  }

  /** A join followed by the same node's departure restores the ring of two or more. */
  lemma JoinThenDepart(ips: seq<string>, ip: string)
    requires RingList(ips) && |ips| >= 2 && Dotted(ip) && ip !in ips
    ensures Departed(Joined(ips, ip), ip) == ips
  {
    JoinedKeepsRing(ips, ip);
    InsertedAtWithout(ips, Position(ips, Octet(ip)), ip);
  }

  lemma {:induction false} InsertedAtWithout(ips: seq<string>, p: nat, ip: string)
    requires p <= |ips| && ip !in ips
    ensures Without(InsertedAt(ips, p, ip), ip) == ips
  {
    var joined := InsertedAt(ips, p, ip);
    if p == 0 {
      assert joined[1..] == ips;
    } else {
      InsertedAtWithout(ips[1..], p - 1, ip);
      assert joined[1..] == InsertedAt(ips[1..], p - 1, ip);
    }
  }

  // ----- order by last octet

  /** Behind the introducer the last octets never decrease. */
  ghost predicate Sorted(ips: seq<string>)
    requires AllDotted(ips)
  {
    forall i, j :: 1 <= i < j < |ips| ==> Octet(ips[i]) <= Octet(ips[j])
  }

  /** Joining keeps the order exactly when the joiner's octet is at least 2, or is no smaller
      than every octet behind the introducer. */
  lemma JoinSortedIff(ips: seq<string>, ip: string)
    requires RingList(ips) && Sorted(ips) && Dotted(ip) && ip !in ips
    ensures AllDotted(Joined(ips, ip))
    ensures Sorted(Joined(ips, ip)) <==>
              Octet(ip) >= 2 || forall i :: 1 <= i < |ips| ==> Octet(ips[i]) <= Octet(ip)
  {
    var p := Position(ips, Octet(ip));
    var joined := Joined(ips, ip);
    JoinedKeepsRing(ips, ip);
    assert joined[p] == ip;
    if Octet(ip) < 2 {
      if Sorted(joined) {
        forall i | 1 <= i < |ips| ensures Octet(ips[i]) <= Octet(ip) {
          assert joined[i] == ips[i];
        }
      }
    } else {
      forall i, j | 1 <= i < j < |joined| ensures Octet(joined[i]) <= Octet(joined[j]) {
        if i == p { assert joined[j] == ips[j - 1] && Octet(ips[p]) <= Octet(ips[j - 1]); }
      }
    }
  }

  lemma GapSorted(ips: seq<string>, k: nat)
    requires AllDotted(ips) && Sorted(ips) && k < |ips|
    ensures AllDotted(ips[..k] + ips[k + 1..]) && Sorted(ips[..k] + ips[k + 1..])
  {
    var rest := ips[..k] + ips[k + 1..];
    assert forall i :: 0 <= i < |rest| ==> rest[i] == ips[if i < k then i else i + 1];
  }

  lemma DepartSorted(ips: seq<string>, ip: string)
    requires RingList(ips) && |ips| > 1 && Sorted(ips)
    ensures AllDotted(Departed(ips, ip)) && Sorted(Departed(ips, ip))
  {
    DepartedMeans(ips, ip);
    if k :| 0 <= k < |ips| && ips[k] == ip { GapSorted(ips, k); }
  }

  // ----- whole runs

  datatype Change = Join(ip: string) | Depart(ip: string)

  /** What the ring demands of a change: joiners are dotted, and the introducer departs only
      from a ring of three or more. */
  ghost predicate Permitted(ips: seq<string>, c: Change)
    requires ips != []
  {
    match c
    case Join(ip) => Dotted(ip)
    case Depart(ip) => ip == ips[0] ==> |ips| >= 3
  }

  ghost function Apply(ips: seq<string>, c: Change): seq<string>
    requires RingList(ips) && Permitted(ips, c)
  {
    match c
    case Join(ip) => Joined(ips, ip)
    case Depart(ip) => Departed(ips, ip)
  }

  lemma ApplyKeepsRing(ips: seq<string>, c: Change)
    requires RingList(ips) && Permitted(ips, c)
    ensures RingList(Apply(ips, c))
  {
    match c
    case Join(ip) => JoinedKeepsRing(ips, ip);
    case Depart(ip) =>
      if |ips| > 1 { DepartedKeepsRing(ips, ip); }
  }

  /** Rings reachable from a single introducer by a run of permitted changes. */
  ghost predicate Run(first: string, cs: seq<Change>, ips: seq<string>)
    decreases |cs|
  {
    if cs == [] then ips == [first] && Dotted(first)
    else exists before :: Run(first, cs[..|cs| - 1], before) && RingList(before)
                          && Permitted(before, cs[|cs| - 1]) && ips == Apply(before, cs[|cs| - 1])
  }

  /** Every change of `cs` is permitted when its turn comes. */
  ghost predicate AllPermitted(ips: seq<string>, cs: seq<Change>)
    requires RingList(ips)
    decreases |cs|
  {
    cs == [] || (Permitted(ips, cs[0]) && RingList(Apply(ips, cs[0])) && AllPermitted(Apply(ips, cs[0]), cs[1..]))
  }

  ghost function ApplyAll(ips: seq<string>, cs: seq<Change>): seq<string>
    requires RingList(ips) && AllPermitted(ips, cs)
    decreases |cs|
  {
    if cs == [] then ips else ApplyAll(Apply(ips, cs[0]), cs[1..])
  }

  lemma RunNext(first: string, done: seq<Change>, ips: seq<string>, c: Change)
    requires Run(first, done, ips) && RingList(ips) && Permitted(ips, c)
    ensures Run(first, done + [c], Apply(ips, c))
  {
    assert (done + [c])[..|done|] == done;
  }

  lemma Regrouped<T>(s: seq<T>, t: seq<T>)
    requires t != []
    ensures s + [t[0]] + t[1..] == s + t
  {
  }

  lemma {:induction false} ApplyAllIsRun(first: string, done: seq<Change>, ips: seq<string>, cs: seq<Change>)
    requires Run(first, done, ips) && RingList(ips) && AllPermitted(ips, cs)
    ensures Run(first, done + cs, ApplyAll(ips, cs))
    decreases |cs|
  {
    if cs == [] {
      assert done + cs == done;
    } else {
      var next := Apply(ips, cs[0]);
      RunNext(first, done, ips, cs[0]);
      Regrouped(done, cs);
      ApplyAllIsRun(first, done + [cs[0]], next, cs[1..]);
    }
  }

  ghost predicate SearchableJoiners(cs: seq<Change>)
  {
    forall i :: 0 <= i < |cs| && cs[i].Join? && Dotted(cs[i].ip) ==> Octet(cs[i].ip) >= 2
  }

  /** Over every run whose joiners have an octet of at least 2, across every promotion of a new
      introducer, the ring stays a proper list in octet order. */
  lemma {:induction false} RunSorted(first: string, cs: seq<Change>, ips: seq<string>)
    requires Run(first, cs, ips) && SearchableJoiners(cs)
    ensures RingList(ips) && Sorted(ips)
    decreases |cs|
  {
    if cs != [] {
      var c := cs[|cs| - 1];
      var before :| Run(first, cs[..|cs| - 1], before) && RingList(before)
                    && Permitted(before, c) && ips == Apply(before, c);
      RunSorted(first, cs[..|cs| - 1], before);
      ApplyKeepsRing(before, c);
      match c
      case Join(ip) =>
        if ip !in before { JoinSortedIff(before, ip); }
      case Depart(ip) =>
        if |before| > 1 { DepartSorted(before, ip); }
    }
  }

  /** With an octet below 2, or as the second member, a joiner goes to the end. */
  lemma JoinedLast(ips: seq<string>, ip: string)
    requires RingList(ips) && Dotted(ip) && ip !in ips && (Octet(ip) < 2 || |ips| == 1)
    ensures Joined(ips, ip) == ips + [ip] && RingList(ips + [ip])
  {
    JoinedKeepsRing(ips, ip);
    assert InsertedAt(ips, |ips|, ip) == ips + [ip];
  }

  /** The shortest runs that break the order. */
  lemma LowOctetUnsorts(a: string, b: string, c: string)
    requires Dotted(a) && Dotted(b) && Dotted(c) && a != b && a != c && Octet(c) < 2 && Octet(c) < Octet(b)
    ensures Run(a, [Join(b), Join(c)], [a, b, c]) && AllDotted([a, b, c]) && !Sorted([a, b, c])
  {
    JoinedLast([a], b);
    assert [a] + [b] == [a, b];
    JoinedLast([a, b], c);
    assert [a, b] + [c] == [a, b, c];
    RunNext(a, [], [a], Join(b));
    assert [] + [Join(b)] == [Join(b)];
    RunNext(a, [Join(b)], [a, b], Join(c));
    assert [Join(b)] + [Join(c)] == [Join(b), Join(c)];
    var ips := [a, b, c];
    assert Octet(ips[1]) > Octet(ips[2]);
  }

  /** Three addresses, 10.0.0.9, 10.0.0.7 and 10.0.0.1, whose joins end out of order. */
  lemma OctetOneUnsorts()
    ensures var a, b, c := Host("9"), Host("7"), Host("1");
            Run(a, [Join(b), Join(c)], [a, b, c]) && AllDotted([a, b, c]) && !Sorted([a, b, c])
  {
    assert Atoi("9") == 9 && Atoi("7") == 7 && Atoi("1") == 1;
    LowOctetUnsorts(Host("9"), Host("7"), Host("1"));
  }
}
