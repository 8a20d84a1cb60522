/** One node's view of the group: its member map and its neighbour list, and the handlers that
    change them. */
module Membership {
  import opened Text
  import opened Datagram

  datatype Entry = Entry(stamp: int, failed: bool)

  /** The two tables a node keeps. */
  datatype View = View(members: map<string, Entry>, neighbours: seq<string>)

  function Flags(members: map<string, Entry>): map<string, bool>
  {
    map k | k in members :: members[k].failed
  }

  /** Neighbour lists stop growing at four. */
  function WithNeighbour(neighbours: seq<string>, ip: string): seq<string>
  {
    if |neighbours| < 4 then neighbours + [ip] else neighbours
  }

  /** One remote report: a remote "0" clears the flag of anyone, a remote "1" raises it only for
      nodes this node does not itself watch, and an unknown node starts alive. */
  function MergeReport(members: map<string, Entry>, neighbours: seq<string>, r: Report, now: int): map<string, Entry>
  {
    if r.ip !in members then members[r.ip := Entry(now, false)]
    else
      var e := members[r.ip];
      var stillFailed := e.failed && r.flag != "0";
      members[r.ip := e.(failed := stillFailed || (r.flag == "1" && r.ip !in neighbours))]
  }

  function Merge(members: map<string, Entry>, neighbours: seq<string>, rs: seq<Report>, now: int): map<string, Entry>
    decreases |rs|
  {
    if rs == [] then members
    else
      var last := |rs| - 1;
      MergeReport(Merge(members, neighbours, rs[..last], now), neighbours, rs[last], now)
  }

  /** A heartbeat from `ip` carrying reports `rs`. */
  function Heard(v: View, ip: string, rs: seq<Report>, now: int): View
  {
    var neighbours := if ip in v.members then WithNeighbour(v.neighbours, ip) else v.neighbours;
    View(Merge(v.members[ip := Entry(now, false)], neighbours, rs, now), neighbours)
  }

  /** Seconds of silence after which a watched node is declared failed. */
  const TIMEOUT: int := 2

  predicate Silent(v: View, h: string, now: int)
  {
    h in v.members && h in v.neighbours && now - v.members[h].stamp >= TIMEOUT
  }

  /** One scan of the failure detector. */
  function Scanned(v: View, now: int): View
  {
    View(map h | h in v.members :: if Silent(v, h, now) then v.members[h].(failed := true) else v.members[h],
         v.neighbours)
  }

  /** The list read from an introducer message: a trailing empty item is dropped. */
  function ReadList(message: string): seq<string>
  {
    var items := Split(message, ';');
    if items[|items| - 1] == "" then items[..|items| - 1] else items
  }

  /** The map once every listed address has an entry: those not known before are alive, stamped
      now. */
  function Enrolled(members: map<string, Entry>, listed: seq<string>, now: int): map<string, Entry>
  {
    map h | h in members.Keys + (set x | x in listed) :: if h in members then members[h] else Entry(now, false)
  }

  // ----- how the neighbour list grows

  datatype Received = Received(from: string, reports: seq<Report>, time: int)

  ghost function HeardAll(v: View, beats: seq<Received>): View
    decreases |beats|
  {
    if beats == [] then v
    else
      var last := |beats| - 1;
      Heard(HeardAll(v, beats[..last]), beats[last].from, beats[last].reports, beats[last].time)
  }

  ghost function Senders(beats: seq<Received>): seq<string>
  {
    seq(|beats|, i requires 0 <= i < |beats| => beats[i].from)
  }

  /** A list filled up to four entries with the first of the senders; longer lists stay. */
  ghost function Filled(listed: seq<string>, senders: seq<string>): seq<string>
  {
    var room := if |listed| >= 4 then 0 else 4 - |listed|;
    listed + senders[..if |senders| < room then |senders| else room]
  }

  lemma FilledNext(listed: seq<string>, senders: seq<string>, x: string)
    ensures WithNeighbour(Filled(listed, senders), x) == Filled(listed, senders + [x])
  {
  }

  /** Over any sequence of heartbeats from known members, the introducer's list stays in front and is
      filled up to four entries with the first senders, in order of arrival, repeats included; a list
      of four or more never changes. */
  lemma {:induction false} NeighboursFill(v: View, beats: seq<Received>)
    requires forall i :: 0 <= i < |beats| ==> beats[i].from in v.members
    ensures HeardAll(v, beats).neighbours == Filled(v.neighbours, Senders(beats))
    ensures forall h :: h in v.members ==> h in HeardAll(v, beats).members
    decreases |beats|
  {
    if beats != [] {
      var last := |beats| - 1;
      var before, b := beats[..last], beats[last];
      NeighboursFill(v, before);
      HeardKnows(HeardAll(v, before), b.from, b.reports, b.time);
      FilledNext(v.neighbours, Senders(before), b.from);
      assert Senders(beats) == Senders(before) + [b.from];
    }
  }

  lemma HeardKnows(v: View, ip: string, rs: seq<Report>, now: int)
    ensures forall h :: h in v.members ==> h in Heard(v, ip, rs, now).members
  {
    forall h | h in v.members ensures h in Heard(v, ip, rs, now).members {
      MergeEffect(v.members[ip := Entry(now, false)], Heard(v, ip, rs, now).neighbours, rs, now, h);
    }
  }

  // ----- what one merge can do to one entry

  /** A merge drops nobody, never touches a time stamp, and the flag it leaves is the old one or
      was brought by one of the reports. */
  lemma {:induction false} MergeEffect(members: map<string, Entry>, neighbours: seq<string>, rs: seq<Report>,
          now: int, h: string)
    ensures h in members ==>
              h in Merge(members, neighbours, rs, now)
              && Merge(members, neighbours, rs, now)[h].stamp == members[h].stamp
    ensures h !in members && h in Merge(members, neighbours, rs, now) ==>
              Merge(members, neighbours, rs, now)[h].stamp == now
    ensures h in Merge(members, neighbours, rs, now) && Merge(members, neighbours, rs, now)[h].failed ==>
              (h in members && members[h].failed) || (h !in neighbours && Report(h, "1") in rs)
    ensures h in members && members[h].failed && !Merge(members, neighbours, rs, now)[h].failed ==>
              Report(h, "0") in rs
    decreases |rs|
  {
    if rs != [] {
      var last := |rs| - 1;
      MergeEffect(members, neighbours, rs[..last], now, h);
      assert rs[last] in rs;
      assert forall r :: r in rs[..last] ==> r in rs;
      assert rs[last].ip == h && rs[last].flag == "0" ==> rs[last] == Report(h, "0");
      assert rs[last].ip == h && rs[last].flag == "1" ==> rs[last] == Report(h, "1");
    }
  }

  /** The last usable report about a known node decides its flag: a "0" always, a "1" only about a
      node outside the neighbour list. */
  lemma {:induction false} LastReportDecides(members: map<string, Entry>, neighbours: seq<string>,
          rs: seq<Report>, now: int, i: nat)
    requires i < |rs| && rs[i].ip in members && (rs[i].flag == "0" || (rs[i].flag == "1" && rs[i].ip !in neighbours))
    requires forall j :: i < j < |rs| ==> rs[j].ip != rs[i].ip
    ensures var merged := Merge(members, neighbours, rs, now);
            rs[i].ip in merged && merged[rs[i].ip].failed == (rs[i].flag == "1")
    decreases |rs|
  {
    var last := |rs| - 1;
    if i == last {
      MergeEffect(members, neighbours, rs[..last], now, rs[i].ip);
    } else {
      assert rs[..last][i] == rs[i];
      LastReportDecides(members, neighbours, rs[..last], now, i);
    }
  }

  /** A node first heard of in a message starts alive, whatever the message says of it. */
  lemma {:induction false} NewcomerAlive(members: map<string, Entry>, neighbours: seq<string>, rs: seq<Report>,
          now: int, i: nat)
    requires i < |rs| && rs[i].ip !in members
    requires forall j :: 0 <= j < |rs| && j != i ==> rs[j].ip != rs[i].ip
    ensures var merged := Merge(members, neighbours, rs, now);
            rs[i].ip in merged && merged[rs[i].ip] == Entry(now, false)
    decreases |rs|
  {
    var last := |rs| - 1;
    if i == last {
      MergeAdds(members, neighbours, rs[..last], now, rs[i].ip);
    } else {
      assert rs[..last][i] == rs[i];
      NewcomerAlive(members, neighbours, rs[..last], now, i);
    }
  }

  lemma {:induction false} MergeAdds(members: map<string, Entry>, neighbours: seq<string>, rs: seq<Report>,
          now: int, h: string)
    ensures h in Merge(members, neighbours, rs, now) <==> h in members || exists i :: 0 <= i < |rs| && rs[i].ip == h
    decreases |rs|
  {
    if rs != [] {
      MergeAdds(members, neighbours, rs[..|rs| - 1], now, h);
    }
  }

  /** What a heartbeat leaves of the stamps and of the list: the sender and all newcomers are stamped
      now, everyone else keeps the old stamp, and a sender is listed only if it was known. */
  lemma HeardStamps(v: View, ip: string, rs: seq<Report>, now: int)
    ensures var w := Heard(v, ip, rs, now);
            && ip in w.members && w.members[ip].stamp == now
            && (forall h :: h in v.members && h != ip ==> h in w.members && w.members[h].stamp == v.members[h].stamp)
            && (forall h :: h in w.members && h !in v.members ==> w.members[h].stamp == now)
    ensures Heard(v, ip, rs, now).neighbours ==
              if ip in v.members && |v.neighbours| < 4 then v.neighbours + [ip] else v.neighbours
  {
    var w := Heard(v, ip, rs, now);
    forall h ensures h == ip || h in v.members ==>
                       h in w.members && w.members[h].stamp == if h == ip then now else v.members[h].stamp
             ensures h in w.members && h !in v.members ==> w.members[h].stamp == now
    {
      MergeEffect(v.members[ip := Entry(now, false)], w.neighbours, rs, now, h);
    }
  }

  /** A node's own watch cannot be overruled: no message raises the flag of a neighbour, and a
      heartbeat always clears its sender first. */
  lemma HeardRaises(v: View, ip: string, rs: seq<Report>, now: int, h: string)
    requires var w := Heard(v, ip, rs, now); h in w.members && w.members[h].failed
    ensures var w := Heard(v, ip, rs, now);
            (h != ip && h in v.members && v.members[h].failed) || (h !in w.neighbours && Report(h, "1") in rs)
  {
    var w := Heard(v, ip, rs, now);
    MergeEffect(v.members[ip := Entry(now, false)], w.neighbours, rs, now, h);
  }

  /** A flag falls only to the node's own heartbeat or to a report that it is alive. */
  lemma HeardClears(v: View, ip: string, rs: seq<Report>, now: int, h: string)
    requires h in v.members && v.members[h].failed
    requires var w := Heard(v, ip, rs, now); h in w.members && !w.members[h].failed
    ensures h == ip || Report(h, "0") in rs
  {
    var w := Heard(v, ip, rs, now);
    MergeEffect(v.members[ip := Entry(now, false)], w.neighbours, rs, now, h);
  }

  // ----- master election

  /** Electable: live, and not the first key of the map, which the backward scan never reads. */
  ghost predicate Electable(members: map<string, Entry>, k: string)
  {
    k in members && !members[k].failed && exists x :: x in members && Before(x, k)
  }

  /** The outcome of one election scan. */
  ghost predicate Election(members: map<string, Entry>, before: string, after: string)
  {
    if exists k :: Electable(members, k)
    then Electable(members, after) && forall k :: Electable(members, k) ==> k == after || Before(k, after)
    else after == before
  }

  ghost predicate SameFlags(m: map<string, Entry>, m': map<string, Entry>)
  {
    m.Keys == m'.Keys && forall k :: k in m ==> m[k].failed == m'[k].failed
  }

  /** Nodes that agree on keys and flags, with someone electable, elect the same live master
      whatever their stamps and former masters. */
  lemma ElectionAgreement(m: map<string, Entry>, m': map<string, Entry>,
                          before: string, before': string, after: string, after': string)
    requires SameFlags(m, m')
    requires exists k :: Electable(m, k)
    requires Election(m, before, after) && Election(m', before', after')
    ensures after == after' && after in m && !m[after].failed
  {
    forall k ensures Electable(m, k) <==> Electable(m', k) {
    }
    if after != after' {
      BeforeTransitive(after, after', after);
      BeforeIrreflexive(after);
    }
  }

  ghost function Unfailed(members: map<string, Entry>): set<string>
  {
    set k | k in members && !members[k].failed
  }

  lemma ElectableIff(members: map<string, Entry>, k: string)
    ensures Electable(members, k) <==> k in Unfailed(members) && !Least(members.Keys, k)
  {
    if x :| x in members && Before(x, k) && Least(members.Keys, k) {
      if Before(k, x) { BeforeTransitive(x, k, x); }
      BeforeIrreflexive(x);
    }
    if k in members && !Least(members.Keys, k) {
      var x :| x in members && x != k && !Before(k, x);
      BeforeTotal(x, k);
    }
  }

  /** Exactly when the elected master is live: the old master lives, or someone other than the least
      key does; two live members are always enough. So the group is left without a live master exactly
      when the old one is dead and nobody but the least key lives. */
  lemma MasterLiveIff(m: map<string, Entry>, before: string, after: string)
    requires Election(m, before, after)
    ensures after in Unfailed(m) <==> before in Unfailed(m) || exists k :: k in Unfailed(m) && !Least(m.Keys, k)
    ensures |Unfailed(m)| >= 2 ==> after in Unfailed(m)
    ensures after !in Unfailed(m) && Unfailed(m) != {} <==>
              before !in Unfailed(m) && exists k :: Least(m.Keys, k) && Unfailed(m) == {k}
  {
    forall k ensures Electable(m, k) <==> k in Unfailed(m) && !Least(m.Keys, k) {
      ElectableIff(m, k);
    }
    if forall k :: k in Unfailed(m) ==> Least(m.Keys, k) { OnlyLeast(m.Keys, Unfailed(m)); }
  }

  lemma OnlyLeast(s: set<string>, live: set<string>)
    requires live <= s && forall k :: k in live ==> Least(s, k)
    ensures |live| <= 1
    ensures live != {} ==> exists k :: Least(s, k) && live == {k}
  {
    if k :| k in live {
      forall x | x in live ensures x == k {
        LeastUnique(s, x, k);
      }
      assert live == {k};
    }
  }

  datatype Heartbeat = Heartbeat(dst: string, message: string)

  predicate Skipped(members: map<string, Entry>, dst: string, atEnd: bool)
  {
    if dst in members then members[dst].failed else atEnd
  }

  ghost function Round(listed: seq<string>, members: map<string, Entry>, atEnd: bool): seq<Heartbeat>
    decreases |listed|
  {
    if listed == [] then []
    else
      var last := |listed| - 1;
      Round(listed[..last], members, atEnd)
      + if Skipped(members, listed[last], atEnd) then []
        else [Heartbeat(listed[last], Wire(Reports(Flags(members))))]
  }

  /** What a round sends: to each known address not marked failed exactly as many heartbeats as the list
      has entries for it, all with the text of the member list, to a known address marked failed none,
      and to an unknown one whatever the end of the map says. */
  lemma {:induction false} RoundSends(listed: seq<string>, members: map<string, Entry>, atEnd: bool, b: Heartbeat)
    ensures multiset(Round(listed, members, atEnd))[b] ==
              if b.message != Wire(Reports(Flags(members))) then 0
              else if b.dst in members && members[b.dst].failed then 0
              else if b.dst !in members && atEnd then 0
              else multiset(listed)[b.dst]
    decreases |listed|
  {
    if listed != [] {
      RoundSends(listed[..|listed| - 1], members, atEnd, b);
      assert listed == listed[..|listed| - 1] + [listed[|listed| - 1]];
    }
  }

  /** Who is addressed in a round. */
  lemma InRound(listed: seq<string>, members: map<string, Entry>, atEnd: bool)
    ensures forall b :: b in Round(listed, members, atEnd) <==>
                          b.dst in listed && b.message == Wire(Reports(Flags(members)))
                          && if b.dst in members then !members[b.dst].failed else !atEnd
  {
    var sent := Round(listed, members, atEnd);
    forall b: Heartbeat
      ensures b in sent <==>
                b.dst in listed && b.message == Wire(Reports(Flags(members)))
                && if b.dst in members then !members[b.dst].failed else !atEnd
    {
      RoundSends(listed, members, atEnd, b);
      assert b in sent <==> multiset(sent)[b] > 0;
      assert b.dst in listed <==> multiset(listed)[b.dst] > 0;
    }
  }

  /** An election that leaves a dead master although someone lives, for any two members `x` and `y`
      in key order: only the least key is live, and the scan never reads it. */
  lemma DeadMasterStays(x: string, y: string)
    requires Before(x, y)
    ensures x != y
    ensures var m := map[x := Entry(0, false), y := Entry(0, true)];
            Election(m, y, y) && m[y].failed && !m[x].failed
  {
    var m := map[x := Entry(0, false), y := Entry(0, true)];
    BeforeIrreflexive(x);
    assert forall k :: k in m ==> k == x || k == y;
    if Before(y, x) { BeforeTransitive(x, y, x); }
    assert !Electable(m, x) && !Electable(m, y);
  }

  class Member {
    var memberList: map<string, Entry>
    var localNeighbourList: seq<string>
    var master: string

    function Tables(): View
      reads this
    {
      View(memberList, localNeighbourList)
    }

    method AddToLocalNeighbourList(ipAddr: string)
      modifies this`localNeighbourList
      ensures localNeighbourList == WithNeighbour(old(localNeighbourList), ipAddr)
    {
      if |localNeighbourList| < 4 {
        localNeighbourList := localNeighbourList + [ipAddr];
      }
    }

    method AddToMemlist(ip: string, now: int)
      modifies this`memberList
      ensures memberList == Enrolled(old(memberList), [ip], now)
    {
      if ip !in memberList {
        memberList := memberList[ip := Entry(now, false)];
      }
    }

    /** The start-up of a member that has received its neighbour list: every neighbour is known, and
        alive unless the map already says otherwise. */
    method EnrolNeighbours(now: int)
      modifies this`memberList
      ensures memberList == Enrolled(old(memberList), localNeighbourList, now)
      ensures forall h :: h in memberList <==> h in old(memberList) || h in localNeighbourList
      ensures forall h :: h in memberList ==>
                            memberList[h] == if h in old(memberList) then old(memberList)[h] else Entry(now, false)
    {
      for i := 0 to |localNeighbourList|
        invariant memberList == Enrolled(old(memberList), localNeighbourList[..i], now)
      {
        assert localNeighbourList[..i + 1] == localNeighbourList[..i] + [localNeighbourList[i]];
        AddToMemlist(localNeighbourList[i], now);
      }
      assert localNeighbourList[..|localNeighbourList|] == localNeighbourList;
    }

    method HeartbeatHandler(request: string, ipAddr: string, now: int) returns (reply: string)
      requires WellFormed(request)
      modifies this`memberList, this`localNeighbourList
      ensures Tables() == Heard(old(Tables()), ipAddr, Parse(request), now)
      ensures ipAddr in memberList && memberList[ipAddr].stamp == now
      ensures forall h :: h in old(memberList) && h != ipAddr ==>
                            h in memberList && memberList[h].stamp == old(memberList)[h].stamp
      ensures forall h :: h in memberList && h !in old(memberList) ==> memberList[h].stamp == now
      ensures localNeighbourList == if ipAddr in old(memberList) && |old(localNeighbourList)| < 4
                                    then old(localNeighbourList) + [ipAddr] else old(localNeighbourList)
      ensures reply == "pong"
    {
      HeardStamps(Tables(), ipAddr, Parse(request), now);
      if ipAddr in memberList {
        memberList := memberList[ipAddr := Entry(now, false)];
        AddToLocalNeighbourList(ipAddr);
      } else {
        memberList := memberList[ipAddr := Entry(now, false)];
      }
      MergeReports(request, now);
      reply := "pong";
    }

    method MergeReports(request: string, now: int)
      requires WellFormed(request)
      modifies this`memberList
      ensures memberList == Merge(old(memberList), localNeighbourList, Parse(request), now)
    {
      ghost var start := memberList;
      ghost var rs := Parse(request);
      var vs1 := Split(request, ';');
      for i := 0 to |vs1| - 1
        invariant memberList == Merge(start, localNeighbourList, rs[..i], now)
      {
        var temp := Split(vs1[i], ':');
        assert rs[..i + 1][..i] == rs[..i];
        MergeOne(temp[0], temp[1], now);
      }
      assert rs[..|vs1| - 1] == rs;
    }

    method MergeOne(ip: string, flag: string, now: int)
      modifies this`memberList
      ensures memberList == MergeReport(old(memberList), localNeighbourList, Report(ip, flag), now)
    {
      if ip in memberList {
        if memberList[ip].failed && flag == "0" {
          memberList := memberList[ip := memberList[ip].(failed := false)];
        }
        if !memberList[ip].failed && flag == "1" && ip !in localNeighbourList {
          memberList := memberList[ip := memberList[ip].(failed := true)];
        }
      } else {
        memberList := memberList[ip := Entry(now, false)];
      }
    }

    method FailureDetectorScan(now: int)
      modifies this`memberList
      ensures Tables() == Scanned(old(Tables()), now)
      ensures memberList.Keys == old(memberList).Keys
      ensures forall h :: h in memberList ==>
                            var was := old(memberList)[h];
                            memberList[h].stamp == was.stamp
                            && (memberList[h].failed <==>
                                was.failed || (h in localNeighbourList && now - was.stamp >= 2))
    {
      ghost var start := memberList;
      for i := 0 to |localNeighbourList|
        invariant memberList.Keys == start.Keys
        invariant forall h :: h in start ==>
                    memberList[h] == if h in localNeighbourList[..i] && now - start[h].stamp >= TIMEOUT
                                     then start[h].(failed := true) else start[h]
      {
        var h := localNeighbourList[i];
        assert localNeighbourList[..i + 1] == localNeighbourList[..i] + [h];
        if h in memberList {
          var seconds := now - memberList[h].stamp;
          if seconds >= 2 {
            memberList := memberList[h := memberList[h].(failed := true)];
          }
        }
      }
      assert localNeighbourList[..|localNeighbourList|] == localNeighbourList;
    }

    method UpdateHandler(response: string) returns (reply: string)
      modifies this`localNeighbourList
      ensures localNeighbourList == ReadList(response) && reply == "pong"
      ensures forall ns :: Free(ns, ';') && response == Terminated(ns, ';') ==> localNeighbourList == ns
    {
      forall ns | Free(ns, ';') && response == Terminated(ns, ';') ensures ReadList(response) == ns {
        SplitTerminated(ns, ';');
      }
      localNeighbourList := Split(response, ';');
      if localNeighbourList[|localNeighbourList| - 1] == "" {
        localNeighbourList := localNeighbourList[..|localNeighbourList| - 1];
      }
      reply := "pong";
    }

    /** One round of heartbeats: one message with the member list for every entry of the neighbour
        list that is not marked failed, in list order. The flag of a neighbour missing from the map is
        read from the end of the map; `atEnd` is whatever is found there. */
    method HeartbeatRound(atEnd: bool) returns (sent: seq<Heartbeat>)
      ensures sent == Round(localNeighbourList, memberList, atEnd)
      ensures forall b :: b in sent <==>
                            b.dst in localNeighbourList && b.message == Wire(Reports(Flags(memberList)))
                            && if b.dst in memberList then !memberList[b.dst].failed else !atEnd
    {
      sent := [];
      for i := 0 to |localNeighbourList|
        invariant sent == Round(localNeighbourList[..i], memberList, atEnd)
      {
        var temp := localNeighbourList[i];
        assert localNeighbourList[..i + 1][..i] == localNeighbourList[..i];
        var message := MakeMessage(Flags(memberList));
        var failed := if temp in memberList then memberList[temp].failed else atEnd;
        if !failed {
          sent := sent + [Heartbeat(temp, message)];
        }
      }
      assert localNeighbourList[..|localNeighbourList|] == localNeighbourList;
      InRound(localNeighbourList, memberList, atEnd);
    }

    /** The election loop over the keys in map order, from the end down to but not including the
        first; it stops at 0 when every entry it reads is marked failed. */
    method LastLive(ks: seq<string>) returns (it: nat)
      requires ks != [] && forall j :: 0 <= j < |ks| ==> ks[j] in memberList
      ensures it < |ks|
      ensures forall j :: it < j < |ks| ==> memberList[ks[j]].failed
      ensures it != 0 ==> !memberList[ks[it]].failed
    {
      it := |ks| - 1;
      while it != 0
        invariant it < |ks|
        invariant forall j :: it < j < |ks| ==> memberList[ks[j]].failed
      {
        if !memberList[ks[it]].failed {
          break;
        }
        it := it - 1;
      }
    }

    /** One scan of the election thread. */
    method ElectMaster()
      modifies this`master
      ensures Election(memberList, old(master), master)
      ensures (exists k :: k in Unfailed(memberList) && !Least(memberList.Keys, k)) ==>
                master in Unfailed(memberList) && !Least(memberList.Keys, master)
      ensures forall k :: k in Unfailed(memberList) && !Least(memberList.Keys, k) ==>
                            k == master || Before(k, master)
      ensures (forall k :: k in Unfailed(memberList) ==> Least(memberList.Keys, k)) ==> master == old(master)
    {
      forall k { ElectableIff(memberList, k); }
      var ks := Keys(memberList.Keys);
      forall j | 0 <= j < |ks| ensures ks[j] in memberList { assert ks[j] in ks; }
      var it := 0;
      if |ks| > 0 {
        it := LastLive(ks);
      }
      if it != 0 {
        GreatestElectable(memberList, ks, it, master);
        if master != ks[it] {
          master := ks[it];
        }
      } else {
        NoneElectable(memberList, ks, master);
      }
    }
  }

  lemma {:induction false} GreatestElectable(members: map<string, Entry>, ks: seq<string>, it: nat, before: string)
    requires ks == Keys(members.Keys) && 0 < it < |ks|
    requires ks[it] in members && !members[ks[it]].failed
    requires forall j :: it < j < |ks| ==> ks[j] in members && members[ks[j]].failed
    ensures Election(members, before, ks[it])
  {
    assert ks[0] in ks;
    OrderedAt(ks, 0, it);
    assert Electable(members, ks[it]);
    forall k | Electable(members, k) ensures k == ks[it] || Before(k, ks[it]) {
      assert k in ks;
      var j :| 0 <= j < |ks| && ks[j] == k;
      if j < it { OrderedAt(ks, j, it); }
    }
  }

  lemma NoneElectable(members: map<string, Entry>, ks: seq<string>, before: string)
    requires ks == Keys(members.Keys)
    requires forall j :: 0 < j < |ks| ==> ks[j] in members && members[ks[j]].failed
    ensures Election(members, before, before)
  {
    if exists k :: Electable(members, k) {
      var k :| Electable(members, k);
      var x :| x in members && Before(x, k);
      assert k in ks && x in ks;
      OrderedHead(ks, x);
      if ks[0] == k { BeforeTransitive(k, x, k); }
      BeforeIrreflexive(k);
    }
  }
}
