/** The master's put handler: unforced writes of one name are kept a minute apart. */
module WriteConflict {
  import opened Text
  import opened Membership
  import opened Placement

  const WINDOW: int := 60

  datatype Put = Put(forced: bool, name: string, time: int)

  function Refused(stamps: map<string, int>, p: Put): bool
  {
    !p.forced && p.name in stamps && p.time - stamps[p.name] < WINDOW
  }

  /** Only an accepted unforced put moves a stamp. */
  function Stamped(stamps: map<string, int>, p: Put): map<string, int>
  {
    if p.forced || Refused(stamps, p) then stamps else stamps[p.name := p.time]
  }

  /** A request is a number, a separator and a name; number 0 asks for the check. */
  predicate Request(request: string)
  {
    var params := Split(request, ';');
    |params| >= 2 && params[0] != "" && '0' <= params[0][0] <= '9' && params[1] != ""
  }

  function ReadPut(request: string, now: int): Put
    requires Request(request)
  {
    var params := Split(request, ';');
    Put(Atoi(params[0]) != 0, params[1], now)
  }

  /** What the two requests of the clients mean: "0" asks for the check, "1" forces the put. */
  lemma ReadsRequest(name: string, now: int)
    requires name != "" && ';' !in name
    ensures Request("0;" + name) && ReadPut("0;" + name, now) == Put(false, name, now)
    ensures Request("1;" + name) && ReadPut("1;" + name, now) == Put(true, name, now)
  {
    TwoParts("0", name);
    TwoParts("1", name);
    assert "0" + ";" + name == "0;" + name && "1" + ";" + name == "1;" + name;
    assert Atoi("0") == 0 && Atoi("1") == 1;
  }

  /** The request of a client for `name`, with the number "0" or "1" in front. */
  ghost predicate Asks(number: string, request: string, name: string)
  {
    name != "" && ';' !in name && request == number + ";" + name
  }

  lemma AskedPut(request: string, now: int)
    requires Request(request)
    ensures forall name :: Asks("0", request, name) ==> ReadPut(request, now) == Put(false, name, now)
    ensures forall name :: Asks("1", request, name) ==> ReadPut(request, now) == Put(true, name, now)
  {
    forall name | Asks("0", request, name) ensures ReadPut(request, now) == Put(false, name, now) {
      assert request == "0;" + name;
      ReadsRequest(name, now);
    }
    forall name | Asks("1", request, name) ensures ReadPut(request, now) == Put(true, name, now) {
      assert request == "1;" + name;
      ReadsRequest(name, now);
    }
  }

  /** A list of addresses is never mistaken for a refusal. */
  lemma NotConflict(ips: seq<string>)
    requires ips != []
    ensures Terminated(ips, ';') != "CONFLICT"
  {
    var first := ips[0] + [';'];
    assert Terminated(ips, ';')[|ips[0]|] == first[|ips[0]|] == ';';
  }

  method ListReply(ips: seq<string>) returns (ip: string)
    ensures ip == Terminated(ips, ';')
  {
    ip := "";
    for i := 0 to |ips|
      invariant ip + Terminated(ips[i..], ';') == Terminated(ips, ';')
    {
      assert ips[i..][1..] == ips[i + 1..];
      assert ip + Terminated(ips[i..], ';') == (ip + (ips[i] + ";")) + Terminated(ips[i + 1..], ';');
      ip := ip + (ips[i] + ";");
    }
  }

  class PutHandler {
    var safetyCheck: map<string, int>

    method PutfileHandler(request: string, members: map<string, Entry>, now: int, end: End) returns (ip: string)
      requires Request(request)
      requires !Refused(safetyCheck, ReadPut(request, now)) ==>
                 DottedKeys(members) && members != map[] && |Live(members)| != 1
      modifies this
      ensures var p := ReadPut(request, now);
              && safetyCheck == Stamped(old(safetyCheck), p)
              && ip == if Refused(old(safetyCheck), p) then "CONFLICT"
                else Terminated(Chosen(members, p.name, end), ';')
      ensures forall name :: Asks("1", request, name) ==> safetyCheck == old(safetyCheck) && ip != "CONFLICT"
      ensures forall name :: Asks("0", request, name) ==>
                               if name in old(safetyCheck) && now - old(safetyCheck)[name] < 60
                               then safetyCheck == old(safetyCheck) && ip == "CONFLICT"
                               else safetyCheck == old(safetyCheck)[name := now] && ip != "CONFLICT"
    {
      AskedPut(request, now);
      var params := Split(request, ';');
      var force := Atoi(params[0]);
      if force == 0 {
        if params[1] in safetyCheck {
          var seconds := now - safetyCheck[params[1]];
          if seconds < 60 {
            return "CONFLICT";
          }
        }
        safetyCheck := safetyCheck[params[1] := now];
      }
      var ips := WhereTo(members, params[1], end);
      ip := ListReply(ips);
      NotConflict(ips);
    }
  }

  // ----- whole histories

  ghost function StampsAfter(ps: seq<Put>): map<string, int>
    decreases |ps|
  {
    if ps == [] then map[] else Stamped(StampsAfter(ps[..|ps| - 1]), ps[|ps| - 1])
  }

  /** The `j`-th put of the history got through the check and was stamped. */
  ghost predicate Counted(ps: seq<Put>, j: nat)
    requires j < |ps|
  {
    !ps[j].forced && !Refused(StampsAfter(ps[..j]), ps[j])
  }

  ghost predicate ClockRuns(ps: seq<Put>)
  {
    forall i, j :: 0 <= i <= j < |ps| ==> ps[i].time <= ps[j].time
  }

  /** `i` is the last counted put of `name`. */
  ghost predicate LastCounted(ps: seq<Put>, name: string, i: nat)
  {
    && i < |ps| && Counted(ps, i) && ps[i].name == name
    && forall j: nat :: i < j < |ps| && ps[j].name == name ==> !Counted(ps, j)
  }

  ghost predicate NeverCounted(ps: seq<Put>, name: string)
  {
    forall j: nat :: j < |ps| && ps[j].name == name ==> !Counted(ps, j)
  }

  lemma CountedInPrefix(ps: seq<Put>, k: nat, j: nat)
    requires j < k <= |ps|
    ensures Counted(ps[..k], j) == Counted(ps, j)
  {
    assert ps[..k][..j] == ps[..j];
  }

  /** The last counted put stays the last when the next one does not count for that name. */
  lemma LastStays(ps: seq<Put>, name: string, i: nat)
    requires ps != [] && LastCounted(ps[..|ps| - 1], name, i)
    requires !Counted(ps, |ps| - 1) || ps[|ps| - 1].name != name
    ensures LastCounted(ps, name, i)
  {
    var last := |ps| - 1;
    forall j: nat | j < last ensures Counted(ps, j) == Counted(ps[..last], j) { CountedInPrefix(ps, last, j); }
  }

  lemma NeverStays(ps: seq<Put>, name: string)
    requires ps != [] && NeverCounted(ps[..|ps| - 1], name)
    requires !Counted(ps, |ps| - 1) || ps[|ps| - 1].name != name
    ensures NeverCounted(ps, name)
  {
    var last := |ps| - 1;
    forall j: nat | j < last ensures Counted(ps, j) == Counted(ps[..last], j) { CountedInPrefix(ps, last, j); }
  }

  /** A stamp is the time of the last counted put of its name: forced and refused puts left no
      trace. */
  lemma {:induction false} StampIsLast(ps: seq<Put>, name: string)
    ensures name in StampsAfter(ps) ==>
              exists i: nat :: LastCounted(ps, name, i) && ps[i].time == StampsAfter(ps)[name]
    ensures name !in StampsAfter(ps) ==> NeverCounted(ps, name)
    decreases |ps|
  {
    if ps != [] {
      var last := |ps| - 1;
      var before := ps[..last];
      StampIsLast(before, name);
      if Counted(ps, last) && ps[last].name == name {
        assert LastCounted(ps, name, last);
      } else if name in StampsAfter(ps) {
        var i: nat :| LastCounted(before, name, i) && before[i].time == StampsAfter(before)[name];
        LastStays(ps, name, i);
      } else {
        NeverStays(ps, name);
      }
    }
  }

  /** An unforced put is refused exactly when an unforced put of the same name was accepted less
      than a minute earlier. */
  lemma RefusedIff(ps: seq<Put>, j: nat)
    requires ClockRuns(ps) && j < |ps| && !ps[j].forced
    ensures !Counted(ps, j) <==>
              exists i: nat :: i < j && Counted(ps, i) && ps[i].name == ps[j].name && ps[j].time - ps[i].time < 60
  {
    var before := ps[..j];
    var name := ps[j].name;
    StampIsLast(before, name);
    forall i: nat | i < j ensures Counted(before, i) == Counted(ps, i) { CountedInPrefix(ps, j, i); }
    if name in StampsAfter(before) {
      var i: nat :| LastCounted(before, name, i) && before[i].time == StampsAfter(before)[name];
      assert Counted(ps, i);
      if k: nat :| k < j && Counted(ps, k) && ps[k].name == name && ps[j].time - ps[k].time < WINDOW {
        assert Counted(before, k) && before[k].name == name;
        assert ps[k].time <= ps[i].time;
      }
    }
  }

  /** Over any history, two accepted unforced puts of one name are at least a minute apart. */
  lemma Spacing(ps: seq<Put>, i: nat, j: nat)
    requires ClockRuns(ps) && i < j < |ps|
    requires Counted(ps, i) && Counted(ps, j) && ps[i].name == ps[j].name
    ensures ps[j].time - ps[i].time >= 60
  {
    RefusedIff(ps, j);
  }
}
