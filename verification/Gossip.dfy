/** The group as a whole: every node's view, the heartbeats ever sent, one clock, and a record of
    what the failure detectors saw. Sent messages are kept for ever and may be delivered any
    number of times in any order, or never, so runs cover loss, duplication and reordering. */
module Gossip {
  import opened Text
  import opened Datagram
  import opened Membership

  datatype Message = Message(src: string, dst: string, reports: seq<Report>)

  /** What the record keeps: starts, heartbeats handled, nodes first heard of in a message, and
      detectors firing with the list they scanned. */
  datatype Event =
    | Started(at: string, time: int)
    | Beat(at: string, from: string, time: int)
    | Met(at: string, who: string, time: int)
    | Fired(at: string, on: string, neighbours: seq<string>, time: int)

  /** The introducer runs no failure detector, is sent no neighbour list, and sends heartbeats that
      carry no member list. */
  datatype State = State(introducer: string, views: map<string, View>, sent: set<Message>, clock: int, log: seq<Event>)

  function Initial(introducer: string): State { State(introducer, map[], {}, 0, []) }

  datatype Step =
    | Tick(d: nat)
    | Start(n: string, neighbours: seq<string>)
    | Relist(n: string, neighbours: seq<string>)
    | SendList(n: string, dst: string)
    | SendEmpty(n: string, dst: string)
    | Deliver(m: Message)
    | Scan(n: string)

  /** A member list that survives as text and fits a datagram: a longer one is written past the
      sender's buffer. */
  ghost predicate Sendable(members: map<string, Entry>)
  {
    (forall k :: k in members ==> Clean(k)) && |Wire(Reports(Flags(members)))| < SIZE
  }

  ghost predicate Enabled(s: State, step: Step)
  {
    match step
    case Tick(d) => true
    case Start(n, neighbours) => n == s.introducer ==> neighbours == []
    case Relist(n, neighbours) => n in s.views && n != s.introducer
    case SendList(n, dst) =>
      n in s.views && n != s.introducer && Sendable(s.views[n].members) && dst in s.views[n].neighbours
      && !(dst in s.views[n].members && s.views[n].members[dst].failed)
    case SendEmpty(n, dst) => n == s.introducer
    case Deliver(m) => m in s.sent && m.dst in s.views
    case Scan(n) => n in s.views && n != s.introducer
  }

  /** The detector events of one scan, in list order. */
  ghost function Firings(v: View, n: string, listed: seq<string>, now: int): seq<Event>
    decreases |listed|
  {
    if listed == [] then []
    else
      var last := |listed| - 1;
      Firings(v, n, listed[..last], now)
      + if Silent(v, listed[last], now) then [Fired(n, listed[last], v.neighbours, now)] else []
  }

  /** The nodes that `n` gets to know with a message, in key order. */
  ghost function Meetings(n: string, v: View, w: View, now: int): (ms: seq<Event>)
    ensures forall i :: 0 <= i < |ms| ==> ms[i].Met? && ms[i].at == n && ms[i].time == now
  {
    var ks := Keys(w.members.Keys - v.members.Keys);
    seq(|ks|, i requires 0 <= i < |ks| => Met(n, ks[i], now))
  }

  ghost function Apply(s: State, step: Step): State
    requires Enabled(s, step)
  {
    match step
    case Tick(d) => s.(clock := s.clock + d)
    case Start(n, neighbours) =>
      s.(views := s.views[n := View(Enrolled(map[], neighbours, s.clock), neighbours)],
         log := s.log + [Started(n, s.clock)])
    case Relist(n, neighbours) => s.(views := s.views[n := s.views[n].(neighbours := neighbours)])
    case SendList(n, dst) =>
      s.(sent := s.sent + {Message(n, dst, Reports(Flags(s.views[n].members)))})
    case SendEmpty(n, dst) => s.(sent := s.sent + {Message(n, dst, [])})
    case Deliver(m) =>
      var w := Heard(s.views[m.dst], m.src, m.reports, s.clock);
      s.(views := s.views[m.dst := w],
         log := s.log + [Beat(m.dst, m.src, s.clock)] + Meetings(m.dst, s.views[m.dst], w, s.clock))
    case Scan(n) =>
      s.(views := s.views[n := Scanned(s.views[n], s.clock)],
         log := s.log + Firings(s.views[n], n, s.views[n].neighbours, s.clock))
  }

  /** `s` is reached from `from` by the run `steps`. */
  ghost predicate Run(from: State, steps: seq<Step>, s: State)
    decreases |steps|
  {
    if steps == [] then s == from
    else
      var last := |steps| - 1;
      exists before :: Run(from, steps[..last], before) && Enabled(before, steps[last])
                       && s == Apply(before, steps[last])
  }

  // ----- accuracy

  /** Before entry `i` of the record, node `n` handled no heartbeat from `h` that was younger than two
      seconds at time `now`. */
  ghost predicate Quiet(log: seq<Event>, i: nat, n: string, h: string, now: int)
    requires i <= |log|
  {
    forall j :: 0 <= j < i && log[j].Beat? && log[j].at == n && log[j].from == h ==> now - log[j].time >= 2
  }

  /** Entry `i`: a node's own detector fired on its neighbour `h` after two quiet seconds. */
  ghost predicate Witness(log: seq<Event>, i: nat, h: string)
  {
    && i < |log| && log[i].Fired? && log[i].on == h && h in log[i].neighbours
    && Quiet(log, i, log[i].at, h, log[i].time)
  }

  ghost predicate Justified(log: seq<Event>, h: string)
  {
    exists i :: Witness(log, i, h)
  }

  ghost predicate FlagsJustified(s: State)
  {
    forall n, h :: n in s.views && h in s.views[n].members && s.views[n].members[h].failed ==> Justified(s.log, h)
  }

  ghost predicate ReportsJustified(s: State)
  {
    forall m, r :: m in s.sent && r in m.reports && r.flag == "1" ==> Justified(s.log, r.ip)
  }

  /** What gives `n` a reason to think `h` alive: a heartbeat, the start of `n`, or first hearing of
      `h`. */
  ghost predicate Sign(e: Event, n: string, h: string)
  {
    e == Beat(n, h, e.time) || e == Started(n, e.time) || e == Met(n, h, e.time)
  }

  /** The stamp of an entry is the time of the latest such event: none is later, */
  ghost predicate Stamped(s: State)
  {
    forall n, h, j | n in s.views && h in s.views[n].members && 0 <= j < |s.log| && Sign(s.log[j], n, h)
      :: s.log[j].time <= s.views[n].members[h].stamp
  }

  ghost predicate SignAt(log: seq<Event>, n: string, h: string, time: int)
  {
    exists j :: 0 <= j < |log| && Sign(log[j], n, h) && log[j].time == time
  }

  /** and one is as late. */
  ghost predicate StampsSeen(s: State)
  {
    forall n, h :: n in s.views && h in s.views[n].members ==> SignAt(s.log, n, h, s.views[n].members[h].stamp)
  }

  ghost predicate PastLog(s: State)
  {
    forall j :: 0 <= j < |s.log| ==> s.log[j].time <= s.clock
  }

  ghost predicate Inv(s: State)
  {
    FlagsJustified(s) && ReportsJustified(s) && Stamped(s) && StampsSeen(s) && PastLog(s)
  }

  lemma JustifiedGrows(log: seq<Event>, more: seq<Event>, h: string)
    requires Justified(log, h)
    ensures Justified(log + more, h)
  {
    var i :| Witness(log, i, h);
    assert Witness(log + more, i, h);
  }

  lemma {:induction false} FiringsShape(v: View, n: string, listed: seq<string>, now: int)
    ensures forall i :: 0 <= i < |Firings(v, n, listed, now)| ==>
                          Firings(v, n, listed, now)[i].Fired? && Firings(v, n, listed, now)[i].time == now
    ensures forall h :: h in listed && Silent(v, h, now) ==>
                          Fired(n, h, v.neighbours, now) in Firings(v, n, listed, now)
    decreases |listed|
  {
    if listed != [] {
      FiringsShape(v, n, listed[..|listed| - 1], now);
      assert listed == listed[..|listed| - 1] + [listed[|listed| - 1]];
    }
  }

  /** A firing is always preceded by two quiet seconds at the node that fires. */
  lemma FiringWitnessed(s: State, n: string, h: string)
    requires Inv(s) && n in s.views && Silent(s.views[n], h, s.clock)
    ensures Justified(s.log + Firings(s.views[n], n, s.views[n].neighbours, s.clock), h)
  {
    var v := s.views[n];
    var fired := Firings(v, n, v.neighbours, s.clock);
    FiringsShape(v, n, v.neighbours, s.clock);
    var k :| 0 <= k < |fired| && fired[k] == Fired(n, h, v.neighbours, s.clock);
    var log := s.log + fired;
    var i := |s.log| + k;
    assert log[i] == fired[k];
    forall j | 0 <= j < i && log[j].Beat? && log[j].at == n && log[j].from == h
      ensures s.clock - log[j].time >= TIMEOUT
    {
      assert log[j] == s.log[j] && s.log[j] == Beat(n, h, s.log[j].time);
    }
    assert Witness(log, i, h);
  }

  /** What a step adds to the record. */
  ghost function Events(s: State, step: Step): seq<Event>
    requires Enabled(s, step)
  {
    match step
    case Start(n, neighbours) => [Started(n, s.clock)]
    case Deliver(m) =>
      [Beat(m.dst, m.src, s.clock)]
      + Meetings(m.dst, s.views[m.dst], Heard(s.views[m.dst], m.src, m.reports, s.clock), s.clock)
    case Scan(n) => Firings(s.views[n], n, s.views[n].neighbours, s.clock)
    case _ => []
  }

  lemma Records(s: State, step: Step)
    requires Enabled(s, step)
    ensures Apply(s, step).log == s.log + Events(s, step)
    ensures forall i :: 0 <= i < |Events(s, step)| ==> Events(s, step)[i].time == s.clock
  {
    if step.Scan? { FiringsShape(s.views[step.n], step.n, s.views[step.n].neighbours, s.clock); }
  }

  lemma PastKept(s: State, step: Step)
    requires PastLog(s) && Enabled(s, step)
    ensures PastLog(Apply(s, step))
  {
    Records(s, step);
    var t := Apply(s, step);
    forall j | 0 <= j < |t.log| ensures t.log[j].time <= t.clock {
      assert t.log[j] == if j < |s.log| then s.log[j] else Events(s, step)[j - |s.log|];
    }
  }

  lemma FlagKept(s: State, step: Step, n: string, h: string)
    requires Inv(s) && Enabled(s, step)
    requires n in Apply(s, step).views && h in Apply(s, step).views[n].members
    requires Apply(s, step).views[n].members[h].failed
    ensures Justified(Apply(s, step).log, h)
  {
    Records(s, step);
    if step.Scan? && n == step.n && Silent(s.views[n], h, s.clock) {
      FiringWitnessed(s, n, h);
    } else {
      if step.Deliver? && n == step.m.dst { HeardRaises(s.views[n], step.m.src, step.m.reports, s.clock, h); }
      assert Justified(s.log, h);
      JustifiedGrows(s.log, Events(s, step), h);
    }
  }

  lemma ReportKept(s: State, step: Step, m: Message, r: Report)
    requires Inv(s) && Enabled(s, step) && m in Apply(s, step).sent && r in m.reports && r.flag == "1"
    ensures Justified(Apply(s, step).log, r.ip)
  {
    Records(s, step);
    if m !in s.sent {
      var members := s.views[step.n].members;
      var i :| 0 <= i < |m.reports| && m.reports[i] == r;
      ReportsAt(Flags(members), i);
    }
    JustifiedGrows(s.log, Events(s, step), r.ip);
  }

  // ----- stamps

  lemma SignGrows(log: seq<Event>, more: seq<Event>, n: string, h: string, time: int)
    requires SignAt(log, n, h, time)
    ensures SignAt(log + more, n, h, time)
  {
    var j :| 0 <= j < |log| && Sign(log[j], n, h) && log[j].time == time;
    assert (log + more)[j] == log[j];
  }

  lemma SignAdded(log: seq<Event>, more: seq<Event>, i: nat, n: string, h: string)
    requires i < |more| && Sign(more[i], n, h)
    ensures SignAt(log + more, n, h, more[i].time)
  {
    assert (log + more)[|log| + i] == more[i];
  }

  /** The step stamps what `n` knows of `h`. */
  ghost predicate Restamped(s: State, step: Step, n: string, h: string)
  {
    || (step.Start? && step.n == n) || (step.Deliver? && step.m.dst == n && step.m.src == h)
    || n !in s.views || h !in s.views[n].members
  }

  lemma DeliverySigns(s: State, m: Message, n: string, h: string, i: nat)
    requires Enabled(s, Deliver(m)) && i < |Events(s, Deliver(m))| && Sign(Events(s, Deliver(m))[i], n, h)
    ensures m.dst == n
    ensures m.src == h
            || (h !in s.views[n].members && h in Heard(s.views[n], m.src, m.reports, s.clock).members)
  {
    if i > 0 {
      var v := s.views[m.dst];
      var ks := Keys(Heard(v, m.src, m.reports, s.clock).members.Keys - v.members.Keys);
      assert Events(s, Deliver(m))[i] == Met(m.dst, ks[i - 1], s.clock) && ks[i - 1] in ks;
    }
  }

  lemma FiringsAreNoSigns(s: State, n: string, m: string, h: string, i: nat)
    requires Enabled(s, Scan(n)) && i < |Events(s, Scan(n))|
    ensures !Sign(Events(s, Scan(n))[i], m, h)
  {
    FiringsShape(s.views[n], n, s.views[n].neighbours, s.clock);
  }

  /** The signs that a step adds concern only entries that it stamps. */
  lemma SignsOfOthers(s: State, step: Step, n: string, h: string, i: nat)
    requires Enabled(s, step) && i < |Events(s, step)| && Sign(Events(s, step)[i], n, h)
    ensures Restamped(s, step, n, h)
  {
    match step
    case Scan(m) => FiringsAreNoSigns(s, m, n, h, i);
    case Deliver(m) => DeliverySigns(s, m, n, h, i);
    case _ =>
  }

  /** An entry that a step does not touch. */
  lemma StampStays(s: State, step: Step, n: string, h: string)
    requires Enabled(s, step) && n in s.views && h in s.views[n].members
    requires !(step.Start? && step.n == n) && !(step.Deliver? && step.m.dst == n && step.m.src == h)
    ensures n in Apply(s, step).views && h in Apply(s, step).views[n].members
    ensures Apply(s, step).views[n].members[h].stamp == s.views[n].members[h].stamp
  {
    if step.Deliver? && step.m.dst == n { HeardStamps(s.views[n], step.m.src, step.m.reports, s.clock); }
  }

  /** An entry that a step stamps. */
  lemma StampNew(s: State, step: Step, n: string, h: string)
    requires Enabled(s, step) && n in Apply(s, step).views && h in Apply(s, step).views[n].members
    requires Restamped(s, step, n, h)
    ensures Apply(s, step).views[n].members[h].stamp == s.clock
    ensures SignAt(Apply(s, step).log, n, h, s.clock)
  {
    Records(s, step);
    if step.Start? {
      SignAdded(s.log, Events(s, step), 0, n, h);
    } else {
      HeardStamps(s.views[n], step.m.src, step.m.reports, s.clock);
      DeliveryHasSign(s, step.m, h);
    }
  }

  lemma DeliveryHasSign(s: State, m: Message, h: string)
    requires Enabled(s, Deliver(m)) && h in Heard(s.views[m.dst], m.src, m.reports, s.clock).members
    requires h == m.src || h !in s.views[m.dst].members
    ensures SignAt(s.log + Events(s, Deliver(m)), m.dst, h, s.clock)
  {
    var more := Events(s, Deliver(m));
    if h == m.src {
      SignAdded(s.log, more, 0, m.dst, h);
    } else {
      var v := s.views[m.dst];
      var ks := Keys(Heard(v, m.src, m.reports, s.clock).members.Keys - v.members.Keys);
      assert h in ks;
      var i :| 0 <= i < |ks| && ks[i] == h;
      assert more[i + 1] == Met(m.dst, h, s.clock);
      SignAdded(s.log, more, i + 1, m.dst, h);
    }
  }

  lemma StampSeen(s: State, step: Step, n: string, h: string)
    requires Inv(s) && Enabled(s, step) && n in Apply(s, step).views && h in Apply(s, step).views[n].members
    ensures SignAt(Apply(s, step).log, n, h, Apply(s, step).views[n].members[h].stamp)
  {
    if Restamped(s, step, n, h) {
      StampNew(s, step, n, h);
    } else {
      StampStays(s, step, n, h);
      Records(s, step);
      SignGrows(s.log, Events(s, step), n, h, s.views[n].members[h].stamp);
    }
  }

  lemma LogAt(s: State, step: Step, j: nat)
    requires Enabled(s, step) && j < |Apply(s, step).log|
    ensures j < |s.log| ==> Apply(s, step).log[j] == s.log[j]
    ensures j >= |s.log| ==>
              j - |s.log| < |Events(s, step)| && Apply(s, step).log[j] == Events(s, step)[j - |s.log|]
              && Apply(s, step).log[j].time == s.clock
  {
    Records(s, step);
  }

  lemma StampLatest(s: State, step: Step, n: string, h: string, j: nat)
    requires Stamped(s) && PastLog(s) && Enabled(s, step)
    requires n in Apply(s, step).views && h in Apply(s, step).views[n].members
    requires j < |Apply(s, step).log| && Sign(Apply(s, step).log[j], n, h)
    ensures Apply(s, step).log[j].time <= Apply(s, step).views[n].members[h].stamp
  {
    LogAt(s, step, j);
    if Restamped(s, step, n, h) {
      StampNew(s, step, n, h);
    } else {
      if j >= |s.log| { SignsOfOthers(s, step, n, h, j - |s.log|); }
      StampStays(s, step, n, h);
    }
  }

  lemma StepKeepsInv(s: State, step: Step)
    requires Inv(s) && Enabled(s, step)
    ensures Inv(Apply(s, step))
  {
    var t := Apply(s, step);
    PastKept(s, step);
    forall n, h | n in t.views && h in t.views[n].members && t.views[n].members[h].failed
      ensures Justified(t.log, h)
    {
      FlagKept(s, step, n, h);
    }
    forall m, r | m in t.sent && r in m.reports && r.flag == "1" ensures Justified(t.log, r.ip) {
      ReportKept(s, step, m, r);
    }
    forall n, h | n in t.views && h in t.views[n].members
      ensures SignAt(t.log, n, h, t.views[n].members[h].stamp)
    {
      StampSeen(s, step, n, h);
    }
    forall n, h, j | n in t.views && h in t.views[n].members && 0 <= j < |t.log| && Sign(t.log[j], n, h)
      ensures t.log[j].time <= t.views[n].members[h].stamp
    {
      StampLatest(s, step, n, h, j);
    }
  }

  /** In every run, a node anywhere that holds `h` failed, and a message anywhere that says so, go
      back to a detector that fired on its own neighbour `h` after at least two seconds without a
      heartbeat from it. Gossip alone never creates a failure. */
  lemma {:induction false} Accuracy(introducer: string, steps: seq<Step>, s: State)
    requires Run(Initial(introducer), steps, s)
    ensures FlagsJustified(s) && ReportsJustified(s)
    ensures Stamped(s) && StampsSeen(s) && PastLog(s)
    decreases |steps|
  {
    if steps != [] {
      var last := |steps| - 1;
      var before :| Run(Initial(introducer), steps[..last], before) && Enabled(before, steps[last])
                    && s == Apply(before, steps[last]);
      Accuracy(introducer, steps[..last], before);
      StepKeepsInv(before, steps[last]);
    }
  }

  // ----- detection

  /** In the record `n` has had no sign of life from `h` for two seconds. */
  ghost predicate NoSign(s: State, n: string, h: string)
  {
    forall j :: 0 <= j < |s.log| && Sign(s.log[j], n, h) ==> s.clock - s.log[j].time >= 2
  }

  /** In every run, a scan leaves exactly those marked that were marked already, and the known listed
      neighbours of which the node has had no sign of life for two seconds: no heartbeat from them, and
      neither started nor first heard of them since. */
  lemma {:induction false} DetectedIff(introducer: string, steps: seq<Step>, s: State, n: string, h: string)
    requires Run(Initial(introducer), steps, s) && Enabled(s, Scan(n))
    ensures Holds(Apply(s, Scan(n)), n, h) <==>
              || Holds(s, n, h)
              || (h in s.views[n].neighbours && h in s.views[n].members && NoSign(s, n, h))
  {
    Accuracy(introducer, steps, s);
    if h in s.views[n].members {
      var stamp := s.views[n].members[h].stamp;
      assert SignAt(s.log, n, h, stamp);
      assert NoSign(s, n, h) <==> s.clock - stamp >= 2;
    }
  }

  /** No step of the run gives `n` a heartbeat of `h`, nor starts `n` again. */
  ghost predicate Unheard(steps: seq<Step>, n: string, h: string)
  {
    forall i :: 0 <= i < |steps| ==>
                  !(steps[i].Start? && steps[i].n == n)
                  && !(steps[i].Deliver? && steps[i].m.dst == n && steps[i].m.src == h)
  }

  /** `n` knows `h`, and no sign of `h` at `n` has been recorded since the first `k` entries. */
  ghost predicate NoSignSince(s: State, k: nat, n: string, h: string)
  {
    && n in s.views && h in s.views[n].members && k <= |s.log|
    && forall j :: k <= j < |s.log| ==> !Sign(s.log[j], n, h)
  }

  lemma NoSignStep(s: State, step: Step, k: nat, n: string, h: string)
    requires NoSignSince(s, k, n, h) && Enabled(s, step)
    requires !(step.Start? && step.n == n) && !(step.Deliver? && step.m.dst == n && step.m.src == h)
    ensures NoSignSince(Apply(s, step), k, n, h)
  {
    var t := Apply(s, step);
    Records(s, step);
    StampStays(s, step, n, h);
    forall j | k <= j < |t.log| ensures !Sign(t.log[j], n, h) {
      LogAt(s, step, j);
      if j >= |s.log| && Sign(t.log[j], n, h) { SignsOfOthers(s, step, n, h, j - |s.log|); }
    }
  }

  lemma {:induction false} NoSignRun(s: State, steps: seq<Step>, t: State, n: string, h: string)
    requires n in s.views && h in s.views[n].members && Run(s, steps, t) && Unheard(steps, n, h)
    ensures NoSignSince(t, |s.log|, n, h) && forall j :: 0 <= j < |s.log| ==> t.log[j] == s.log[j]
    decreases |steps|
  {
    if steps != [] {
      var init, x := steps[..|steps| - 1], steps[|steps| - 1];
      var before :| Run(s, init, before) && Enabled(before, x) && t == Apply(before, x);
      NoSignRun(s, init, before, n, h);
      NoSignStep(before, x, |s.log|, n, h);
      Records(before, x);
    }
  }

  /** A neighbour that falls silent is found out: once two seconds have passed without a heartbeat from
      it, whatever else has happened, the next scan marks it. */
  lemma {:induction false} SilenceIsDetected(introducer: string, first: seq<Step>, s: State, steps: seq<Step>,
          t: State, n: string, h: string)
    requires Run(Initial(introducer), first, s) && n in s.views && h in s.views[n].members
    requires Run(s, steps, t) && Unheard(steps, n, h) && t.clock - s.clock >= 2
    requires Enabled(t, Scan(n)) && h in t.views[n].neighbours
    ensures Holds(Apply(t, Scan(n)), n, h)
  {
    Accuracy(introducer, first, s);
    NoSignRun(s, steps, t, n, h);
    RunJoins(Initial(introducer), first, s, steps, t);
    assert NoSign(t, n, h);
    DetectedIff(introducer, first + steps, t, n, h);
  }

  // ----- how long a verdict stands

  /** The steps that can clear `n`'s verdict on `h`: a restart of `n`, a heartbeat from `h`, or a
      message that reports `h` alive. */
  ghost predicate Clears(step: Step, n: string, h: string)
  {
    (step.Start? && step.n == n)
    || (step.Deliver? && step.m.dst == n && (step.m.src == h || Report(h, "0") in step.m.reports))
  }

  ghost predicate Holds(s: State, n: string, h: string)
  {
    n in s.views && h in s.views[n].members && s.views[n].members[h].failed
  }

  lemma StepKeepsVerdict(s: State, step: Step, n: string, h: string)
    requires Holds(s, n, h) && Enabled(s, step) && !Clears(step, n, h)
    ensures Holds(Apply(s, step), n, h)
  {
    if step.Deliver? && step.m.dst == n {
      var v := s.views[n];
      var m := step.m;
      var w := Heard(v, m.src, m.reports, s.clock);
      MergeEffect(v.members[m.src := Entry(s.clock, false)], w.neighbours, m.reports, s.clock, h);
    }
  }

  /** A watched node that has been silent for the timeout is marked by the next scan, and over any
      run the mark stays until one of the clearing steps. */
  lemma {:induction false} VerdictStands(s: State, steps: seq<Step>, t: State, n: string, h: string)
    requires Enabled(s, Scan(n)) && Silent(s.views[n], h, s.clock)
    requires Run(Apply(s, Scan(n)), steps, t)
    requires forall i :: 0 <= i < |steps| ==> !Clears(steps[i], n, h)
    ensures Holds(t, n, h)
    decreases |steps|
  {
    if steps != [] {
      var last := |steps| - 1;
      var before :| Run(Apply(s, Scan(n)), steps[..last], before) && Enabled(before, steps[last])
                    && t == Apply(before, steps[last]);
      VerdictStands(s, steps[..last], before, n, h);
      StepKeepsVerdict(before, steps[last], n, h);
    }
  }

  /** One step raises a flag only by the node's own detector, or by a report about a node outside
      its neighbour list. */
  lemma RaisedBy(s: State, step: Step, n: string, h: string)
    requires Enabled(s, step) && !Holds(s, n, h) && Holds(Apply(s, step), n, h)
    ensures || (step == Scan(n) && Silent(s.views[n], h, s.clock))
            || (step.Deliver? && step.m.dst == n && Report(h, "1") in step.m.reports
                && h !in Apply(s, step).views[n].neighbours)
  {
    if step.Deliver? && step.m.dst == n {
      HeardRaises(s.views[n], step.m.src, step.m.reports, s.clock, h);
    }
  }

  // ----- how a verdict spreads

  /** `n` knows its neighbour `dst` and does not hold it failed. */
  ghost predicate Sends(s: State, n: string, dst: string)
    requires n in s.views
  {
    dst in s.views[n].neighbours && dst in s.views[n].members && !s.views[n].members[dst].failed
  }

  /** Members whose list fits a datagram, and then so does every list of some of them. */
  ghost predicate Fits(known: set<string>)
  {
    (forall k :: k in known ==> Clean(k)) && Width(known) < SIZE
  }

  lemma FitsSendable(members: map<string, Entry>, known: set<string>)
    requires Fits(known) && members.Keys <= known
    ensures Sendable(members)
  {
    assert Flags(members).Keys == members.Keys;
    ListedWidth(Flags(members));
    WidthGrows(members.Keys, known);
  }

  /** The nodes of `q` know members only among those of `known`, whose list fits a datagram. */
  ghost predicate Within(s: State, q: seq<string>, known: set<string>)
  {
    Fits(known) && forall x :: x in q ==> x in known && (x in s.views ==> s.views[x].members.Keys <= known)
  }

  /** A chain of nodes along which a verdict on `h` can travel: each sends its member list to the
      next, which it knows and does not hold failed, and none after the first watches `h` itself. The
      introducer sends no member list and can only come last. */
  ghost predicate Chain(s: State, q: seq<string>, h: string)
  {
    && q != [] && h !in q
    && (forall i, j :: 0 <= i < j < |q| ==> q[i] != q[j])
    && (forall i :: 0 <= i < |q| ==> q[i] in s.views && h in s.views[q[i]].members)
    && (forall i :: 0 <= i < |q| - 1 ==> q[i] != s.introducer && Sends(s, q[i], q[i + 1]))
    && (forall i :: 1 <= i < |q| ==> h !in s.views[q[i]].neighbours)
  }

  lemma ReportOf(members: map<string, Entry>, h: string) returns (i: nat)
    requires h in members
    ensures var rs := Reports(Flags(members));
            i < |rs| && rs[i] == Report(h, BoolToString(members[h].failed))
            && forall j :: 0 <= j < |rs| && j != i ==> rs[j].ip != h
  {
    var failed := Flags(members);
    var ks := Keys(failed.Keys);
    assert h in ks;
    i :| 0 <= i < |ks| && ks[i] == h;
    forall j | 0 <= j < |ks| && j != i ensures Reports(failed)[j].ip != h {
      OrderedDistinct(ks, if i < j then i else j, if i < j then j else i);
    }
  }

  /** One hop: the next node of the chain takes the verdict over, and the rest of the chain stays
      passable. */
  lemma Hop(s: State, q: seq<string>, h: string, known: set<string>) returns (t: State)
    requires Chain(s, q, h) && Within(s, q, known) && |q| >= 2 && Holds(s, q[0], h)
    ensures exists steps :: Run(s, steps, t)
    ensures Chain(t, q[1..], h) && Within(t, q[1..], known) && Holds(t, q[1], h)
  {
    var members := s.views[q[0]].members;
    var rs := Reports(Flags(members));
    var v := s.views[q[1]];
    t := Delivered(s, q, h, known);
    HopView(v, q[0], rs, s.clock, members, h);
    HopKnown(v, q[0], rs, s.clock, members, known);
    if |q| > 2 { HopOpen(s, q, h, rs); }
    var w := Heard(v, q[0], rs, s.clock);
    RestOfChain(s, q, h, t, w);
    RestWithin(s, q, known, t, w);
  }

  lemma SentAndHandled(s: State, n: string, dst: string)
    requires Enabled(s, SendList(n, dst)) && dst in s.views
    ensures var u := Apply(s, SendList(n, dst));
            var m := Message(n, dst, Reports(Flags(s.views[n].members)));
            && Enabled(u, Deliver(m)) && Apply(u, Deliver(m)).introducer == s.introducer
            && Apply(u, Deliver(m)).views == s.views[dst := Heard(s.views[dst], n, m.reports, s.clock)]
  {
  }

  /** The first node of the chain sends its member list and the second handles it. */
  lemma Delivered(s: State, q: seq<string>, h: string, known: set<string>) returns (t: State)
    requires Chain(s, q, h) && Within(s, q, known) && |q| >= 2
    ensures exists steps :: Run(s, steps, t)
    ensures var w := Heard(s.views[q[1]], q[0], Reports(Flags(s.views[q[0]].members)), s.clock);
            t.views == s.views[q[1] := w] && t.introducer == s.introducer
  {
    var n, dst := q[0], q[1];
    assert Sends(s, n, dst);
    assert n in q && dst in q;
    FitsSendable(s.views[n].members, known);
    SentAndHandled(s, n, dst);
    var deliver := Deliver(Message(n, dst, Reports(Flags(s.views[n].members))));
    t := Apply(Apply(s, SendList(n, dst)), deliver);
    TwoSteps(s, SendList(n, dst), deliver, t);
  }

  lemma TwoSteps(s: State, a: Step, b: Step, t: State)
    requires Enabled(s, a) && Enabled(Apply(s, a), b) && t == Apply(Apply(s, a), b)
    ensures exists steps :: Run(s, steps, t)
  {
    RunTwo(s, a, b);
  }

  /** The second node of the chain still sends to the third. */
  lemma HopOpen(s: State, q: seq<string>, h: string, rs: seq<Report>)
    requires Chain(s, q, h) && |q| > 2
    ensures var w := Heard(s.views[q[1]], q[0], rs, s.clock);
            q[2] in w.neighbours && q[2] in w.members && !w.members[q[2]].failed
  {
    assert Sends(s, q[1], q[2]);
    HeardKnows(s.views[q[1]], q[0], rs, s.clock);
    if Heard(s.views[q[1]], q[0], rs, s.clock).members[q[2]].failed {
      HeardRaises(s.views[q[1]], q[0], rs, s.clock, q[2]);
    }
  }

  lemma HopKnown(v: View, src: string, rs: seq<Report>, now: int, members: map<string, Entry>, known: set<string>)
    requires rs == Reports(Flags(members)) && members.Keys <= known && v.members.Keys <= known && src in known
    ensures Heard(v, src, rs, now).members.Keys <= known
  {
    var w := Heard(v, src, rs, now);
    forall h | h in w.members ensures h in known {
      MergeAdds(v.members[src := Entry(now, false)], w.neighbours, rs, now, h);
      if i :| 0 <= i < |rs| && rs[i].ip == h { ReportsAt(Flags(members), i); }
    }
  }

  lemma RestWithin(s: State, q: seq<string>, known: set<string>, t: State, w: View)
    requires Within(s, q, known) && |q| >= 2 && t.views == s.views[q[1] := w] && w.members.Keys <= known
    ensures Within(t, q[1..], known)
  {
  }

  lemma RestOfChain(s: State, q: seq<string>, h: string, t: State, w: View)
    requires Chain(s, q, h) && |q| >= 2 && t.views == s.views[q[1] := w] && t.introducer == s.introducer
    requires h in w.members && h !in w.neighbours
    requires |q| > 2 ==> q[2] in w.neighbours && q[2] in w.members && !w.members[q[2]].failed
    ensures Chain(t, q[1..], h)
  {
    var r := q[1..];
    assert forall x :: x in r ==> x in q;
    assert forall i :: 0 <= i < |r| ==> r[i] == q[i + 1];
    forall i | 0 <= i < |r| - 1 ensures r[i] != t.introducer && Sends(t, r[i], r[i + 1]) {
      assert i > 0 ==> Sends(s, q[i + 1], q[i + 2]);
    }
  }

  lemma RunStep(from: State, steps: seq<Step>, s: State, step: Step)
    requires Run(from, steps, s) && Enabled(s, step)
    ensures Run(from, steps + [step], Apply(s, step))
  {
    assert (steps + [step])[..|steps|] == steps;
  }

  lemma RunTwo(s: State, a: Step, b: Step)
    requires Enabled(s, a) && Enabled(Apply(s, a), b)
    ensures Run(s, [a, b], Apply(Apply(s, a), b))
  {
    RunStep(s, [], s, a);
    assert [] + [a] == [a];
    RunStep(s, [a], Apply(s, a), b);
    assert [a] + [b] == [a, b];
  }

  lemma HopView(v: View, src: string, rs: seq<Report>, now: int, members: map<string, Entry>, h: string)
    requires rs == Reports(Flags(members)) && h in members && members[h].failed
    requires h in v.members && h !in v.neighbours && h != src
    ensures var w := Heard(v, src, rs, now);
            h in w.members && w.members[h].failed && h !in w.neighbours
              && (forall x :: x in v.neighbours ==> x in w.neighbours)
              && forall x :: x in v.members ==> x in w.members
  {
    HeardKnows(v, src, rs, now);
    var i := ReportOf(members, h);
    var w := Heard(v, src, rs, now);
    LastReportDecides(v.members[src := Entry(now, false)], w.neighbours, rs, now, i);
  }

  /** Along every gossip path there is a run after which the last node shares the first one's
      verdict: nothing but delivery stands between a detection and any survivor. */
  lemma {:induction false} VerdictSpreads(s: State, q: seq<string>, h: string, known: set<string>) returns (t: State)
    requires Chain(s, q, h) && Within(s, q, known) && Holds(s, q[0], h)
    ensures exists steps :: Run(s, steps, t)
    ensures Holds(t, q[|q| - 1], h)
    decreases |q|
  {
    if |q| == 1 {
      t := s;
      assert Run(s, [], t);
    } else {
      var u := Hop(s, q, h, known);
      t := VerdictSpreads(u, q[1..], h, known);
      var first :| Run(s, first, u);
      var rest :| Run(u, rest, t);
      RunJoins(s, first, u, rest, t);
    }
  }

  lemma {:induction false} RunJoins(a: State, steps: seq<Step>, b: State, more: seq<Step>, c: State)
    requires Run(a, steps, b) && Run(b, more, c)
    ensures Run(a, steps + more, c)
    decreases |more|
  {
    if more == [] {
      assert steps + more == steps;
    } else {
      var last := |more| - 1;
      var before :| Run(b, more[..last], before) && Enabled(before, more[last]) && c == Apply(before, more[last]);
      RunJoins(a, steps, b, more[..last], before);
      assert (steps + more)[..|steps + more| - 1] == steps + more[..last];
    }
  }

  /** The heartbeats of a round are the sends of this model, for whatever the end of the map says of
      unknown addresses. */
  lemma RoundIsSends(s: State, n: string, dst: string, message: string)
    requires n in s.views && n != s.introducer && Sendable(s.views[n].members)
    ensures (exists atEnd :: Heartbeat(dst, message) in Round(s.views[n].neighbours, s.views[n].members, atEnd))
            <==> Enabled(s, SendList(n, dst)) && message == Wire(Reports(Flags(s.views[n].members)))
    ensures Enabled(s, SendList(n, dst)) ==>
              Message(n, dst, Reports(Flags(s.views[n].members))) in Apply(s, SendList(n, dst)).sent
  {
    var v := s.views[n];
    forall atEnd { InRound(v.neighbours, v.members, atEnd); }
    if Enabled(s, SendList(n, dst)) && message == Wire(Reports(Flags(v.members))) {
      assert Heartbeat(dst, message) in Round(v.neighbours, v.members, false);
    }
  }

  /** The text a node sends reaches a peer's handler as exactly the reports of this model. */
  lemma {:induction false} TextIsReports(members: map<string, Entry>)
    requires Sendable(members)
    ensures var received := UntilZero(Padded(Wire(Reports(Flags(members)))));
            WellFormed(received) && Parse(received) == Reports(Flags(members))
  {
    assert Flags(members).Keys == members.Keys;
    TextArrives(Flags(members));
  }
}
