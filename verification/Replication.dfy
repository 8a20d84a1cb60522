/** Re-replication: every node's monitor thread walks its stored files, asks the master where each
    belongs, checks those nodes, uploads what is missing and deletes what is not its own. The steps
    of all monitors, and client puts, interleave freely. */
module Replication {
  import opened Sets

  /** A monitor between two of its network operations. `arr` is the master's answer for `f`, `j`
      the next entry to check, `needed` whether this node has found itself in the answer. A monitor
      whose query or check gets no reply waits for it for ever. */
  datatype Phase =
    | Idle
    | Listed(rest: seq<string>)
    | Checking(f: string, arr: seq<string>, j: nat, needed: bool, rest: seq<string>)
    | Uploading(f: string, arr: seq<string>, j: nat, needed: bool, rest: seq<string>)
    | Hung

  /** The pass is in the middle of a file. */
  ghost predicate Over(ph: Phase)
  {
    ph.Checking? || ph.Uploading?
  }

  /** `disk` is what each node stores, `known` the members each node has heard of. */
  datatype State = State(disk: map<string, map<string, string>>, phase: map<string, Phase>,
                         known: map<string, set<string>>)

  /** The answers a query for a file may get. Members fail and join and masters change, so one file
      may have many. The empty list is what a query reads whose sending fails with an error, for
      instance for want of a route; a query that is merely lost is never answered at all. */
  type Master = string -> iset<seq<string>>

  /** A rule that places every file once and for all. */
  type Placed = string -> seq<string>

  ghost function Only(p: Placed): Master { (f: string) => iset{p(f)} }

  datatype Step =
    | Begin(n: string, files: seq<string>)
    | Query(n: string, arr: seq<string>)
    | Check(n: string)
    | Upload(n: string)
    | Finish(n: string)
    | End(n: string)
    | Hang(n: string)
    | Learn(n: string, ms: set<string>)
    | Put(d: string, f: string, c: string)

  ghost predicate Has(s: State, n: string, f: string) { n in s.disk && f in s.disk[n] }

  ghost predicate Listing(files: seq<string>, stored: set<string>)
  {
    (forall f :: f in files <==> f in stored) && forall i, j :: 0 <= i < j < |files| ==> files[i] != files[j]
  }

  /** Every member that exists or that anyone has heard of. */
  ghost function World(s: State): set<string>
  {
    s.disk.Keys + set n, m | n in s.known && m in s.known[n] :: m
  }

  /** A monitor begins no pass before it knows this many members. */
  const QUORUM: nat := 4

  /** A check waits while the node it asks does not exist. */
  ghost predicate Enabled(p: Master, s: State, step: Step)
  {
    match step
    case Begin(n, files) => n in s.disk && n in s.phase && s.phase[n].Idle? && Listing(files, s.disk[n].Keys)
                            && n in s.known && |s.known[n]| >= QUORUM
    case Query(n, arr) => n in s.phase && s.phase[n].Listed? && s.phase[n].rest != [] && arr in p(s.phase[n].rest[0])
    case Check(n) => n in s.phase && s.phase[n].Checking? && s.phase[n].j < |s.phase[n].arr|
                     && s.phase[n].arr[s.phase[n].j] in s.disk
    case Upload(n) => n in s.phase && s.phase[n].Uploading? && s.phase[n].j < |s.phase[n].arr|
                      && Has(s, n, s.phase[n].f)
    case Finish(n) => n in s.phase && s.phase[n].Checking? && s.phase[n].j == |s.phase[n].arr| && n in s.disk
    case End(n) => n in s.phase && s.phase[n].Listed? && s.phase[n].rest == []
    case Hang(n) => n in s.phase && ((s.phase[n].Listed? && s.phase[n].rest != [])
                                     || (s.phase[n].Checking? && s.phase[n].j < |s.phase[n].arr|))
    case Learn(n, ms) => n in s.known && ms <= World(s)
    case Put(d, f, c) => d in s.disk && exists arr :: arr in p(f) && d in arr
  }

  /** What is left when the machines `failed` disappear: the other monitors are where they were. */
  ghost function Crash(s: State, failed: set<string>): State
  {
    State(s.disk - failed, s.phase - failed, s.known - failed)
  }

  /** An upload to a node that has disappeared cannot connect, which ends the uploader's process. */
  ghost function Apply(p: Master, s: State, step: Step): State
    requires Enabled(p, s, step)
  {
    match step
    case Begin(n, files) => s.(phase := s.phase[n := Listed(files)])
    case Query(n, arr) =>
      var rest := s.phase[n].rest;
      s.(phase := s.phase[n := Checking(rest[0], arr, 0, false, rest[1..])])
    case Check(n) =>
      var ph := s.phase[n];
      var d := ph.arr[ph.j];
      var needed := ph.needed || d == n;
      s.(phase := s.phase[n := if ph.f in s.disk[d] then Checking(ph.f, ph.arr, ph.j + 1, needed, ph.rest)
                               else Uploading(ph.f, ph.arr, ph.j, needed, ph.rest)])
    case Upload(n) =>
      var ph := s.phase[n];
      var d := ph.arr[ph.j];
      if d !in s.disk then Crash(s, {n})
      else s.(disk := s.disk[d := s.disk[d][ph.f := s.disk[n][ph.f]]],
              phase := s.phase[n := Checking(ph.f, ph.arr, ph.j + 1, ph.needed, ph.rest)])
    case Finish(n) =>
      var ph := s.phase[n];
      s.(disk := if ph.needed then s.disk else s.disk[n := s.disk[n] - {ph.f}],
         phase := s.phase[n := Listed(ph.rest)])
    case End(n) => s.(phase := s.phase[n := Idle])
    case Hang(n) => s.(phase := s.phase[n := Hung])
    case Learn(n, ms) => s.(known := s.known[n := s.known[n] + ms])
    case Put(d, f, c) => s.(disk := s.disk[d := s.disk[d][f := c]])
  }

  ghost predicate Run(p: Master, from: State, steps: seq<Step>, s: State)
    decreases |steps|
  {
    if steps == [] then s == from
    else
      var last := |steps| - 1;
      exists before :: Run(p, from, steps[..last], before) && Enabled(p, before, steps[last])
                       && s == Apply(p, before, steps[last])
  }

  lemma RunStep(p: Master, from: State, steps: seq<Step>, s: State, step: Step)
    requires Run(p, from, steps, s) && Enabled(p, s, step)
    ensures Run(p, from, steps + [step], Apply(p, s, step))
  {
    assert (steps + [step])[..|steps|] == steps;
  }

  lemma {:induction false} RunJoins(p: Master, from: State, steps: seq<Step>, s: State, more: seq<Step>, t: State)
    requires Run(p, from, steps, s) && Run(p, s, more, t)
    ensures Run(p, from, steps + more, t)
    decreases |more|
  {
    if more == [] {
      assert steps + more == steps;
    } else {
      var last := |more| - 1;
      var before :| Run(p, s, more[..last], before) && Enabled(p, before, more[last])
                    && t == Apply(p, before, more[last]);
      RunJoins(p, from, steps, s, more[..last], before);
      RunStep(p, from, steps + more[..last], before, more[last]);
      JoinLast(steps, more);
    }
  }

  lemma JoinLast<T>(a: seq<T>, b: seq<T>)
    requires b != []
    ensures a + b[..|b| - 1] + [b[|b| - 1]] == a + b
  {
  }

  lemma InitLast<T>(a: seq<T>)
    requires a != []
    ensures a[..|a| - 1] + [a[|a| - 1]] == a
  {
  }

  ghost predicate Within(p: Master, q: Master)
  {
    forall f, arr :: arr in p(f) ==> arr in q(f)
  }

  lemma StepWidens(p: Master, q: Master, s: State, step: Step)
    requires Within(p, q) && Enabled(p, s, step)
    ensures Enabled(q, s, step) && Apply(q, s, step) == Apply(p, s, step)
  {
  }

  /** A run under some answers is a run under more answers. */
  lemma {:induction false} RunWidens(p: Master, q: Master, from: State, steps: seq<Step>, s: State)
    requires Within(p, q) && Run(p, from, steps, s)
    ensures Run(q, from, steps, s)
    decreases |steps|
  {
    if steps != [] {
      var last := |steps| - 1;
      var before :| Run(p, from, steps[..last], before) && Enabled(p, before, steps[last])
                    && s == Apply(p, before, steps[last]);
      RunWidens(p, q, from, steps[..last], before);
      StepWidens(p, q, before, steps[last]);
    }
  }

  ghost predicate SameNodes(s: State)
  {
    s.phase.Keys == s.disk.Keys == s.known.Keys
  }

  /** Every monitor is between passes, and nobody knows members that do not exist. */
  ghost predicate Fresh(s: State)
  {
    && SameNodes(s)
    && (forall n :: n in s.phase ==> s.phase[n].Idle?)
    && forall n :: n in s.known ==> s.known[n] <= s.disk.Keys
  }

  ghost predicate Held(s: State, f: string)
  {
    exists n :: Has(s, n, f)
  }

  // ----- what every step keeps

  /** Node `d` belongs to every answer a query for `f` may get. */
  ghost predicate Common(p: Master, f: string, d: string)
  {
    forall arr :: arr in p(f) ==> d in arr
  }

  lemma CommonOnly(p: Placed)
    ensures forall f, d :: Common(Only(p), f, d) <==> d in p(f)
  {
    forall f, d ensures Common(Only(p), f, d) <==> d in p(f) {
      assert p(f) in Only(p)(f);
    }
  }

  /** Of the first `j` nodes of the answer, those that every answer names hold the file. */
  ghost predicate FirstHold(p: Master, s: State, f: string, arr: seq<string>, j: nat)
  {
    j <= |arr| && forall i :: 0 <= i < j && Common(p, f, arr[i]) ==> Has(s, arr[i], f)
  }

  ghost predicate RestStored(s: State, n: string, rest: seq<string>)
  {
    (forall f :: f in rest ==> Has(s, n, f)) && forall i, j :: 0 <= i < j < |rest| ==> rest[i] != rest[j]
  }

  /** What a running pass relies on of its own node alone. It holds in every state, also after
      machines have failed. */
  ghost predicate OwnOk(s: State, n: string)
    requires n in s.phase
  {
    match s.phase[n]
    case Idle => true
    case Listed(rest) => RestStored(s, n, rest)
    case Checking(f, arr, j, needed, rest) =>
      j <= |arr| && (needed <==> n in arr[..j]) && Has(s, n, f) && RestStored(s, n, rest) && f !in rest
    case Uploading(f, arr, j, needed, rest) =>
      j < |arr| && (needed <==> n in arr[..j + 1]) && Has(s, n, f) && RestStored(s, n, rest) && f !in rest
    case Hung => true
  }

  ghost predicate Sane(s: State)
  {
    && SameNodes(s)
    && (forall n :: n in s.phase ==> OwnOk(s, n))
    && forall n :: n in s.phase && !s.phase[n].Idle? ==> |s.known[n]| >= QUORUM
  }

  /** The answer a pass works with is one of the master's, and the checks made so far still stand. */
  ghost predicate AnswerOk(p: Master, s: State, n: string)
    requires n in s.phase
  {
    match s.phase[n]
    case Idle => true
    case Listed(_) => true
    case Checking(f, arr, j, _, _) => arr in p(f) && FirstHold(p, s, f, arr, j)
    case Uploading(f, arr, j, _, _) => arr in p(f) && FirstHold(p, s, f, arr, j) && j < |arr| && arr[j] in s.disk
    case Hung => true
  }

  ghost predicate Inv(p: Master, s: State)
  {
    Sane(s) && forall n :: n in s.phase ==> AnswerOk(p, s, n)
  }

  /** The copies a step may remove: only the acting node's own copy of the file it is finishing,
      only when the answer it got does not list that node, and only with a copy on every node that
      all answers list. */
  lemma Removes(p: Master, s: State, step: Step, n: string, f: string)
    requires Inv(p, s) && Enabled(p, s, step)
    requires Has(s, n, f) && !Has(Apply(p, s, step), n, f)
    ensures step == Finish(n) && s.phase[n].f == f && s.phase[n].arr in p(f) && n !in s.phase[n].arr
    ensures forall d :: Common(p, f, d) ==> d != n && Has(s, d, f)
  {
    assert OwnOk(s, n) && AnswerOk(p, s, n);
    var arr := s.phase[n].arr;
    forall d | Common(p, f, d) ensures d != n && Has(s, d, f) {
      var i :| 0 <= i < |arr| && arr[i] == d;
    }
  }

  /** The same without knowing the answers: a node loses a copy only by its own `Finish`, or with its
      process. */
  lemma GoesAway(p: Master, s: State, step: Step, n: string, f: string)
    requires Sane(s) && Enabled(p, s, step)
    requires Has(s, n, f) && !Has(Apply(p, s, step), n, f)
    ensures n !in Apply(p, s, step).disk || (step == Finish(n) && s.phase[n].f == f && n !in s.phase[n].arr)
  {
    assert OwnOk(s, n);
  }

  /** A node gains a copy only by an upload from a node that has one, or by a put. */
  lemma Gains(p: Master, s: State, step: Step, n: string, f: string)
    requires SameNodes(s) && Enabled(p, s, step) && !step.Put?
    requires !Has(s, n, f) && Has(Apply(p, s, step), n, f)
    ensures step.Upload? && step.n in s.phase && s.phase[step.n].Uploading?
    ensures s.phase[step.n].f == f && s.phase[step.n].j < |s.phase[step.n].arr|
    ensures s.phase[step.n].arr[s.phase[step.n].j] == n && Has(s, step.n, f) && n in s.disk
  {
  }

  lemma RestTail(s: State, n: string, rest: seq<string>)
    requires RestStored(s, n, rest) && rest != []
    ensures Has(s, n, rest[0]) && RestStored(s, n, rest[1..]) && rest[0] !in rest[1..]
  {
  }

  lemma CopiesStay(p: Master, s: State, step: Step, n: string)
    requires SameNodes(s) && Enabled(p, s, step) && n in Apply(p, s, step).disk
    ensures n in s.disk && n in Apply(p, s, step).phase
    ensures step != Finish(n) ==> s.disk[n].Keys <= Apply(p, s, step).disk[n].Keys
    ensures step == Finish(n) ==> s.disk[n].Keys - {s.phase[n].f} <= Apply(p, s, step).disk[n].Keys
    ensures !step.Put? && n != step.n ==> Apply(p, s, step).phase[n] == s.phase[n]
    ensures step.Put? ==> Apply(p, s, step).phase[n] == s.phase[n]
  {
  }

  lemma OwnOkKept(p: Master, s: State, step: Step, n: string)
    requires Sane(s) && Enabled(p, s, step) && n in Apply(p, s, step).phase
    ensures n in s.phase && OwnOk(Apply(p, s, step), n)
  {
    var t := Apply(p, s, step);
    assert n in t.disk;
    CopiesStay(p, s, step, n);
    assert OwnOk(s, n);
    if !step.Put? && step.n == n { OwnOkStep(p, s, step); }
  }

  lemma OwnOkStep(p: Master, s: State, step: Step)
    requires Sane(s) && Enabled(p, s, step) && !step.Put? && step.n in Apply(p, s, step).phase
    ensures OwnOk(Apply(p, s, step), step.n)
  {
    var n := step.n;
    assert OwnOk(s, n);
    match step
    case Begin(_, _) =>
    case Query(_, _) => RestTail(s, n, s.phase[n].rest);
    case Check(_) =>
      var ph := s.phase[n];
      assert ph.arr[..ph.j + 1] == ph.arr[..ph.j] + [ph.arr[ph.j]];
    case Upload(_) =>
    case Finish(_) =>
    case End(_) =>
    case Hang(_) =>
    case Learn(_, _) =>
  }

  lemma StepKeepsSane(p: Master, s: State, step: Step)
    requires Sane(s) && Enabled(p, s, step)
    ensures Sane(Apply(p, s, step))
  {
    var t := Apply(p, s, step);
    forall n | n in t.phase ensures OwnOk(t, n) { OwnOkKept(p, s, step, n); }
    forall n | n in t.phase && !t.phase[n].Idle? ensures |t.known[n]| >= QUORUM { KnownKept(p, s, step, n); }
  }

  lemma KnownKept(p: Master, s: State, step: Step, n: string)
    requires Sane(s) && Enabled(p, s, step) && n in Apply(p, s, step).phase && n in Apply(p, s, step).known
    requires !Apply(p, s, step).phase[n].Idle?
    ensures |Apply(p, s, step).known[n]| >= QUORUM
  {
    KnownGrows(p, s, step, n);
    assert s.phase[n].Idle? ==> step.Begin? && step.n == n;
  }

  lemma KnownGrows(p: Master, s: State, step: Step, n: string)
    requires Sane(s) && Enabled(p, s, step) && n in Apply(p, s, step).known
    ensures n in s.known && s.known[n] <= Apply(p, s, step).known[n]
    ensures |s.known[n]| <= |Apply(p, s, step).known[n]|
  {
    SubsetSize(s.known[n], Apply(p, s, step).known[n]);
  }

  /** An answer stays sound through any other node's step. */
  lemma OtherAnswerOk(p: Master, s: State, step: Step, n: string)
    requires Inv(p, s) && Enabled(p, s, step)
    requires n in s.phase && Apply(p, s, step).phase[n] == s.phase[n] && step != Finish(n)
    ensures AnswerOk(p, Apply(p, s, step), n)
  {
    var t := Apply(p, s, step);
    forall m, f | Has(s, m, f) && Common(p, f, m) ensures Has(t, m, f) {
      if !Has(t, m, f) { Removes(p, s, step, m, f); }
    }
    assert AnswerOk(p, s, n);
  }

  /** While all answers are sound no monitor loses its process. */
  lemma NobodyGone(p: Master, s: State, step: Step)
    requires Inv(p, s) && Enabled(p, s, step)
    ensures Apply(p, s, step).disk.Keys == s.disk.Keys
  {
    if step.Upload? { assert AnswerOk(p, s, step.n); }
  }

  lemma UploadKeepsCopies(p: Master, s: State, n: string)
    requires Enabled(p, s, Upload(n)) && s.phase[n].arr[s.phase[n].j] in s.disk
    ensures forall m, f :: Has(s, m, f) ==> Has(Apply(p, s, Upload(n)), m, f)
    ensures Has(Apply(p, s, Upload(n)), s.phase[n].arr[s.phase[n].j], s.phase[n].f)
  {
  }

  lemma OwnAnswerOk(p: Master, s: State, step: Step)
    requires Sane(s) && Enabled(p, s, step) && !step.Put?
    requires AnswerOk(p, s, step.n) && step.n in Apply(p, s, step).phase
    ensures AnswerOk(p, Apply(p, s, step), step.n)
  {
    var n := step.n;
    assert AnswerOk(p, s, n);
    if step.Check? { CheckAnswerOk(p, s, n); }
    if step.Upload? { UploadAnswerOk(p, s, n); }
  }

  lemma UploadAnswerOk(p: Master, s: State, n: string)
    requires Enabled(p, s, Upload(n)) && AnswerOk(p, s, n)
    ensures n in Apply(p, s, Upload(n)).phase && AnswerOk(p, Apply(p, s, Upload(n)), n)
  {
    UploadKeepsCopies(p, s, n);
  }

  lemma CheckAnswerOk(p: Master, s: State, n: string)
    requires Enabled(p, s, Check(n)) && AnswerOk(p, s, n)
    ensures AnswerOk(p, Apply(p, s, Check(n)), n)
  {
  }

  lemma StepKeepsInv(p: Master, s: State, step: Step)
    requires Inv(p, s) && Enabled(p, s, step)
    ensures Inv(p, Apply(p, s, step)) && Apply(p, s, step).disk.Keys == s.disk.Keys
  {
    var t := Apply(p, s, step);
    StepKeepsSane(p, s, step);
    NobodyGone(p, s, step);
    forall n | n in t.phase ensures AnswerOk(p, t, n) {
      if !step.Put? && n == step.n { OwnAnswerOk(p, s, step); } else { OtherAnswerOk(p, s, step, n); }
    }
  }

  lemma {:induction false} RunKeepsInv(p: Master, from: State, steps: seq<Step>, s: State)
    requires Inv(p, from) && Run(p, from, steps, s)
    ensures Inv(p, s) && s.disk.Keys == from.disk.Keys
    decreases |steps|
  {
    if steps != [] {
      var last := |steps| - 1;
      var before :| Run(p, from, steps[..last], before) && Enabled(p, before, steps[last])
                    && s == Apply(p, before, steps[last]);
      RunKeepsInv(p, from, steps[..last], before);
      StepKeepsInv(p, before, steps[last]);
    }
  }

  lemma InvWidens(p: Master, q: Master, s: State)
    requires Within(p, q) && Inv(p, s)
    ensures Inv(q, s)
  {
    forall n | n in s.phase ensures AnswerOk(q, s, n) { assert AnswerOk(p, s, n); }
  }

  lemma StepShrinks(p: Master, s: State, step: Step)
    requires SameNodes(s) && Enabled(p, s, step)
    ensures Apply(p, s, step).disk.Keys <= s.disk.Keys
  {
    forall n | n in Apply(p, s, step).disk ensures n in s.disk { CopiesStay(p, s, step, n); }
  }

  /** Machines disappear and never come back. */
  lemma {:induction false} NodesShrink(p: Master, from: State, steps: seq<Step>, s: State)
    requires Run(p, from, steps, s) && Sane(from)
    ensures s.disk.Keys <= from.disk.Keys && Sane(s)
    decreases |steps|
  {
    if steps != [] {
      var last := |steps| - 1;
      var before :| Run(p, from, steps[..last], before) && Enabled(p, before, steps[last])
                    && s == Apply(p, before, steps[last]);
      NodesShrink(p, from, steps[..last], before);
      StepKeepsSane(p, before, steps[last]);
      StepShrinks(p, before, steps[last]);
    }
  }

  /** Whatever has happened since the monitors were at rest, one that knows fewer than four members is
      in no pass. */
  lemma NoPassBelowFour(p: Master, from: State, steps: seq<Step>, s: State, n: string)
    requires Fresh(from) && Run(p, from, steps, s) && n in s.phase
    ensures n in s.known && (|s.known[n]| < 4 ==> s.phase[n].Idle?)
  {
    NodesShrink(p, from, steps, s);
  }

  // ----- safety

  /** From any state of running passes, no interleaving of monitors and puts ever deletes the copy
      of a node that all answers name, and with such a node none deletes a file's last copy. */
  lemma {:induction false} NeverLost(p: Master, from: State, steps: seq<Step>, s: State, f: string)
    requires Inv(p, from) && Run(p, from, steps, s)
    ensures forall d :: Common(p, f, d) && Has(from, d, f) ==> Has(s, d, f)
    ensures (exists d :: Common(p, f, d)) && Held(from, f) ==> Held(s, f)
    decreases |steps|
  {
    if steps != [] {
      var last := |steps| - 1;
      var before :| Run(p, from, steps[..last], before) && Enabled(p, before, steps[last])
                    && s == Apply(p, before, steps[last]);
      NeverLost(p, from, steps[..last], before, f);
      RunKeepsInv(p, from, steps[..last], before);
      StepLosesNothing(p, before, steps[last], f);
    }
  }

  lemma StepLosesNothing(p: Master, s: State, step: Step, f: string)
    requires Inv(p, s) && Enabled(p, s, step)
    ensures forall d :: Common(p, f, d) && Has(s, d, f) ==> Has(Apply(p, s, step), d, f)
    ensures (exists d :: Common(p, f, d)) && Held(s, f) ==> Held(Apply(p, s, step), f)
  {
    var t := Apply(p, s, step);
    forall d | Common(p, f, d) && Has(s, d, f) ensures Has(t, d, f) {
      if !Has(t, d, f) { Removes(p, s, step, d, f); }
    }
    if d :| Common(p, f, d) {
      if Held(s, f) {
        var n :| Has(s, n, f);
        if !Has(t, n, f) {
          Removes(p, s, step, n, f);
          assert Has(t, d, f);
        }
      }
    }
  }

  // ----- how a file is lost

  /** Every node of the plan has been given an answer that names other nodes of the plan only. */
  ghost predicate Plan(plan: map<string, seq<string>>)
  {
    plan != map[] && forall u :: u in plan ==> u !in plan[u] && forall x :: x in plan[u] ==> x in plan
  }

  /** Nodes beside those of a plan, so that passes may begin. */
  const OTHERS: set<string> := {"1", "2", "3", "4"}

  lemma EnoughNodes(nodes: set<string>)
    requires OTHERS <= nodes
    ensures |nodes| >= QUORUM
  {
    assert |OTHERS| == 4;
    SubsetSize(OTHERS, nodes);
  }

  /** The nodes `holders` store `f` and nothing else, all others nothing; everyone is idle and knows
      everyone. */
  ghost function Resting(f: string, content: string, holders: set<string>, others: set<string>): State
  {
    var nodes := holders + others + OTHERS;
    State(map x | x in nodes :: if x in holders then map[f := content] else map[],
          map x | x in nodes :: Idle, map x | x in nodes :: nodes)
  }

  lemma RestingFacts(f: string, content: string, holders: set<string>, others: set<string>)
    ensures var s := Resting(f, content, holders, others);
            && Fresh(s) && s.disk.Keys == holders + others + OTHERS
            && (forall n :: n in s.disk ==> |s.known[n]| >= QUORUM && s.phase[n].Idle?)
            && (forall n :: n in holders ==> s.disk[n] == map[f := content] && s.disk[n].Keys == {f})
            && forall n :: n in s.disk && n !in holders ==> s.disk[n] == map[]
  {
    EnoughNodes(holders + others + OTHERS);
  }

  /** All nodes of the plan store `f`; those that `walked` have found it on every node of their
      answer, those `gone` have deleted their copy. The other nodes are idle and store nothing. */
  ghost function Waiting(f: string, plan: map<string, seq<string>>, walked: set<string>, gone: set<string>): State
  {
    var nodes := plan.Keys + OTHERS;
    State(map u | u in nodes :: if u in plan && u !in gone then map[f := ""] else map[],
          map u | u in nodes :: if u in plan && u in gone then Listed([])
                                else if u in plan && u in walked then Checking(f, plan[u], |plan[u]|, false, [])
                                else Idle,
          map u | u in nodes :: nodes)
  }

  // ----- single steps of one monitor

  ghost function At(s: State, n: string, ph: Phase): State
  {
    s.(phase := s.phase[n := ph])
  }

  lemma AtAgain(s: State, n: string, ph: Phase, ph': Phase)
    ensures At(At(s, n, ph), n, ph') == At(s, n, ph')
    ensures n in s.phase && s.phase[n] == ph' ==> At(At(s, n, ph), n, ph') == s
  {
    assert At(At(s, n, ph), n, ph').phase == At(s, n, ph').phase;
    if n in s.phase && s.phase[n] == ph' { assert At(At(s, n, ph), n, ph').phase == s.phase; }
  }

  lemma RunOne(p: Master, s: State, step: Step)
    requires Enabled(p, s, step)
    ensures Run(p, s, [step], Apply(p, s, step))
  {
    RunStep(p, s, [], s, step);
    assert [] + [step] == [step];
  }

  lemma BeginPass(p: Master, s: State, n: string, files: seq<string>)
    requires n in s.disk && n in s.phase && s.phase[n].Idle? && Listing(files, s.disk[n].Keys)
    requires n in s.known && |s.known[n]| >= QUORUM
    ensures Run(p, s, [Begin(n, files)], At(s, n, Listed(files)))
  {
    RunOne(p, s, Begin(n, files));
  }

  lemma Answered(p: Master, s: State, n: string, arr: seq<string>)
    requires n in s.phase && s.phase[n].Listed? && s.phase[n].rest != [] && arr in p(s.phase[n].rest[0])
    ensures var rest := s.phase[n].rest;
            Run(p, s, [Query(n, arr)], At(s, n, Checking(rest[0], arr, 0, false, rest[1..])))
  {
    RunOne(p, s, Query(n, arr));
  }

  lemma FoundThere(p: Master, s: State, n: string)
    requires n in s.phase && s.phase[n].Checking? && s.phase[n].j < |s.phase[n].arr|
    requires Has(s, s.phase[n].arr[s.phase[n].j], s.phase[n].f)
    ensures var ph := s.phase[n];
            Run(p, s, [Check(n)], At(s, n, Checking(ph.f, ph.arr, ph.j + 1, ph.needed || ph.arr[ph.j] == n, ph.rest)))
  {
    var ph := s.phase[n];
    assert Apply(p, s, Check(n)) ==
           At(s, n, Checking(ph.f, ph.arr, ph.j + 1, ph.needed || ph.arr[ph.j] == n, ph.rest));
    RunOne(p, s, Check(n));
  }

  lemma Kept(p: Master, s: State, n: string)
    requires n in s.phase && s.phase[n].Checking? && s.phase[n].j == |s.phase[n].arr| && s.phase[n].needed
    requires n in s.disk
    ensures Run(p, s, [Finish(n)], At(s, n, Listed(s.phase[n].rest)))
  {
    RunOne(p, s, Finish(n));
  }

  ghost function Dropped(s: State, n: string, f: string): State
    requires n in s.disk
  {
    s.(disk := s.disk[n := s.disk[n] - {f}])
  }

  lemma Deleted(p: Master, s: State, n: string)
    requires n in s.phase && s.phase[n].Checking? && s.phase[n].j == |s.phase[n].arr| && !s.phase[n].needed
    requires n in s.disk
    ensures Run(p, s, [Finish(n)], At(Dropped(s, n, s.phase[n].f), n, Listed(s.phase[n].rest)))
  {
    RunOne(p, s, Finish(n));
  }

  lemma Ended(p: Master, s: State, n: string)
    requires n in s.phase && s.phase[n] == Listed([])
    ensures Run(p, s, [End(n)], At(s, n, Idle))
  {
    RunOne(p, s, End(n));
  }

  ghost function AtCheck(s: State, n: string, f: string, arr: seq<string>, j: nat): State
  {
    s.(phase := s.phase[n := Checking(f, arr, j, false, [])])
  }

  lemma CheckOne(p: Master, s: State, n: string, f: string, arr: seq<string>, j: nat)
    requires n in s.phase && j < |arr| && n != arr[j] && Has(s, arr[j], f)
    ensures Enabled(p, AtCheck(s, n, f, arr, j), Check(n))
    ensures Apply(p, AtCheck(s, n, f, arr, j), Check(n)) == AtCheck(s, n, f, arr, j + 1)
  {
  }

  /** Checks that all find the file. */
  lemma {:induction false} CheckAll(p: Master, s: State, n: string, f: string, arr: seq<string>, j: nat)
    returns (steps: seq<Step>)
    requires n in s.phase && j <= |arr| && n !in arr && forall d :: d in arr ==> Has(s, d, f)
    ensures Run(p, AtCheck(s, n, f, arr, 0), steps, AtCheck(s, n, f, arr, j))
  {
    if j == 0 {
      steps := [];
    } else {
      steps := CheckAll(p, s, n, f, arr, j - 1);
      CheckOne(p, s, n, f, arr, j - 1);
      RunStep(p, AtCheck(s, n, f, arr, 0), steps, AtCheck(s, n, f, arr, j - 1), Check(n));
      steps := steps + [Check(n)];
    }
  }

  /** A pass over one stored file, up to the answer of the query. */
  lemma Ask(p: Master, s: State, n: string, f: string, arr: seq<string>) returns (steps: seq<Step>)
    requires n in s.disk && s.disk[n].Keys == {f} && n in s.phase && s.phase[n].Idle? && arr in p(f)
    requires n in s.known && |s.known[n]| >= QUORUM
    ensures steps == [Begin(n, [f]), Query(n, arr)] && Run(p, s, steps, AtCheck(s, n, f, arr, 0))
  {
    var begun := s.(phase := s.phase[n := Listed([f])]);
    assert Listing([f], s.disk[n].Keys);
    assert Apply(p, s, Begin(n, [f])) == begun;
    RunStep(p, s, [], s, Begin(n, [f]));
    assert [f][1..] == [];
    assert Apply(p, begun, Query(n, arr)).phase == AtCheck(s, n, f, arr, 0).phase;
    RunStep(p, s, [] + [Begin(n, [f])], begun, Query(n, arr));
    steps := [Begin(n, [f]), Query(n, arr)];
    assert [] + [Begin(n, [f])] + [Query(n, arr)] == steps;
  }

  lemma WalkOne(p: Master, f: string, plan: map<string, seq<string>>, walked: set<string>, n: string)
    returns (steps: seq<Step>)
    requires Plan(plan) && n in plan && n !in walked && plan[n] in p(f)
    ensures Run(p, Waiting(f, plan, walked, {}), steps, Waiting(f, plan, walked + {n}, {}))
  {
    var s := Waiting(f, plan, walked, {});
    var arr := plan[n];
    WaitingAt(f, plan, walked, n);
    var first := Ask(p, s, n, f, arr);
    var rest := CheckAll(p, s, n, f, arr, |arr|);
    RunJoins(p, s, first, AtCheck(s, n, f, arr, 0), rest, AtCheck(s, n, f, arr, |arr|));
    steps := first + rest;
    WalkedOne(f, plan, walked, n);
  }

  lemma WaitingAt(f: string, plan: map<string, seq<string>>, walked: set<string>, n: string)
    requires Plan(plan) && n in plan && n !in walked
    ensures var s := Waiting(f, plan, walked, {});
            && n in s.disk && s.disk[n].Keys == {f} && n in s.phase && s.phase[n].Idle?
            && n in s.known && |s.known[n]| >= QUORUM && forall d :: d in plan[n] ==> Has(s, d, f)
  {
    EnoughNodes(plan.Keys + OTHERS);
  }

  lemma WalkedOne(f: string, plan: map<string, seq<string>>, walked: set<string>, n: string)
    requires Plan(plan) && n in plan
    ensures AtCheck(Waiting(f, plan, walked, {}), n, f, plan[n], |plan[n]|) == Waiting(f, plan, walked + {n}, {})
  {
    assert AtCheck(Waiting(f, plan, walked, {}), n, f, plan[n], |plan[n]|).phase
        == Waiting(f, plan, walked + {n}, {}).phase;
  }

  lemma {:induction false} WalkAll(p: Master, f: string, plan: map<string, seq<string>>, walked: set<string>,
                                   more: set<string>) returns (steps: seq<Step>)
    requires Plan(plan) && more <= plan.Keys && walked !! more && forall n :: n in more ==> plan[n] in p(f)
    ensures Run(p, Waiting(f, plan, walked, {}), steps, Waiting(f, plan, walked + more, {}))
    decreases |more|
  {
    if more == {} {
      assert walked + more == walked;
      steps := [];
    } else {
      var n :| n in more;
      var mid := walked + (more - {n});
      var first := WalkAll(p, f, plan, walked, more - {n});
      var last := WalkOne(p, f, plan, mid, n);
      assert mid + {n} == walked + more;
      RunJoins(p, Waiting(f, plan, walked, {}), first, Waiting(f, plan, mid, {}), last,
               Waiting(f, plan, walked + more, {}));
      steps := first + last;
    }
  }

  lemma FinishOne(p: Master, f: string, plan: map<string, seq<string>>, gone: set<string>, n: string)
    requires Plan(plan) && n in plan && n !in gone
    ensures Enabled(p, Waiting(f, plan, plan.Keys, gone), Finish(n))
    ensures Apply(p, Waiting(f, plan, plan.Keys, gone), Finish(n)) == Waiting(f, plan, plan.Keys, gone + {n})
  {
    var t := Apply(p, Waiting(f, plan, plan.Keys, gone), Finish(n));
    assert map[f := ""] - {f} == map[];
    assert t.disk == Waiting(f, plan, plan.Keys, gone + {n}).disk;
  }

  /** Once all have walked, all delete. */
  lemma {:induction false} FinishAll(p: Master, f: string, plan: map<string, seq<string>>, gone: set<string>)
    returns (steps: seq<Step>)
    requires Plan(plan) && gone <= plan.Keys
    ensures Run(p, Waiting(f, plan, plan.Keys, {}), steps, Waiting(f, plan, plan.Keys, gone))
    decreases |gone|
  {
    if gone == {} {
      steps := [];
    } else {
      var n :| n in gone;
      steps := FinishAll(p, f, plan, gone - {n});
      FinishOne(p, f, plan, gone - {n}, n);
      assert gone - {n} + {n} == gone;
      RunStep(p, Waiting(f, plan, plan.Keys, {}), steps, Waiting(f, plan, plan.Keys, gone - {n}), Finish(n));
      steps := steps + [Finish(n)];
    }
  }

  lemma WaitingFresh(f: string, plan: map<string, seq<string>>)
    requires Plan(plan)
    ensures Fresh(Waiting(f, plan, {}, {})) && Held(Waiting(f, plan, {}, {}), f)
    ensures !Held(Waiting(f, plan, plan.Keys, plan.Keys), f)
  {
    var n :| n in plan;
    assert Has(Waiting(f, plan, {}, {}), n, f);
  }

  /** A run under `p` continued under `q` that loses a file. */
  ghost predicate Loss(p: Master, q: Master, f: string, s: State, steps: seq<Step>, t: State, more: seq<Step>, u: State)
  {
    Fresh(s) && Held(s, f) && Run(p, s, steps, t) && Run(q, t, more, u) && !Held(u, f)
  }

  /** A plan whose answers the first placement gives to some of its nodes and the second to the
      rest loses the file: all nodes rely on each other and all delete. */
  lemma PlanLoses(p: Master, q: Master, f: string, plan: map<string, seq<string>>, first: set<string>)
    returns (s: State, steps: seq<Step>, t: State, more: seq<Step>, u: State)
    requires Plan(plan) && first <= plan.Keys
    requires forall n :: n in plan ==> if n in first then plan[n] in p(f) else plan[n] in q(f)
    ensures Loss(p, q, f, s, steps, t, more, u)
  {
    s, t := Waiting(f, plan, {}, {}), Waiting(f, plan, first, {});
    WaitingFresh(f, plan);
    steps := WalkAll(p, f, plan, {}, first);
    assert {} + first == first;
    var walk := WalkAll(q, f, plan, first, plan.Keys - first);
    assert first + (plan.Keys - first) == plan.Keys;
    var finish := FinishAll(q, f, plan, plan.Keys);
    u := Waiting(f, plan, plan.Keys, plan.Keys);
    RunJoins(q, t, walk, Waiting(f, plan, plan.Keys, {}), finish, u);
    more := walk + finish;
  }

  /** Some answer for `f` that leaves `d` out. */
  ghost function Missing(p: Master, f: string, d: string): (arr: seq<string>)
    requires !Common(p, f, d)
    ensures arr in p(f) && d !in arr
  {
    var arr :| arr in p(f) && d !in arr;
    arr
  }

  /** When no node is common to all answers, finitely many answers already have none in common, and
      their nodes can be given answers that leave them out. */
  lemma PlanExists(p: Master, f: string) returns (plan: map<string, seq<string>>)
    requires forall d :: !Common(p, f, d)
    ensures Plan(plan) && forall n :: n in plan ==> plan[n] in p(f)
  {
    var first := Missing(p, f, "");
    var nodes := {""} + (set d | d in first) + set d, x | d in first && x in Missing(p, f, d) :: x;
    plan := map u | u in nodes :: if u in first then Missing(p, f, u) else first;
    assert "" in plan;
  }

  /** A run that loses a file. */
  ghost predicate Loses(p: Master, f: string, s: State, steps: seq<Step>, t: State)
  {
    Fresh(s) && Held(s, f) && Run(p, s, steps, t) && !Held(t, f)
  }

  lemma NoCommonLoses(p: Master, f: string) returns (s: State, steps: seq<Step>, t: State)
    requires forall d :: !Common(p, f, d)
    ensures Loses(p, f, s, steps, t)
  {
    var plan := PlanExists(p, f);
    var first, mid, more;
    s, first, mid, more, t := PlanLoses(p, p, f, plan, plan.Keys);
    RunJoins(p, s, first, mid, more, t);
    steps := first + more;
  }

  /** Exactly when a file is safe in every run, whatever answers the queries get: some node belongs
      to every answer. */
  lemma SafeIff(p: Master, f: string)
    ensures (forall s, steps, t :: !Loses(p, f, s, steps, t)) <==> exists d :: Common(p, f, d)
  {
    if exists d :: Common(p, f, d) {
      forall s, steps, t ensures !Loses(p, f, s, steps, t) {
        if Loses(p, f, s, steps, t) { NeverLost(p, s, steps, t, f); }
      }
    } else {
      var s, steps, t := NoCommonLoses(p, f);
    }
  }

  lemma SharedNodeKeeps(p: Placed, q: Placed, f: string, d: string,
                        s: State, steps: seq<Step>, t: State, more: seq<Step>, u: State)
    requires d in p(f) && d in q(f)
    ensures !Loss(Only(p), Only(q), f, s, steps, t, more, u)
  {
    if Loss(Only(p), Only(q), f, s, steps, t, more, u) {
      var both: Master := (g: string) => iset{p(g), q(g)};
      assert Common(both, f, d);
      RunWidens(Only(p), both, s, steps, t);
      RunWidens(Only(q), both, t, more, u);
      RunJoins(both, s, steps, t, more, u);
      NeverLost(both, s, steps + more, u, f);
    }
  }

  /** If the answer changes to other nodes altogether, the holders can rely on each other and all
      delete. */
  lemma ChangedAnswerLoses(p: Placed, q: Placed, f: string)
    returns (s: State, steps: seq<Step>, t: State, more: seq<Step>, u: State)
    requires forall d :: d in p(f) ==> d !in q(f)
    ensures Loss(Only(p), Only(q), f, s, steps, t, more, u)
  {
    var nodes := {""} + (set d | d in p(f)) + set d | d in q(f);
    var plan := map u | u in nodes :: if u in p(f) then q(f) else p(f);
    assert "" in plan;
    s, steps, t, more, u := PlanLoses(Only(p), Only(q), f, plan, set u | u in nodes && u !in p(f));
  }

  /** Exactly when a change of placement can lose no file: the old and the new answer share a
      node. */
  lemma ChangeSafeIff(p: Placed, q: Placed, f: string)
    ensures (forall s, steps, t, more, u :: !Loss(Only(p), Only(q), f, s, steps, t, more, u))
            <==> exists d :: d in p(f) && d in q(f)
  {
    if d :| d in p(f) && d in q(f) {
      forall s, steps, t, more, u ensures !Loss(Only(p), Only(q), f, s, steps, t, more, u) {
        SharedNodeKeeps(p, q, f, d, s, steps, t, more, u);
      }
    } else {
      var s, steps, t, more, u := ChangedAnswerLoses(p, q, f);
    }
  }

  /** Under one fixed placement a file is safe exactly when it is placed somewhere. */
  lemma FixedSafeIff(p: Placed, f: string)
    ensures (forall s, steps, t :: !Loses(Only(p), f, s, steps, t)) <==> p(f) != []
  {
    SafeIff(Only(p), f);
    CommonOnly(p);
    if p(f) != [] { assert p(f)[0] in p(f); }
  }

  /** One query whose sending fails, among any others, is enough to lose a file: its answer reads as
      the empty list. */
  lemma EmptyAnswerLoses(p: Master, f: string)
    requires [] in p(f)
    ensures exists s, steps, t :: Loses(p, f, s, steps, t)
  {
    SafeIff(p, f);
    forall d ensures !Common(p, f, d) {
      assert d !in [];
    }
  }
}
