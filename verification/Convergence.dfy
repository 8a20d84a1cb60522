/** What the monitors reach when nothing else changes: every file exactly on its placement, and a
    put that stays readable. */
module Convergence {
  import opened Text
  import opened Replication

  ghost predicate NoPut(steps: seq<Step>)
  {
    forall i :: 0 <= i < |steps| ==> !steps[i].Put?
  }

  lemma NoPutSplit(steps: seq<Step>)
    requires NoPut(steps) && steps != []
    ensures NoPut(steps[..|steps| - 1]) && !steps[|steps| - 1].Put?
    ensures steps[..|steps| - 1] + [steps[|steps| - 1]] == steps
  {
    var init := steps[..|steps| - 1];
    forall i | 0 <= i < |init| ensures !init[i].Put? {
      assert init[i] == steps[i];
    }
  }

  lemma NoPutJoins(a: seq<Step>, b: seq<Step>)
    requires NoPut(a) && NoPut(b)
    ensures NoPut(a + b)
  {
  }

  ghost predicate AllListedHold(p: Placed, s: State, f: string)
  {
    forall d :: d in p(f) ==> Has(s, d, f)
  }

  /** `n` has nothing left to do for `f`: the listed nodes hold it, and `n` does only if listed. */
  ghost predicate Settled(p: Placed, s: State, n: string, f: string)
  {
    AllListedHold(p, s, f) && (n in p(f) || !Has(s, n, f))
  }

  /** `f` is still ahead of the running pass, or the pass never goes on. */
  ghost predicate Ahead(ph: Phase, f: string)
  {
    match ph
    case Idle => false
    case Listed(rest) => f in rest
    case Checking(g, _, _, _, rest) => f == g || f in rest
    case Uploading(g, _, _, _, rest) => f == g || f in rest
    case Hung => true
  }

  /** `n` has begun a pass since the start of the run. */
  ghost predicate Begun(steps: seq<Step>, n: string)
  {
    exists i :: 0 <= i < |steps| && steps[i].Begin? && steps[i].n == n
  }

  /** `n` has begun and finished a pass within the run. What else it, or any other node, was in the
      middle of when the run started does not matter. */
  ghost predicate FullPass(steps: seq<Step>, n: string)
  {
    exists i, j :: 0 <= i < j < |steps| && steps[i].Begin? && steps[i].n == n && steps[j] == End(n)
  }

  lemma BegunNext(steps: seq<Step>, x: Step, n: string)
    ensures Begun(steps + [x], n) <==> Begun(steps, n) || (x.Begin? && x.n == n)
  {
    if i :| 0 <= i < |steps| && steps[i].Begin? && steps[i].n == n { assert (steps + [x])[i] == steps[i]; }
    if x.Begin? && x.n == n { assert (steps + [x])[|steps|] == x; }
  }

  lemma FullPassNext(steps: seq<Step>, x: Step, n: string)
    ensures FullPass(steps + [x], n) <==> FullPass(steps, n) || (Begun(steps, n) && x == End(n))
  {
    if i, j :| 0 <= i < j < |steps| && steps[i].Begin? && steps[i].n == n && steps[j] == End(n) {
      assert (steps + [x])[i] == steps[i] && (steps + [x])[j] == steps[j];
    }
    if Begun(steps, n) && x == End(n) {
      var i :| 0 <= i < |steps| && steps[i].Begin? && steps[i].n == n;
      assert (steps + [x])[i] == steps[i] && (steps + [x])[|steps|] == End(n);
    }
  }

  /** Progress of node `n` with a file it stored at the start. */
  ghost predicate Progress(p: Placed, steps: seq<Step>, s: State, n: string, f: string)
    requires n in s.phase
  {
    || Settled(p, s, n, f)
    || (!FullPass(steps, n) && if Begun(steps, n) then Ahead(s.phase[n], f) else Has(s, n, f))
  }

  /** Since the start no copy appeared off its placement or of a file nobody stored. */
  ghost predicate NoStrays(p: Placed, from: State, s: State)
  {
    && (forall n, f :: Has(s, n, f) ==> n in p(f) || Has(from, n, f))
    && (forall n, f :: Has(s, n, f) ==> Held(from, f))
  }

  ghost predicate Tracked(p: Placed, from: State, steps: seq<Step>, s: State)
  {
    && Inv(Only(p), s) && s.phase.Keys == from.phase.Keys && from.disk.Keys == from.phase.Keys
    && NoStrays(p, from, s)
    && forall n, f :: Has(from, n, f) ==> Progress(p, steps, s, n, f)
  }

  /** A deletion leaves its node settled: off the list, with every listed node holding the file. */
  lemma DeletionSettles(p: Placed, s: State, step: Step, n: string, f: string)
    requires Inv(Only(p), s) && Enabled(Only(p), s, step)
    requires Has(s, n, f) && !Has(Apply(Only(p), s, step), n, f)
    ensures step == Finish(n) && s.phase[n].f == f && n !in p(f)
    ensures AllListedHold(p, Apply(Only(p), s, step), f)
  {
    CommonOnly(p);
    Removes(Only(p), s, step, n, f);
    assert s.phase[n].arr == p(f);
  }

  lemma SettledStays(p: Placed, s: State, step: Step, n: string, f: string)
    requires Inv(Only(p), s) && Enabled(Only(p), s, step) && !step.Put? && Settled(p, s, n, f)
    ensures Settled(p, Apply(Only(p), s, step), n, f)
  {
    forall d | d in p(f) ensures Has(Apply(Only(p), s, step), d, f) {
      if !Has(Apply(Only(p), s, step), d, f) { DeletionSettles(p, s, step, d, f); }
    }
    if step.Upload? {
      assert OwnOk(s, step.n) && AnswerOk(Only(p), s, step.n);
      assert s.phase[step.n].arr == p(s.phase[step.n].f);
    }
  }

  lemma {:induction false} NoStraysStep(p: Placed, from: State, steps: seq<Step>, s: State, step: Step)
    requires Tracked(p, from, steps, s) && Enabled(Only(p), s, step) && !step.Put?
    ensures NoStrays(p, from, Apply(Only(p), s, step))
  {
    var t := Apply(Only(p), s, step);
    forall n, f | Has(t, n, f) ensures (n in p(f) || Has(from, n, f)) && Held(from, f) {
      if !Has(s, n, f) {
        Gains(Only(p), s, step, n, f);
        assert AnswerOk(Only(p), s, step.n);
      }
    }
  }

  lemma ProgressStep(p: Placed, from: State, steps: seq<Step>, s: State, step: Step, n: string, f: string)
    requires Tracked(p, from, steps, s) && Enabled(Only(p), s, step) && !step.Put? && Has(from, n, f)
    ensures Progress(p, steps + [step], Apply(Only(p), s, step), n, f)
  {
    BegunNext(steps, step, n);
    FullPassNext(steps, step, n);
    assert Progress(p, steps, s, n, f);
    if Settled(p, s, n, f) {
      SettledStays(p, s, step, n, f);
    } else if Begun(steps, n) {
      AheadStep(p, s, step, n, f);
    } else if !Has(Apply(Only(p), s, step), n, f) {
      DeletionSettles(p, s, step, n, f);
    }
  }

  lemma AheadStep(p: Placed, s: State, step: Step, n: string, f: string)
    requires Inv(Only(p), s) && Enabled(Only(p), s, step) && n in s.phase && Ahead(s.phase[n], f)
    ensures step != End(n)
    ensures Ahead(Apply(Only(p), s, step).phase[n], f) || Settled(p, Apply(Only(p), s, step), n, f)
  {
    if step == Finish(n) && s.phase[n].f == f {
      var t := Apply(Only(p), s, step);
      CommonOnly(p);
      assert OwnOk(s, n) && AnswerOk(Only(p), s, n);
      var arr := s.phase[n].arr;
      assert arr == p(f) && arr[..|arr|] == arr;
      forall d | d in p(f) ensures Has(t, d, f) {
        var i :| 0 <= i < |arr| && arr[i] == d;
        assert Has(s, arr[i], f);
      }
    }
  }

  lemma TrackedStep(p: Placed, from: State, steps: seq<Step>, s: State, step: Step)
    requires Tracked(p, from, steps, s) && Enabled(Only(p), s, step) && !step.Put?
    ensures Tracked(p, from, steps + [step], Apply(Only(p), s, step))
  {
    StepKeepsInv(Only(p), s, step);
    NoStraysStep(p, from, steps, s, step);
    forall n, f | Has(from, n, f) ensures Progress(p, steps + [step], Apply(Only(p), s, step), n, f) {
      ProgressStep(p, from, steps, s, step, n, f);
    }
  }

  lemma {:induction false} RunTracked(p: Placed, from: State, steps: seq<Step>, s: State)
    requires Inv(Only(p), from) && Run(Only(p), from, steps, s) && NoPut(steps)
    ensures Tracked(p, from, steps, s)
    decreases |steps|
  {
    if steps != [] {
      var last := |steps| - 1;
      var before :| Run(Only(p), from, steps[..last], before) && Enabled(Only(p), before, steps[last])
                    && s == Apply(Only(p), before, steps[last]);
      NoPutSplit(steps);
      RunTracked(p, from, steps[..last], before);
      TrackedStep(p, from, steps[..last], before, steps[last]);
    }
  }

  /** Every node that stored `f` at the start has gone through a whole pass since. */
  ghost predicate AllPassed(from: State, steps: seq<Step>, f: string)
  {
    forall n :: Has(from, n, f) ==> FullPass(steps, n)
  }

  /** From any state of running passes: once every node that stored `f` has begun and finished a
      whole pass, the holders of `f` are exactly its placement, and nobody holds a file that nobody
      stored. The run is arbitrary, so this goes on holding through all further passes. */
  lemma {:induction false} OnePassEach(p: Placed, from: State, steps: seq<Step>, s: State, f: string)
    requires Inv(Only(p), from) && Run(Only(p), from, steps, s) && NoPut(steps) && AllPassed(from, steps, f)
    ensures forall n :: Has(s, n, f) <==> Held(from, f) && n in p(f)
  {
    RunTracked(p, from, steps, s);
    forall n ensures Has(s, n, f) <==> Held(from, f) && n in p(f) {
      assert Has(from, n, f) ==> Progress(p, steps, s, n, f);
      if Held(from, f) && n in p(f) {
        var m :| Has(from, m, f);
        assert Progress(p, steps, s, m, f);
      }
    }
  }

  lemma FullPassStays(steps: seq<Step>, more: seq<Step>, n: string)
    requires FullPass(steps, n)
    ensures FullPass(steps + more, n)
  {
    var i, j :| 0 <= i < j < |steps| && steps[i].Begin? && steps[i].n == n && steps[j] == End(n);
    assert (steps + more)[i] == steps[i] && (steps + more)[j] == steps[j];
  }

  lemma FullPassLater(steps: seq<Step>, more: seq<Step>, n: string)
    requires FullPass(more, n)
    ensures FullPass(steps + more, n)
  {
    var i, j :| 0 <= i < j < |more| && more[i].Begin? && more[i].n == n && more[j] == End(n);
    assert (steps + more)[|steps| + i] == more[i] && (steps + more)[|steps| + j] == more[j];
  }

  /** From then on no pass changes who holds the file. */
  lemma {:induction false} NothingFurther(p: Placed, from: State, steps: seq<Step>, s: State,
          more: seq<Step>, t: State, f: string)
    requires Inv(Only(p), from) && Run(Only(p), from, steps, s) && NoPut(steps) && AllPassed(from, steps, f)
    requires Run(Only(p), s, more, t) && NoPut(more)
    ensures forall n :: Has(t, n, f) <==> Has(s, n, f)
  {
    RunJoins(Only(p), from, steps, s, more, t);
    forall n | Has(from, n, f) ensures FullPass(steps + more, n) { FullPassStays(steps, more, n); }
    OnePassEach(p, from, steps, s, f);
    OnePassEach(p, from, steps + more, t, f);
  }

  // ----- reading what was put

  ghost predicate ListedHold(p: Placed, s: State, f: string, c: string)
  {
    forall d :: d in p(f) ==> Has(s, d, f) && s.disk[d][f] == c
  }

  /** Every upload of `f` still to come from a running pass carries the content `c`. */
  ghost predicate PendingCarry(s: State, f: string, c: string)
  {
    forall n :: n in s.phase && s.phase[n].Uploading? && s.phase[n].f == f ==> Has(s, n, f) && s.disk[n][f] == c
  }

  /** With all listed nodes holding the file no check finds it missing. */
  lemma NoUploadDecided(p: Placed, s: State, step: Step, n: string, f: string, c: string)
    requires Inv(Only(p), s) && Enabled(Only(p), s, step) && !step.Put? && ListedHold(p, s, f, c)
    requires n in s.phase && n in Apply(Only(p), s, step).phase
    requires Apply(Only(p), s, step).phase[n].Uploading? && Apply(Only(p), s, step).phase[n].f == f
    ensures s.phase[n] == Apply(Only(p), s, step).phase[n]
  {
    assert OwnOk(s, n) && AnswerOk(Only(p), s, n);
  }

  lemma ListedContentStays(p: Placed, s: State, step: Step, f: string, c: string, d: string)
    requires Inv(Only(p), s) && Enabled(Only(p), s, step) && !step.Put?
    requires ListedHold(p, s, f, c) && PendingCarry(s, f, c) && d in p(f)
    ensures Has(Apply(Only(p), s, step), d, f) && Apply(Only(p), s, step).disk[d][f] == c
  {
    CommonOnly(p);
    if !Has(Apply(Only(p), s, step), d, f) { Removes(Only(p), s, step, d, f); }
  }

  lemma PendingContentStays(p: Placed, s: State, step: Step, n: string, f: string, c: string)
    requires Inv(Only(p), s) && Enabled(Only(p), s, step) && !step.Put?
    requires PendingCarry(s, f, c) && Has(s, n, f) && s.disk[n][f] == c
    requires n in s.phase && s.phase[n].Uploading? && Apply(Only(p), s, step).phase.Keys == s.phase.Keys
    requires Apply(Only(p), s, step).phase[n] == s.phase[n]
    ensures Has(Apply(Only(p), s, step), n, f) && Apply(Only(p), s, step).disk[n][f] == c
  {
  }

  lemma StepKeepsContent(p: Placed, s: State, step: Step, f: string, c: string)
    requires Inv(Only(p), s) && Enabled(Only(p), s, step) && !step.Put?
    requires ListedHold(p, s, f, c) && PendingCarry(s, f, c)
    ensures ListedHold(p, Apply(Only(p), s, step), f, c) && PendingCarry(Apply(Only(p), s, step), f, c)
  {
    var t := Apply(Only(p), s, step);
    StepKeepsInv(Only(p), s, step);
    forall d | d in p(f) ensures Has(t, d, f) && t.disk[d][f] == c { ListedContentStays(p, s, step, f, c, d); }
    forall n | n in t.phase && t.phase[n].Uploading? && t.phase[n].f == f ensures Has(t, n, f) && t.disk[n][f] == c {
      NoUploadDecided(p, s, step, n, f, c);
      PendingContentStays(p, s, step, n, f, c);
    }
  }

  lemma {:induction false} RunKeepsContent(p: Placed, s: State, steps: seq<Step>, t: State, f: string, c: string)
    requires Inv(Only(p), s) && ListedHold(p, s, f, c) && PendingCarry(s, f, c)
    requires Run(Only(p), s, steps, t) && NoPut(steps)
    ensures ListedHold(p, t, f, c) && PendingCarry(t, f, c) && Inv(Only(p), t)
    decreases |steps|
  {
    if steps != [] {
      var last := |steps| - 1;
      var before :| Run(Only(p), s, steps[..last], before) && Enabled(Only(p), before, steps[last])
                    && t == Apply(Only(p), before, steps[last]);
      NoPutSplit(steps);
      RunKeepsContent(p, s, steps[..last], before, f, c);
      StepKeepsContent(p, before, steps[last], f, c);
      StepKeepsInv(Only(p), before, steps[last]);
    }
  }

  /** An upload decided before the put overwrites it. */
  lemma StaleUpload(p: Placed, s: State, f: string, c: string, n: string)
    requires Inv(Only(p), s) && n in s.phase && s.phase[n].Uploading? && s.phase[n].f == f
    requires Has(s, n, f) ==> s.disk[n][f] != c
    ensures exists steps, t :: Run(Only(p), s, steps, t) && NoPut(steps) && !ListedHold(p, t, f, c)
  {
    assert OwnOk(s, n) && AnswerOk(Only(p), s, n);
    var d := s.phase[n].arr[s.phase[n].j];
    assert d in p(f);
    var steps := [Upload(n)];
    var t := Apply(Only(p), s, Upload(n));
    assert Run(Only(p), s, steps[..0], s);
    assert Run(Only(p), s, steps, t);
    assert NoPut(steps);
    assert t.disk[d][f] == s.disk[n][f];
  }

  /** Exactly when a completed put stays readable through every run of the monitors: no upload
      decided before it is still on its way with other content. */
  lemma {:induction false} PutStaysIff(p: Placed, s: State, f: string, c: string)
    requires Inv(Only(p), s) && ListedHold(p, s, f, c)
    ensures (forall steps, t :: Run(Only(p), s, steps, t) && NoPut(steps) ==> ListedHold(p, t, f, c))
            <==> PendingCarry(s, f, c)
  {
    if PendingCarry(s, f, c) {
      forall steps, t | Run(Only(p), s, steps, t) && NoPut(steps) ensures ListedHold(p, t, f, c) {
        RunKeepsContent(p, s, steps, t, f, c);
      }
    } else {
      var n :| n in s.phase && s.phase[n].Uploading? && s.phase[n].f == f && !(Has(s, n, f) && s.disk[n][f] == c);
      StaleUpload(p, s, f, c, n);
    }
  }

  /** The first `j` listed nodes have been given `c`, nobody else anything. */
  ghost predicate PutSoFar(p: Placed, s: State, f: string, c: string, j: nat, t: State)
    requires j <= |p(f)|
  {
    && t.phase == s.phase && t.disk.Keys == s.disk.Keys
    && (forall i :: 0 <= i < j ==> Has(t, p(f)[i], f) && t.disk[p(f)[i]][f] == c)
    && (forall n :: n in s.disk && n !in p(f) ==> t.disk[n] == s.disk[n])
  }

  lemma PutOne(p: Placed, s: State, f: string, c: string, j: nat, t: State)
    requires j < |p(f)| && p(f)[j] in s.disk && PutSoFar(p, s, f, c, j, t)
    ensures Enabled(Only(p), t, Put(p(f)[j], f, c))
    ensures PutSoFar(p, s, f, c, j + 1, Apply(Only(p), t, Put(p(f)[j], f, c)))
  {
    assert p(f) in Only(p)(f) && p(f)[j] in p(f);
  }

  lemma {:induction false} PutAll(p: Placed, s: State, f: string, c: string, j: nat)
    returns (t: State, steps: seq<Step>)
    requires j <= |p(f)| && forall d :: d in p(f) ==> d in s.disk
    ensures Run(Only(p), s, steps, t) && PutSoFar(p, s, f, c, j, t)
  {
    if j == 0 {
      t, steps := s, [];
    } else {
      var before, first := PutAll(p, s, f, c, j - 1);
      var put := Put(p(f)[j - 1], f, c);
      PutOne(p, s, f, c, j - 1, before);
      RunStep(Only(p), s, first, before, put);
      t, steps := Apply(Only(p), before, put), first + [put];
    }
  }

  /** A first pass by `a`, which stores `f`, up to the check that finds the first listed node
      without it. */
  lemma UploadDecided(p: Placed, s: State, f: string, a: string) returns (t: State, steps: seq<Step>)
    requires p(f) != [] && a != p(f)[0] && p(f)[0] in s.disk && !Has(s, p(f)[0], f)
    requires a in s.disk && s.disk[a].Keys == {f} && a in s.phase && s.phase[a].Idle?
    requires a in s.known && |s.known[a]| >= QUORUM
    ensures Run(Only(p), s, steps, t)
    ensures t == s.(phase := s.phase[a := Uploading(f, p(f), 0, false, [])])
  {
    steps := Ask(Only(p), s, a, f, p(f));
    var asked := AtCheck(s, a, f, p(f), 0);
    assert asked.phase[a] == Checking(f, p(f), 0, false, []);
    t := Apply(Only(p), asked, Check(a));
    assert t.phase == s.phase[a := Uploading(f, p(f), 0, false, [])];
    RunStep(Only(p), s, steps, asked, Check(a));
    steps := steps + [Check(a)];
  }

  lemma PutEverywhere(p: Placed, s: State, f: string, c: string) returns (t: State, steps: seq<Step>)
    requires forall d :: d in p(f) ==> d in s.disk
    ensures Run(Only(p), s, steps, t) && t.phase == s.phase && ListedHold(p, t, f, c)
    ensures forall n :: n in s.disk && n !in p(f) ==> n in t.disk && t.disk[n] == s.disk[n]
  {
    t, steps := PutAll(p, s, f, c, |p(f)|);
    forall d | d in p(f) ensures Has(t, d, f) && t.disk[d][f] == c {
      var i :| 0 <= i < |p(f)| && p(f)[i] == d;
    }
  }

  /** Only `a` stores `f`, none of the listed nodes does. */
  lemma OneHolder(list: seq<string>, f: string, content: string, a: string) returns (s: State)
    requires a !in list && list != []
    ensures Fresh(s) && a in s.disk && s.disk[a] == map[f := content] && s.disk[a].Keys == {f}
    ensures a in s.phase && s.phase[a].Idle? && a in s.known && |s.known[a]| >= QUORUM
    ensures list[0] in s.disk && a != list[0] && forall d :: d in list ==> d in s.disk && !Has(s, d, f)
  {
    var others := set x | x in list;
    s := Resting(f, content, {a}, others);
    RestingFacts(f, content, {a}, others);
    assert list[0] in list && a in {a};
  }

  /** For every placed file there is a run that ends in a completed put with an older upload still on
      its way: a node finds the file missing elsewhere, the put stores it everywhere, and the upload
      decided before is still to come. */
  lemma {:induction false} StalePutReachable(p: Placed, f: string, c: string)
    returns (s: State, steps: seq<Step>, t: State)
    requires p(f) != []
    ensures Fresh(s) && Run(Only(p), s, steps, t) && ListedHold(p, t, f, c) && !PendingCarry(t, f, c)
  {
    var a := Outsider(p(f));
    s := OneHolder(p(f), f, c + ".", a);
    var mid, first := UploadDecided(p, s, f, a);
    var rest;
    t, rest := PutEverywhere(p, mid, f, c);
    RunJoins(Only(p), s, first, mid, rest, t);
    steps := first + rest;
    assert t.phase[a] == Uploading(f, p(f), 0, false, []);
    NotCarried(t, f, c, a);
  }

  lemma NotCarried(s: State, f: string, c: string, n: string)
    requires n in s.phase && s.phase[n].Uploading? && s.phase[n].f == f
    requires n in s.disk && s.disk[n] == map[f := c + "."]
    ensures !PendingCarry(s, f, c)
  {
    assert s.disk[n][f] == c + ".";
  }

  lemma {:induction false} Outsider(nodes: seq<string>) returns (a: string)
    ensures a !in nodes && forall x :: x in nodes ==> |x| < |a|
  {
    if nodes == [] {
      a := "a";
    } else {
      a := Outsider(nodes[1..]);
      a := a + nodes[0] + "a";
    }
  }

  ghost predicate Stores(disk: map<string, map<string, string>>, d: string, f: string) { d in disk && f in disk[d] }

  /** Place `i` of the answer, its trailing empty item excepted, is the first whose node stores the
      file. */
  ghost predicate FirstStoring(ips: seq<string>, i: nat, f: string, disk: map<string, map<string, string>>)
  {
    i < |ips| - 1 && Stores(disk, ips[i], f) && forall j :: 0 <= j < i ==> !Stores(disk, ips[j], f)
  }

  /** `find_file_remote`: the first node of the answer that reports the file, or the empty string when
      none does. */
  method FindFileRemote(ips: seq<string>, fileName: string, disk: map<string, map<string, string>>)
    returns (url: string)
    requires ips != []
    ensures url == FirstHolder(ips[..|ips| - 1], fileName, disk)
    ensures || (exists i: nat :: FirstStoring(ips, i, fileName, disk) && url == ips[i])
            || (url == "" && forall i :: 0 <= i < |ips| - 1 ==> !Stores(disk, ips[i], fileName))
  {
    for i := 0 to |ips| - 1
      invariant forall j :: 0 <= j < i ==> !Stores(disk, ips[j], fileName)
      invariant FirstHolder(ips[i..|ips| - 1], fileName, disk) == FirstHolder(ips[..|ips| - 1], fileName, disk)
    {
      assert ips[i..|ips| - 1][1..] == ips[i + 1..|ips| - 1];
      if ips[i] in disk && fileName in disk[ips[i]] {
        assert FirstStoring(ips, i, fileName, disk);
        return ips[i];
      }
    }
    url := "";
  }

  ghost function FirstHolder(ips: seq<string>, f: string, disk: map<string, map<string, string>>): string
  {
    if ips == [] then ""
    else if ips[0] in disk && f in disk[ips[0]] then ips[0]
    else FirstHolder(ips[1..], f, disk)
  }

  /** After a put, whatever the monitors do meanwhile, a reader that asks the master and then the
      listed nodes is sent to a node that holds exactly what was put. */
  lemma {:induction false} ReadAfterPut(p: Placed, s: State, steps: seq<Step>, t: State, f: string, c: string)
    requires Inv(Only(p), s) && ListedHold(p, s, f, c) && PendingCarry(s, f, c)
    requires Run(Only(p), s, steps, t) && NoPut(steps)
    requires p(f) != [] && Free(p(f), ';')
    ensures var answer := Split(Terminated(p(f), ';'), ';');
            var url := FirstHolder(answer[..|answer| - 1], f, t.disk);
            url in p(f) && Has(t, url, f) && t.disk[url][f] == c
  {
    RunKeepsContent(p, s, steps, t, f, c);
    SplitTerminated(p(f), ';');
    var answer := Split(Terminated(p(f), ';'), ';');
    assert answer[..|answer| - 1] == p(f);
    assert p(f)[0] in p(f);
  }
}
