/** After machines have failed: which monitors can still go on, and exactly when they can bring a file
    back to all the nodes a placement names. */
module Recovery {
  import opened Text
  import opened Replication
  import opened Convergence
  import opened Sets

  /** The nodes a pass still has to visit for its current file. */
  ghost function Pending(ph: Phase): seq<string>
  {
    if Over(ph) && ph.j <= |ph.arr| then ph.arr[ph.j..] else []
  }

  ghost function Rest(ph: Phase): seq<string>
  {
    if ph.Idle? || ph.Hung? then [] else ph.rest
  }

  ghost predicate Exist(s: State, nodes: seq<string>)
  {
    forall d :: d in nodes ==> d in s.disk
  }

  /** A pass with the files `rest` before it gets to `f`, or to its end if `f` is not among them: no
      file on the way is placed on a node that does not exist. */
  ghost predicate OpenTo(q: Placed, s: State, rest: seq<string>, f: string)
    decreases |rest|
  {
    rest == [] || rest[0] == f || (Exist(s, q(rest[0])) && OpenTo(q, s, rest[1..], f))
  }

  /** The monitor of `n` will come to ask for `f` anew, if `n` then stores it: it does not wait for a
      node that does not exist, and can get to know enough members to begin passes. */
  ghost predicate Free(q: Placed, s: State, n: string, f: string)
  {
    && n in s.phase && !s.phase[n].Hung? && |World(s)| >= QUORUM
    && Exist(s, Pending(s.phase[n])) && OpenTo(q, s, Rest(s.phase[n]), f)
  }

  ghost predicate OnFile(ph: Phase, f: string)
  {
    Over(ph) && ph.f == f
  }

  /** `n` stores `f` and its running pass will not delete it on the answer it already has. */
  ghost predicate Keeps(s: State, n: string, f: string)
  {
    && Has(s, n, f) && n in s.phase
    && (OnFile(s.phase[n], f) ==> s.phase[n].needed || n in Pending(s.phase[n]))
  }

  /** A running pass of `n` over `f` gets to the `k`-th node it still has to visit. */
  ghost predicate Offers(s: State, n: string, f: string, k: nat)
  {
    && Has(s, n, f) && n in s.phase && OnFile(s.phase[n], f) && k < |Pending(s.phase[n])|
    && forall i :: 0 <= i <= k ==> Pending(s.phase[n])[i] in s.disk
  }

  ghost predicate Offered(s: State, d: string, f: string)
  {
    exists n, k: nat :: Offers(s, n, f, k) && Pending(s.phase[n])[k] == d
  }

  /** A free monitor that keeps its copy, or is going to be given one. */
  ghost predicate Able(q: Placed, s: State, d: string, f: string)
  {
    Free(q, s, d, f) && (Keeps(s, d, f) || Offered(s, d, f))
  }

  ghost predicate HeldOrOffered(q: Placed, s: State, f: string)
  {
    forall d :: d in q(f) ==> Has(s, d, f) || Offered(s, d, f)
  }

  /** What it takes to bring `f` to all nodes of `q(f)`: the nodes exist, and some monitor is able to, or
      the passes already running happen to do it. */
  ghost predicate Restorable(q: Placed, s: State, f: string)
  {
    && Exist(s, q(f))
    && (HeldOrOffered(q, s, f) || exists d :: Able(q, s, d, f))
  }

  // ----- no step makes a file restorable

  lemma ExistBefore(q: Placed, s: State, step: Step, nodes: seq<string>)
    requires Sane(s) && Enabled(Only(q), s, step) && Exist(Apply(Only(q), s, step), nodes)
    ensures Exist(s, nodes)
  {
    StepShrinks(Only(q), s, step);
  }

  lemma WorldBefore(q: Placed, s: State, step: Step)
    requires Sane(s) && Enabled(Only(q), s, step)
    ensures World(Apply(Only(q), s, step)) <= World(s)
    ensures |World(Apply(Only(q), s, step))| <= |World(s)|
  {
    StepShrinks(Only(q), s, step);
    SubsetSize(World(Apply(Only(q), s, step)), World(s));
  }

  lemma {:induction false} OpenBefore(q: Placed, s: State, step: Step, rest: seq<string>, f: string)
    requires Sane(s) && Enabled(Only(q), s, step) && OpenTo(q, Apply(Only(q), s, step), rest, f)
    ensures OpenTo(q, s, rest, f)
    decreases |rest|
  {
    if rest != [] && rest[0] != f {
      ExistBefore(q, s, step, q(rest[0]));
      OpenBefore(q, s, step, rest[1..], f);
    }
  }

  lemma PendingSplit(ph: Phase)
    requires Over(ph) && ph.j < |ph.arr|
    ensures Pending(ph) == [ph.arr[ph.j]] + ph.arr[ph.j + 1..]
  {
  }

  lemma ExistSplit(s: State, ph: Phase)
    requires Over(ph) && ph.j < |ph.arr|
    requires ph.arr[ph.j] in s.disk && Exist(s, ph.arr[ph.j + 1..])
    ensures Exist(s, Pending(ph))
  {
    PendingSplit(ph);
  }

  /** The part of `Free` that a step of the monitor itself may change. */
  lemma OwnFreeBefore(q: Placed, s: State, step: Step, f: string)
    requires Sane(s) && Enabled(Only(q), s, step) && !step.Put? && step.n in Apply(Only(q), s, step).phase
    requires var t := Apply(Only(q), s, step);
             !t.phase[step.n].Hung? && Exist(s, Pending(t.phase[step.n])) && OpenTo(q, s, Rest(t.phase[step.n]), f)
    ensures step.n in s.phase && !s.phase[step.n].Hung?
    ensures Exist(s, Pending(s.phase[step.n])) && OpenTo(q, s, Rest(s.phase[step.n]), f)
  {
    var n := step.n;
    var ph := s.phase[n];
    assert OwnOk(s, n);
    match step
    case Query(_, _) => OpenSplit(q, s, ph.rest, f);
    case Check(_) => OwnFreeCheck(q, s, n, f);
    case Upload(_) => ExistSplit(s, ph);
    case _ =>
  }

  lemma OwnFreeCheck(q: Placed, s: State, n: string, f: string)
    requires Sane(s) && Enabled(Only(q), s, Check(n))
    requires Exist(s, Pending(Apply(Only(q), s, Check(n)).phase[n]))
    ensures Exist(s, Pending(s.phase[n]))
  {
    var ph := s.phase[n];
    if Apply(Only(q), s, Check(n)).phase[n].Checking? { ExistSplit(s, ph); }
  }

  lemma OpenSplit(q: Placed, s: State, rest: seq<string>, f: string)
    requires rest != []
    ensures Exist(s, q(rest[0])) && OpenTo(q, s, rest[1..], f) ==> OpenTo(q, s, rest, f)
  {
  }

  lemma FreeBefore(q: Placed, s: State, step: Step, d: string, f: string)
    requires Sane(s) && Enabled(Only(q), s, step) && Free(q, Apply(Only(q), s, step), d, f)
    ensures Free(q, s, d, f)
  {
    var t := Apply(Only(q), s, step);
    StepKeepsSane(Only(q), s, step);
    assert d in t.phase.Keys;
    CopiesStay(Only(q), s, step, d);
    WorldBefore(q, s, step);
    ExistBefore(q, s, step, Pending(t.phase[d]));
    OpenBefore(q, s, step, Rest(t.phase[d]), f);
    if !step.Put? && step.n == d { OwnFreeBefore(q, s, step, f); }
  }

  lemma BusyWorld(s: State, n: string)
    requires Sane(s) && n in s.phase && !s.phase[n].Idle?
    ensures |World(s)| >= QUORUM
  {
    assert s.known[n] <= World(s);
    SubsetSize(s.known[n], World(s));
  }

  /** A copy that is there after a step was there before, or was on offer. */
  lemma HasBefore(q: Placed, s: State, step: Step, d: string, f: string)
    requires Sane(s) && Enabled(Only(q), s, step) && !step.Put? && Has(Apply(Only(q), s, step), d, f)
    ensures Has(s, d, f) || Offered(s, d, f)
  {
    if !Has(s, d, f) {
      Gains(Only(q), s, step, d, f);
      var n := step.n;
      assert Pending(s.phase[n])[0] == d;
      assert Offers(s, n, f, 0);
    }
  }

  lemma KeepsBefore(q: Placed, s: State, step: Step, d: string, f: string)
    requires Sane(s) && Enabled(Only(q), s, step) && !step.Put? && Keeps(Apply(Only(q), s, step), d, f)
    requires !Apply(Only(q), s, step).phase[d].Hung?
    ensures Keeps(s, d, f) || Offered(s, d, f)
  {
    HasBefore(q, s, step, d, f);
    CopiesStay(Only(q), s, step, d);
    if Has(s, d, f) && step.n == d { OwnKeepsBefore(q, s, step, f); }
  }

  lemma OwnKeepsBefore(q: Placed, s: State, step: Step, f: string)
    requires Sane(s) && Enabled(Only(q), s, step) && !step.Put?
    requires Has(s, step.n, f) && Keeps(Apply(Only(q), s, step), step.n, f)
    requires !Apply(Only(q), s, step).phase[step.n].Hung?
    ensures Keeps(s, step.n, f)
  {
    var n := step.n;
    var ph := s.phase[n];
    assert OwnOk(s, n);
    match step
    case Check(_) => PendingSplit(ph);
    case Upload(_) => PendingSplit(ph);
    case _ =>
  }

  /** What is on offer after a step was on offer before, unless a monitor has just asked for `f`, and
      then that monitor was able already. */
  lemma OfferedBefore(q: Placed, s: State, step: Step, d: string, f: string)
    requires Sane(s) && Enabled(Only(q), s, step) && !step.Put? && Offered(Apply(Only(q), s, step), d, f)
    ensures Offered(s, d, f) || exists m :: Able(q, s, m, f)
  {
    var t := Apply(Only(q), s, step);
    StepKeepsSane(Only(q), s, step);
    var n, k: nat :| Offers(t, n, f, k) && Pending(t.phase[n])[k] == d;
    CopiesStay(Only(q), s, step, n);
    StepShrinks(Only(q), s, step);
    assert OwnOk(s, n);
    if step.n != n {
      assert Offers(s, n, f, k);
    } else {
      OwnOfferBefore(q, s, step, f, k);
    }
  }

  lemma OwnOfferBefore(q: Placed, s: State, step: Step, f: string, k: nat)
    requires Sane(s) && Enabled(Only(q), s, step) && !step.Put? && Offers(Apply(Only(q), s, step), step.n, f, k)
    ensures Offered(s, Pending(Apply(Only(q), s, step).phase[step.n])[k], f) || Able(q, s, step.n, f)
  {
    if step.Query? {
      AskedIsAble(q, s, step, f);
    } else {
      var t := Apply(Only(q), s, step);
      var i := PendingBefore(q, s, step, f, k);
      StepShrinks(Only(q), s, step);
      OfferAhead(s, t, step.n, f, k, i);
    }
  }

  lemma AskedIsAble(q: Placed, s: State, step: Step, f: string)
    requires Sane(s) && Enabled(Only(q), s, step) && step.Query?
    requires Has(s, step.n, f) && OnFile(Apply(Only(q), s, step).phase[step.n], f)
    ensures Able(q, s, step.n, f)
  {
    assert OwnOk(s, step.n);
    BusyWorld(s, step.n);
    assert Free(q, s, step.n, f);
  }

  /** A step of a monitor within its file leaves the nodes still to visit, or takes off the first. */
  lemma PendingBefore(q: Placed, s: State, step: Step, f: string, k: nat) returns (i: nat)
    requires Sane(s) && Enabled(Only(q), s, step) && !step.Put? && !step.Query?
    requires Offers(Apply(Only(q), s, step), step.n, f, k)
    ensures step.n in s.phase && Has(s, step.n, f) && OnFile(s.phase[step.n], f)
    ensures k <= i <= k + 1 && i < |Pending(s.phase[step.n])|
    ensures var left := Pending(Apply(Only(q), s, step).phase[step.n]);
            if i == k then Pending(s.phase[step.n]) == left
            else Pending(s.phase[step.n])[0] in s.disk && Pending(s.phase[step.n])[1..] == left
  {
    var ph := s.phase[step.n];
    var t := Apply(Only(q), s, step);
    assert OwnOk(s, step.n);
    i := if Over(ph) && t.phase[step.n].j == ph.j then k else k + 1;
  }

  lemma OfferAhead(s: State, t: State, n: string, f: string, k: nat, i: nat)
    requires Offers(t, n, f, k) && n in s.phase && Has(s, n, f) && OnFile(s.phase[n], f) && t.disk.Keys <= s.disk.Keys
    requires i < |Pending(s.phase[n])| && k <= i <= k + 1
    requires if i == k then Pending(s.phase[n]) == Pending(t.phase[n])
             else Pending(s.phase[n])[0] in s.disk && Pending(s.phase[n])[1..] == Pending(t.phase[n])
    ensures Offered(s, Pending(t.phase[n])[k], f)
  {
    var left := Pending(s.phase[n]);
    forall j | 0 <= j <= i ensures left[j] in s.disk {
      if i == k + 1 && j > 0 { assert left[j] == left[1..][j - 1]; }
    }
    assert Offers(s, n, f, i);
  }

  lemma RestorableBefore(q: Placed, s: State, step: Step, f: string)
    requires Sane(s) && Enabled(Only(q), s, step) && !step.Put? && Restorable(q, Apply(Only(q), s, step), f)
    ensures Restorable(q, s, f)
  {
    var t := Apply(Only(q), s, step);
    ExistBefore(q, s, step, q(f));
    if d :| Able(q, t, d, f) {
      FreeBefore(q, s, step, d, f);
      if Keeps(t, d, f) { KeepsBefore(q, s, step, d, f); } else { OfferedBefore(q, s, step, d, f); }
      if Keeps(s, d, f) || Offered(s, d, f) { assert Able(q, s, d, f); }
    } else if !exists m :: Able(q, s, m, f) {
      forall d | d in q(f) ensures Has(s, d, f) || Offered(s, d, f) {
        if Has(t, d, f) { HasBefore(q, s, step, d, f); } else { OfferedBefore(q, s, step, d, f); }
      }
    }
  }

  lemma {:induction false} RunRestorable(q: Placed, s: State, steps: seq<Step>, t: State, f: string)
    requires Sane(s) && Run(Only(q), s, steps, t) && NoPut(steps) && Restorable(q, t, f)
    ensures Restorable(q, s, f)
    decreases |steps|
  {
    if steps != [] {
      var init, x := steps[..|steps| - 1], steps[|steps| - 1];
      var before :| Run(Only(q), s, init, before) && Enabled(Only(q), before, x) && t == Apply(Only(q), before, x);
      NoPutSplit(steps);
      NodesShrink(Only(q), s, init, before);
      RestorableBefore(q, before, x, f);
      RunRestorable(q, s, init, before, f);
    }
  }

  // ----- how a file is brought back

  /** Only the monitor of `n` has moved; no machine and no other node's copy was lost. */
  ghost predicate Moved(s: State, t: State, n: string)
  {
    && Sane(t) && t.disk.Keys == s.disk.Keys && t.phase.Keys == s.phase.Keys && World(s) <= World(t)
    && (forall m :: m in s.phase && m != n ==> t.phase[m] == s.phase[m])
    && forall m, g :: m != n && Has(s, m, g) ==> Has(t, m, g)
  }

  /** One step of a running pass that does not wait. */
  ghost predicate Goes(q: Placed, s: State, n: string, step: Step)
    requires n in s.phase
  {
    !s.phase[n].Idle? && !s.phase[n].Hung? && step == NextStep(q, n, s.phase[n]) && Enabled(Only(q), s, step)
    && (step.Upload? ==> s.phase[n].arr[s.phase[n].j] in s.disk)
  }

  /** The one step a running pass can take. */
  ghost function NextStep(q: Placed, n: string, ph: Phase): Step
    requires !ph.Idle? && !ph.Hung?
  {
    match ph
    case Listed(rest) => if rest == [] then End(n) else Query(n, q(rest[0]))
    case Checking(f, arr, j, _, _) => if j < |arr| then Check(n) else Finish(n)
    case Uploading(_, _, _, _, _) => Upload(n)
  }

  lemma CanGo(q: Placed, s: State, n: string)
    requires Sane(s) && n in s.phase && !s.phase[n].Idle? && !s.phase[n].Hung?
    requires Pending(s.phase[n]) == [] || Pending(s.phase[n])[0] in s.disk
    ensures Goes(q, s, n, NextStep(q, n, s.phase[n]))
  {
    assert OwnOk(s, n);
    match s.phase[n]
    case Listed(rest) => if rest != [] { assert q(rest[0]) in Only(q)(rest[0]); }
    case Checking(f, arr, j, _, _) => if j < |arr| { PendingSplit(s.phase[n]); }
    case Uploading(f, arr, j, _, _) => PendingSplit(s.phase[n]);
  }

  lemma GoesMoves(q: Placed, s: State, n: string, step: Step)
    requires Sane(s) && n in s.phase && Goes(q, s, n, step)
    ensures Moved(s, Apply(Only(q), s, step), n)
  {
    var t := Apply(Only(q), s, step);
    StepKeepsSane(Only(q), s, step);
    assert t.disk.Keys == s.disk.Keys && t.known == s.known;
    forall m, g | m != n && Has(s, m, g) ensures Has(t, m, g) {
      if !Has(t, m, g) { GoesAway(Only(q), s, step, m, g); }
    }
  }

  lemma MovedAgain(s: State, t: State, u: State, n: string)
    requires Moved(s, t, n) && Moved(t, u, n) && SameNodes(s)
    ensures Moved(s, u, n)
  {
  }

  /** A run of monitor steps. */
  ghost predicate Alone(q: Placed, s: State, steps: seq<Step>, t: State)
  {
    Run(Only(q), s, steps, t) && NoPut(steps)
  }

  lemma AloneOne(q: Placed, s: State, step: Step)
    requires Enabled(Only(q), s, step) && !step.Put?
    ensures Alone(q, s, [step], Apply(Only(q), s, step))
  {
    RunOne(Only(q), s, step);
  }

  lemma AloneJoins(q: Placed, s: State, a: seq<Step>, t: State, b: seq<Step>, u: State)
    requires Alone(q, s, a, t) && Alone(q, t, b, u)
    ensures Alone(q, s, a + b, u)
  {
    RunJoins(Only(q), s, a, t, b, u);
    NoPutJoins(a, b);
  }

  // ----- a running pass over `f` brings it to the nodes it still has to visit

  /** `n` is over `f`, keeps storing it, and has the nodes `left` still to visit. */
  ghost predicate Visiting(s: State, n: string, f: string, left: seq<string>)
  {
    n in s.phase && OnFile(s.phase[n], f) && Pending(s.phase[n]) == left && Has(s, n, f)
  }

  /** Copies only grow while `n` visits. */
  ghost predicate Grown(s: State, t: State)
  {
    forall m, g :: Has(s, m, g) ==> Has(t, m, g)
  }

  ghost predicate Visits(q: Placed, s: State, n: string, steps: seq<Step>, t: State)
  {
    Alone(q, s, steps, t) && Moved(s, t, n) && Grown(s, t)
  }

  lemma VisitsJoin(q: Placed, s: State, n: string, a: seq<Step>, t: State, b: seq<Step>, u: State)
    requires SameNodes(s) && Visits(q, s, n, a, t) && Visits(q, t, n, b, u)
    ensures Visits(q, s, n, a + b, u)
  {
    AloneJoins(q, s, a, t, b, u);
    MovedAgain(s, t, u, n);
  }

  lemma CheckVisits(q: Placed, s: State, n: string, f: string)
    requires Sane(s) && n in s.phase && OnFile(s.phase[n], f) && s.phase[n].Checking? && Pending(s.phase[n]) != []
    requires Pending(s.phase[n])[0] in s.disk
    ensures Goes(q, s, n, Check(n)) && NextStep(q, n, s.phase[n]) == Check(n)
    ensures var t := Apply(Only(q), s, Check(n));
            && t.disk == s.disk
            && (if Has(s, Pending(s.phase[n])[0], f) then Visiting(t, n, f, Pending(s.phase[n])[1..])
                else t.phase[n].Uploading? && Visiting(t, n, f, Pending(s.phase[n])))
  {
    CanGo(q, s, n);
    assert OwnOk(s, n);
    PendingSplit(s.phase[n]);
  }

  lemma UploadVisits(q: Placed, s: State, n: string, f: string)
    requires Sane(s) && n in s.phase && OnFile(s.phase[n], f) && s.phase[n].Uploading? && Pending(s.phase[n]) != []
    requires Pending(s.phase[n])[0] in s.disk
    ensures Goes(q, s, n, Upload(n)) && NextStep(q, n, s.phase[n]) == Upload(n)
    ensures var t := Apply(Only(q), s, Upload(n));
            Grown(s, t) && Visiting(t, n, f, Pending(s.phase[n])[1..]) && Has(t, Pending(s.phase[n])[0], f)
  {
    CanGo(q, s, n);
    assert OwnOk(s, n);
    PendingSplit(s.phase[n]);
  }

  /** One node visited. */
  lemma VisitOne(q: Placed, s: State, n: string, f: string) returns (steps: seq<Step>, t: State)
    requires Sane(s) && n in s.phase && OnFile(s.phase[n], f) && Pending(s.phase[n]) != []
    requires Pending(s.phase[n])[0] in s.disk
    ensures Visits(q, s, n, steps, t)
    ensures Visiting(t, n, f, Pending(s.phase[n])[1..]) && Has(t, Pending(s.phase[n])[0], f)
  {
    steps, t := [], s;
    if s.phase[n].Checking? {
      CheckVisits(q, s, n, f);
      GoesMoves(q, s, n, Check(n));
      AloneOne(q, s, Check(n));
      steps, t := [Check(n)], Apply(Only(q), s, Check(n));
    }
    if t.phase[n].Uploading? && Pending(t.phase[n]) == Pending(s.phase[n]) {
      var rest, u := UploadOne(q, t, n, f);
      VisitsJoin(q, s, n, steps, t, rest, u);
      steps, t := steps + rest, u;
    }
  }

  lemma UploadOne(q: Placed, s: State, n: string, f: string) returns (steps: seq<Step>, t: State)
    requires Sane(s) && n in s.phase && OnFile(s.phase[n], f) && s.phase[n].Uploading? && Pending(s.phase[n]) != []
    requires Pending(s.phase[n])[0] in s.disk
    ensures Visits(q, s, n, steps, t)
    ensures Visiting(t, n, f, Pending(s.phase[n])[1..]) && Has(t, Pending(s.phase[n])[0], f)
  {
    UploadVisits(q, s, n, f);
    GoesMoves(q, s, n, Upload(n));
    AloneOne(q, s, Upload(n));
    steps, t := [Upload(n)], Apply(Only(q), s, Upload(n));
  }

  ghost predicate HoldAll(s: State, nodes: seq<string>, f: string)
  {
    forall d :: d in nodes ==> Has(s, d, f)
  }

  /** The first `k` nodes visited. */
  lemma {:induction false} VisitAll(q: Placed, s: State, n: string, f: string, k: nat)
    returns (steps: seq<Step>, t: State)
    requires Sane(s) && n in s.phase && OnFile(s.phase[n], f) && k <= |Pending(s.phase[n])| && Has(s, n, f)
    requires Exist(s, Pending(s.phase[n])[..k])
    ensures Visits(q, s, n, steps, t)
    ensures Visiting(t, n, f, Pending(s.phase[n])[k..]) && HoldAll(t, Pending(s.phase[n])[..k], f)
    decreases k
  {
    var left := Pending(s.phase[n]);
    if k == 0 {
      steps, t := [], s;
    } else {
      FirstSplit(left, k);
      var first, mid := VisitOne(q, s, n, f);
      var rest;
      rest, t := VisitAll(q, mid, n, f, k - 1);
      VisitsJoin(q, s, n, first, mid, rest, t);
      steps := first + rest;
      SliceAgain(left, k);
    }
  }

  lemma FirstSplit<T>(a: seq<T>, k: nat)
    requires 1 <= k <= |a|
    ensures a[..k] == [a[0]] + a[1..][..k - 1]
  {
  }

  lemma SliceAgain<T>(a: seq<T>, k: nat)
    requires 1 <= k <= |a|
    ensures a[1..][k - 1..] == a[k..]
  {
  }

  // ----- a free monitor comes to ask for `f`

  ghost function StepsLeft(ph: Phase): nat
  {
    if ph.Checking? then 2 * |Pending(ph)| + 1 else if ph.Uploading? then 2 * |Pending(ph)| else 0
  }

  /** The pass comes closer to its end. */
  ghost predicate Closer(ph: Phase, was: Phase)
  {
    ph.Idle? || |Rest(ph)| < |Rest(was)| || (|Rest(ph)| == |Rest(was)| && StepsLeft(ph) < StepsLeft(was))
  }

  /** The query for `f` comes next. */
  ghost predicate Asks(ph: Phase, f: string)
  {
    ph.Listed? && ph.rest != [] && ph.rest[0] == f
  }

  lemma GoesOn(q: Placed, s: State, n: string, f: string)
    requires Sane(s) && n in s.phase && !s.phase[n].Idle? && Free(q, s, n, f) && !Asks(s.phase[n], f)
    ensures var step := NextStep(q, n, s.phase[n]);
            var t := Apply(Only(q), s, step);
            && Goes(q, s, n, step) && !step.Put? && Closer(t.phase[n], s.phase[n]) && !t.phase[n].Hung?
            && Exist(s, Pending(t.phase[n])) && OpenTo(q, s, Rest(t.phase[n]), f)
  {
    var ph := s.phase[n];
    assert OwnOk(s, n);
    CanGo(q, s, n);
    if Over(ph) && ph.j < |ph.arr| { PendingSplit(ph); }
  }

  lemma KeepsGoes(q: Placed, s: State, n: string, f: string)
    requires Sane(s) && n in s.phase && Over(s.phase[n]) && Keeps(s, n, f)
    requires Goes(q, s, n, NextStep(q, n, s.phase[n])) && n in Apply(Only(q), s, NextStep(q, n, s.phase[n])).phase
    ensures Keeps(Apply(Only(q), s, NextStep(q, n, s.phase[n])), n, f)
  {
    var ph := s.phase[n];
    assert OwnOk(s, n);
    if ph.j < |ph.arr| { PendingSplit(ph); }
  }

  lemma KeepsOn(q: Placed, s: State, n: string, f: string)
    requires Sane(s) && n in s.phase && !s.phase[n].Idle? && Free(q, s, n, f) && !Asks(s.phase[n], f) && Keeps(s, n, f)
    ensures Goes(q, s, n, NextStep(q, n, s.phase[n]))
    ensures Keeps(Apply(Only(q), s, NextStep(q, n, s.phase[n])), n, f)
  {
    assert OwnOk(s, n);
    GoesOn(q, s, n, f);
    if Over(s.phase[n]) { KeepsGoes(q, s, n, f); }
  }

  /** Existence and openness do not suffer while only one monitor moves and no machine is lost. */
  lemma {:induction false} OpenStays(q: Placed, s: State, t: State, rest: seq<string>, f: string)
    requires OpenTo(q, s, rest, f) && t.disk.Keys == s.disk.Keys
    ensures OpenTo(q, t, rest, f)
    decreases |rest|
  {
    if rest != [] && rest[0] != f { OpenStays(q, s, t, rest[1..], f); }
  }

  lemma FreeStays(q: Placed, s: State, t: State, n: string, m: string, f: string)
    requires Moved(s, t, n) && m in s.phase && t.phase[m] == s.phase[m] && Free(q, s, m, f)
    ensures Free(q, t, m, f)
  {
    OpenStays(q, s, t, Rest(s.phase[m]), f);
    SubsetSize(World(s), World(t));
  }

  lemma FreeGoesOn(q: Placed, s: State, n: string, f: string)
    requires Sane(s) && n in s.phase && !s.phase[n].Idle? && Free(q, s, n, f) && !Asks(s.phase[n], f)
    ensures var step := NextStep(q, n, s.phase[n]);
            Goes(q, s, n, step) && !step.Put?
            && Free(q, Apply(Only(q), s, step), n, f) && Moved(s, Apply(Only(q), s, step), n)
            && Closer(Apply(Only(q), s, step).phase[n], s.phase[n])
  {
    var step := NextStep(q, n, s.phase[n]);
    GoesOn(q, s, n, f);
    GoesMoves(q, s, n, step);
    var t := Apply(Only(q), s, step);
    OpenStays(q, s, t, Rest(t.phase[n]), f);
    SubsetSize(World(s), World(t));
  }

  /** Having asked for `f`, a monitor brings it to all nodes of the placement. */
  lemma Serve(q: Placed, s: State, n: string, f: string) returns (steps: seq<Step>, t: State)
    requires Sane(s) && n in s.phase && Asks(s.phase[n], f) && Exist(s, q(f))
    ensures Alone(q, s, steps, t) && Moved(s, t, n) && AllListedHold(q, t, f)
  {
    assert OwnOk(s, n);
    CanGo(q, s, n);
    var step := Query(n, q(f));
    GoesMoves(q, s, n, step);
    AloneOne(q, s, step);
    var u := Apply(Only(q), s, step);
    assert Pending(u.phase[n]) == q(f) && Has(u, n, f);
    var rest;
    rest, t := VisitAll(q, u, n, f, |q(f)|);
    assert q(f)[..|q(f)|] == q(f);
    AloneJoins(q, s, [step], u, rest, t);
    MovedAgain(s, u, t, n);
    steps := [step] + rest;
  }

  lemma LearnAll(q: Placed, s: State, n: string) returns (steps: seq<Step>, t: State)
    requires Sane(s) && n in s.phase && |World(s)| >= QUORUM
    ensures Alone(q, s, steps, t) && Moved(s, t, n) && |t.known[n]| >= QUORUM
    ensures t.disk == s.disk && t.phase == s.phase
  {
    var learn := Learn(n, World(s));
    AloneOne(q, s, learn);
    StepKeepsSane(Only(q), s, learn);
    steps, t := [learn], Apply(Only(q), s, learn);
    SubsetSize(World(s), t.known[n]);
  }

  lemma BeginMoves(q: Placed, s: State, n: string, files: seq<string>) returns (steps: seq<Step>, t: State)
    requires Sane(s) && n in s.phase && s.phase[n].Idle? && |s.known[n]| >= QUORUM && Listing(files, s.disk[n].Keys)
    ensures steps == [Begin(n, files)] && Alone(q, s, steps, t) && Moved(s, t, n)
    ensures t == At(s, n, Listed(files))
  {
    AloneOne(q, s, Begin(n, files));
    StepKeepsSane(Only(q), s, Begin(n, files));
    steps, t := [Begin(n, files)], Apply(Only(q), s, Begin(n, files));
  }

  /** An idle monitor gets to know enough members and begins a pass with `f`. */
  lemma Start(q: Placed, s: State, n: string, f: string) returns (steps: seq<Step>, t: State)
    requires Sane(s) && Free(q, s, n, f) && s.phase[n].Idle? && Has(s, n, f)
    ensures Alone(q, s, steps, t) && Moved(s, t, n) && Asks(t.phase[n], f)
  {
    var first, u := LearnAll(q, s, n);
    var files := ListingFrom(u.disk[n].Keys, f);
    var rest;
    rest, t := BeginMoves(q, u, n, files);
    AloneJoins(q, s, first, u, rest, t);
    MovedAgain(s, u, t, n);
    steps := first + rest;
  }

  lemma ListingFrom(stored: set<string>, f: string) returns (files: seq<string>)
    requires f in stored
    ensures Listing(files, stored) && files != [] && files[0] == f
  {
    var others := ListingOf(stored - {f});
    files := [f] + others;
    forall i, j | 0 <= i < j < |files| ensures files[i] != files[j] {
      assert files[j] == others[j - 1] && others[j - 1] in others;
      if i > 0 { assert files[i] == others[i - 1]; }
    }
  }

  lemma ListingOf(stored: set<string>) returns (files: seq<string>)
    ensures Listing(files, stored)
  {
    files := Keys(stored);
    forall i, j | 0 <= i < j < |files| ensures files[i] != files[j] { OrderedDistinct(files, i, j); }
  }

  /** A free monitor that keeps its copy brings it to all nodes of the placement. */
  lemma {:induction false} Drive(q: Placed, s: State, n: string, f: string) returns (steps: seq<Step>, t: State)
    requires Sane(s) && Free(q, s, n, f) && Keeps(s, n, f) && Exist(s, q(f))
    ensures Alone(q, s, steps, t) && AllListedHold(q, t, f)
    decreases if s.phase[n].Idle? then 0 else 1, |Rest(s.phase[n])|, StepsLeft(s.phase[n])
  {
    if Asks(s.phase[n], f) {
      steps, t := Serve(q, s, n, f);
    } else if s.phase[n].Idle? {
      var first, mid := Start(q, s, n, f);
      var rest;
      rest, t := Serve(q, mid, n, f);
      AloneJoins(q, s, first, mid, rest, t);
      steps := first + rest;
    } else {
      var step := NextStep(q, n, s.phase[n]);
      FreeGoesOn(q, s, n, f);
      KeepsOn(q, s, n, f);
      AloneOne(q, s, step);
      var u := Apply(Only(q), s, step);
      var rest;
      rest, t := Drive(q, u, n, f);
      AloneJoins(q, s, [step], u, rest, t);
      steps := [step] + rest;
    }
  }

  // ----- copies on offer

  /** A pass over `f` that will delete its own copy, followed to that point. */
  lemma {:induction false} LetGo(q: Placed, s: State, n: string, f: string) returns (steps: seq<Step>, t: State)
    requires Sane(s) && Free(q, s, n, f) && Has(s, n, f) && !Keeps(s, n, f)
    ensures Alone(q, s, steps, t) && Moved(s, t, n) && Free(q, t, n, f) && !OnFile(t.phase[n], f)
    decreases StepsLeft(s.phase[n])
  {
    var step := NextStep(q, n, s.phase[n]);
    FreeGoesOn(q, s, n, f);
    AloneOne(q, s, step);
    steps, t := [step], Apply(Only(q), s, step);
    if !step.Finish? {
      LettingGo(q, s, n, f);
      var rest, u := LetGo(q, t, n, f);
      AloneJoins(q, s, steps, t, rest, u);
      MovedAgain(s, t, u, n);
      steps, t := steps + rest, u;
    }
  }

  lemma LettingGo(q: Placed, s: State, n: string, f: string)
    requires Sane(s) && Free(q, s, n, f) && Has(s, n, f) && !Keeps(s, n, f)
    ensures var step := NextStep(q, n, s.phase[n]);
            && Goes(q, s, n, step) && (step.Check? || step.Upload? || step.Finish?)
            && (!step.Finish? ==> var t := Apply(Only(q), s, step);
                                  Has(t, n, f) && !Keeps(t, n, f) && StepsLeft(t.phase[n]) < StepsLeft(s.phase[n]))
  {
    var ph := s.phase[n];
    assert OwnOk(s, n);
    GoesOn(q, s, n, f);
    if ph.j < |ph.arr| { PendingSplit(ph); }
  }

  /** What is on offer is given. */
  lemma Give(q: Placed, s: State, n: string, f: string, k: nat) returns (steps: seq<Step>, t: State)
    requires Sane(s) && Offers(s, n, f, k)
    ensures Alone(q, s, steps, t) && Moved(s, t, n) && Grown(s, t) && Has(t, Pending(s.phase[n])[k], f)
    ensures Visiting(t, n, f, Pending(s.phase[n])[k + 1..]) && HoldAll(t, Pending(s.phase[n])[..k + 1], f)
  {
    var left := Pending(s.phase[n]);
    forall d | d in left[..k + 1] ensures d in s.disk {
      var i :| 0 <= i < k + 1 && left[..k + 1][i] == d;
    }
    steps, t := VisitAll(q, s, n, f, k + 1);
    assert left[..k + 1][k] == left[k];
  }

  /** A free monitor that is going to be given a copy brings it to all nodes of the placement. */
  lemma DriveOffered(q: Placed, s: State, d: string, f: string) returns (steps: seq<Step>, t: State)
    requires Sane(s) && Free(q, s, d, f) && !Keeps(s, d, f) && Offered(s, d, f) && Exist(s, q(f))
    ensures Alone(q, s, steps, t) && AllListedHold(q, t, f)
  {
    var n, k: nat :| Offers(s, n, f, k) && Pending(s.phase[n])[k] == d;
    assert OwnOk(s, d);
    var u, first := s, [];
    if Has(s, d, f) {
      assert n != d;
      first, u := LetGo(q, s, d, f);
      assert Offers(u, n, f, k);
    }
    assert n != d && !OnFile(u.phase[d], f);
    var mid, w := Give(q, u, n, f, k);
    FreeStays(q, u, w, n, d, f);
    AloneJoins(q, s, first, u, mid, w);
    var rest;
    rest, t := Drive(q, w, d, f);
    AloneJoins(q, s, first + mid, w, rest, t);
    steps := first + mid + rest;
  }

  /** Giving one copy takes no other offer away. */
  lemma OffersStay(s: State, t: State, n: string, f: string, k: nat, d: string)
    requires Sane(s) && Offers(s, n, f, k) && Moved(s, t, n) && Grown(s, t) && Offered(s, d, f)
    requires Visiting(t, n, f, Pending(s.phase[n])[k + 1..]) && HoldAll(t, Pending(s.phase[n])[..k + 1], f)
    ensures Has(t, d, f) || Offered(t, d, f)
  {
    var m, i: nat :| Offers(s, m, f, i) && Pending(s.phase[m])[i] == d;
    var left := Pending(s.phase[n]);
    if m != n {
      assert Offers(t, m, f, i);
    } else if i <= k {
      assert left[..k + 1][i] == d;
    } else {
      OfferLater(s, t, n, f, k, i);
    }
  }

  lemma OfferLater(s: State, t: State, n: string, f: string, k: nat, i: nat)
    requires Offers(s, n, f, i) && k < i && t.disk.Keys == s.disk.Keys
    requires Visiting(t, n, f, Pending(s.phase[n])[k + 1..])
    ensures Offered(t, Pending(s.phase[n])[i], f)
  {
    var left := Pending(s.phase[n]);
    var j := i - k - 1;
    assert left[k + 1..][j] == left[i];
    var rest := left[k + 1..];
    forall x | 0 <= x <= j ensures rest[x] in t.disk { assert rest[x] == left[k + 1 + x]; }
    assert Offers(t, n, f, j);
  }

  lemma GiveOne(q: Placed, s: State, f: string, d: string) returns (steps: seq<Step>, t: State)
    requires Sane(s) && HeldOrOffered(q, s, f) && d in q(f)
    ensures Alone(q, s, steps, t) && Sane(t) && Grown(s, t) && Has(t, d, f) && HeldOrOffered(q, t, f)
  {
    if Has(s, d, f) {
      steps, t := [], s;
    } else {
      var n, k: nat :| Offers(s, n, f, k) && Pending(s.phase[n])[k] == d;
      steps, t := Give(q, s, n, f, k);
      forall x | x in q(f) ensures Has(t, x, f) || Offered(t, x, f) {
        if !Has(s, x, f) { OffersStay(s, t, n, f, k, x); }
      }
    }
  }

  lemma OneMoreHolds(s: State, nodes: seq<string>, j: nat, f: string)
    requires j < |nodes| && HoldAll(s, nodes[..j], f) && Has(s, nodes[j], f)
    ensures HoldAll(s, nodes[..j + 1], f)
  {
    assert nodes[..j + 1] == nodes[..j] + [nodes[j]];
  }

  /** When all listed nodes have the file or are offered it, all of them get it. */
  lemma {:induction false} GiveAll(q: Placed, s: State, f: string, j: nat) returns (steps: seq<Step>, t: State)
    requires Sane(s) && j <= |q(f)| && HoldAll(s, q(f)[..j], f) && HeldOrOffered(q, s, f)
    ensures Alone(q, s, steps, t) && AllListedHold(q, t, f)
    decreases |q(f)| - j
  {
    if j == |q(f)| {
      assert q(f)[..j] == q(f);
      steps, t := [], s;
    } else {
      var first, u := GiveOne(q, s, f, q(f)[j]);
      OneMoreHolds(u, q(f), j, f);
      var rest;
      rest, t := GiveAll(q, u, f, j + 1);
      AloneJoins(q, s, first, u, rest, t);
      steps := first + rest;
    }
  }

  lemma Restores(q: Placed, s: State, f: string) returns (steps: seq<Step>, t: State)
    requires Sane(s) && Restorable(q, s, f)
    ensures Alone(q, s, steps, t) && AllListedHold(q, t, f)
  {
    if d :| Able(q, s, d, f) {
      if Keeps(s, d, f) { steps, t := Drive(q, s, d, f); } else { steps, t := DriveOffered(q, s, d, f); }
    } else {
      steps, t := GiveAll(q, s, f, 0);
    }
  }

  /** Exactly when the monitors can still bring a file to all the nodes a placement names, from any
      state whatever that failures and older answers have left behind. */
  lemma {:induction false} RestoreIff(q: Placed, s: State, f: string)
    requires Sane(s)
    ensures (exists steps, t :: Alone(q, s, steps, t) && AllListedHold(q, t, f)) <==> Restorable(q, s, f)
  {
    if steps, t :| Alone(q, s, steps, t) && AllListedHold(q, t, f) {
      assert Restorable(q, t, f);
      RunRestorable(q, s, steps, t, f);
    }
    if Restorable(q, s, f) {
      var steps, t := Restores(q, s, f);
    }
  }
}
