/** Where nothing is blocked, the monitors can bring every file onto its placement. */
module Progress {
  import opened Replication
  import opened Convergence
  import opened Recovery
  import opened Settling
  import opened Sets

  /** No monitor hangs or waits for a node that does not exist, the placement names existing nodes, and
      enough members are known for passes to begin. */
  ghost predicate Unblocked(q: Placed, s: State)
  {
    && Sane(s) && |World(s)| >= QUORUM
    && (forall f :: Exist(s, q(f)))
    && forall n :: n in s.phase ==> !s.phase[n].Hung? && Exist(s, Pending(s.phase[n]))
  }

  /** A run of monitor steps in which nothing comes to be blocked. */
  ghost predicate Smooth(q: Placed, s: State, steps: seq<Step>, t: State)
  {
    Alone(q, s, steps, t) && Unblocked(q, t) && t.disk.Keys == s.disk.Keys
  }

  lemma SmoothJoins(q: Placed, s: State, a: seq<Step>, t: State, b: seq<Step>, u: State)
    requires Smooth(q, s, a, t) && Smooth(q, t, b, u)
    ensures Smooth(q, s, a + b, u)
  {
    AloneJoins(q, s, a, t, b, u);
  }

  /** What one step does to the phase of an unblocked monitor in the middle of a pass. */
  lemma PhaseGoes(q: Placed, s: State, n: string)
    requires Unblocked(q, s) && n in s.phase && !s.phase[n].Idle?
    ensures var step := NextStep(q, n, s.phase[n]);
            && Goes(q, s, n, step) && !step.Put? && n in Apply(Only(q), s, step).phase
            && var ph := Apply(Only(q), s, step).phase[n];
               && Closer(ph, s.phase[n]) && !ph.Hung? && (ph.Idle? <==> step == End(n))
               && (Over(s.phase[n]) ==> ph.Listed? || (Over(ph) && StepsLeft(ph) < StepsLeft(s.phase[n])))
  {
    var ph := s.phase[n];
    assert OwnOk(s, n);
    CanGo(q, s, n);
    if Over(ph) && ph.j < |ph.arr| { PendingSplit(ph); }
  }

  /** The nodes still to visit are among those there were, unless the step is a query. */
  lemma PendingFewer(q: Placed, s: State, n: string)
    requires Sane(s) && n in s.phase && Over(s.phase[n]) && Goes(q, s, n, NextStep(q, n, s.phase[n]))
    requires n in Apply(Only(q), s, NextStep(q, n, s.phase[n])).phase
    ensures var left := Pending(Apply(Only(q), s, NextStep(q, n, s.phase[n])).phase[n]);
            left == [] || left == Pending(s.phase[n])
            || (Pending(s.phase[n]) != [] && left == Pending(s.phase[n])[1..])
  {
    assert OwnOk(s, n);
    if s.phase[n].j < |s.phase[n].arr| { PendingSplit(s.phase[n]); }
  }

  lemma ExistTail(s: State, nodes: seq<string>)
    requires Exist(s, nodes)
    ensures Exist(s, []) && (nodes != [] ==> Exist(s, nodes[1..]))
  {
  }

  lemma PendingAsked(q: Placed, s: State, n: string)
    requires n in s.phase && s.phase[n].Listed? && Goes(q, s, n, NextStep(q, n, s.phase[n]))
    ensures n in Apply(Only(q), s, NextStep(q, n, s.phase[n])).phase
    ensures Pending(Apply(Only(q), s, NextStep(q, n, s.phase[n])).phase[n]) ==
              if s.phase[n].rest == [] then [] else q(s.phase[n].rest[0])
  {
  }

  lemma PendingGoes(q: Placed, s: State, n: string)
    requires Sane(s) && n in s.phase && Exist(s, Pending(s.phase[n])) && forall f :: Exist(s, q(f))
    requires !s.phase[n].Idle? && !s.phase[n].Hung? && Goes(q, s, n, NextStep(q, n, s.phase[n]))
    requires n in Apply(Only(q), s, NextStep(q, n, s.phase[n])).phase
    ensures Exist(s, Pending(Apply(Only(q), s, NextStep(q, n, s.phase[n])).phase[n]))
  {
    ExistTail(s, Pending(s.phase[n]));
    if Over(s.phase[n]) {
      PendingFewer(q, s, n);
    } else {
      PendingAsked(q, s, n);
      assert s.phase[n].rest != [] ==> Exist(s, q(s.phase[n].rest[0]));
    }
  }

  ghost predicate KeepsAll(s: State, t: State)
  {
    forall d, f :: Keeps(s, d, f) ==> Keeps(t, d, f)
  }

  /** One step of an unblocked monitor in the middle of a pass. */
  lemma TakeStep(q: Placed, s: State, n: string) returns (step: Step, t: State)
    requires Unblocked(q, s) && n in s.phase && !s.phase[n].Idle?
    ensures Smooth(q, s, [step], t) && Moved(s, t, n) && n in t.phase
    ensures Closer(t.phase[n], s.phase[n]) && (t.phase[n].Idle? <==> step == End(n))
    ensures Over(s.phase[n]) ==>
              t.phase[n].Listed? || (Over(t.phase[n]) && StepsLeft(t.phase[n]) < StepsLeft(s.phase[n]))
    ensures Over(s.phase[n]) ==> KeepsAll(s, t)
  {
    step := NextStep(q, n, s.phase[n]);
    PhaseGoes(q, s, n);
    PendingGoes(q, s, n);
    GoesMoves(q, s, n, step);
    AloneOne(q, s, step);
    t := Apply(Only(q), s, step);
    MovedUnblocked(q, s, t, n);
    if Over(s.phase[n]) {
      forall d, f | Keeps(s, d, f) ensures Keeps(t, d, f) {
        if d == n { KeepsGoes(q, s, n, f); }
      }
    }
  }

  lemma MovedUnblocked(q: Placed, s: State, t: State, n: string)
    requires Unblocked(q, s) && Moved(s, t, n) && n in t.phase
    requires !t.phase[n].Hung? && Exist(s, Pending(t.phase[n]))
    ensures Unblocked(q, t)
  {
    SubsetSize(World(s), World(t));
  }

  ghost predicate EndsWith(steps: seq<Step>, x: Step)
  {
    steps != [] && steps[|steps| - 1] == x
  }

  lemma EndJoined(a: seq<Step>, b: seq<Step>, x: Step)
    requires EndsWith(b, x)
    ensures EndsWith(a + b, x)
  {
  }

  /** From wherever it is in a pass, with whatever answer, an unblocked monitor comes to the end of
      it. */
  lemma {:induction false} PassEnds(q: Placed, s: State, n: string) returns (steps: seq<Step>, t: State)
    requires Unblocked(q, s) && n in s.phase && !s.phase[n].Idle?
    ensures Smooth(q, s, steps, t) && n in t.phase && t.phase[n].Idle? && EndsWith(steps, End(n))
    decreases |Rest(s.phase[n])|, StepsLeft(s.phase[n])
  {
    var step, u := TakeStep(q, s, n);
    if step == End(n) {
      steps, t := [step], u;
    } else {
      var rest;
      rest, t := PassEnds(q, u, n);
      SmoothJoins(q, s, [step], u, rest, t);
      EndJoined([step], rest, End(n));
      steps := [step] + rest;
    }
  }

  lemma BeganAndEnded(first: seq<Step>, begin: seq<Step>, rest: seq<Step>, n: string)
    requires begin != [] && begin[0].Begin? && begin[0].n == n && EndsWith(rest, End(n))
    ensures FullPass(first + (begin + rest), n)
  {
    var steps := first + (begin + rest);
    assert steps[|first|] == begin[0] && steps[|steps| - 1] == End(n);
  }

  lemma Ready(q: Placed, s: State, n: string) returns (steps: seq<Step>, t: State)
    requires Unblocked(q, s) && n in s.phase && s.phase[n].Idle?
    ensures Smooth(q, s, steps, t) && n in t.phase && t.phase[n].Idle? && |t.known[n]| >= QUORUM
  {
    steps, t := LearnAll(q, s, n);
    MovedUnblocked(q, s, t, n);
  }

  lemma Begins(q: Placed, s: State, n: string) returns (steps: seq<Step>, t: State)
    requires Unblocked(q, s) && n in s.phase && s.phase[n].Idle? && |s.known[n]| >= QUORUM
    ensures Smooth(q, s, steps, t) && n in t.phase && !t.phase[n].Idle?
    ensures steps != [] && steps[0].Begin? && steps[0].n == n
  {
    var files := ListingOf(s.disk[n].Keys);
    steps, t := BeginMoves(q, s, n, files);
    MovedUnblocked(q, s, t, n);
  }

  /** A monitor between passes can go through a whole one. */
  lemma PassDone(q: Placed, s: State, n: string) returns (steps: seq<Step>, t: State)
    requires Unblocked(q, s) && n in s.phase && s.phase[n].Idle?
    ensures Smooth(q, s, steps, t) && FullPass(steps, n)
  {
    var first, u := Ready(q, s, n);
    var begin, v := Begins(q, u, n);
    var rest;
    rest, t := PassEnds(q, v, n);
    SmoothJoins(q, u, begin, v, rest, t);
    SmoothJoins(q, s, first, u, begin + rest, t);
    BeganAndEnded(first, begin, rest, n);
    steps := first + (begin + rest);
  }

  lemma OnePasses(q: Placed, s: State, n: string) returns (steps: seq<Step>, t: State)
    requires Unblocked(q, s) && n in s.phase
    ensures Smooth(q, s, steps, t) && FullPass(steps, n)
  {
    if s.phase[n].Idle? {
      steps, t := PassDone(q, s, n);
    } else {
      var first, mid := PassEnds(q, s, n);
      var rest;
      rest, t := PassDone(q, mid, n);
      SmoothJoins(q, s, first, mid, rest, t);
      steps := first + rest;
      FullPassLater(first, rest, n);
    }
  }

  lemma {:induction false} AllPass(q: Placed, s: State, nodes: set<string>) returns (steps: seq<Step>, t: State)
    requires Unblocked(q, s) && nodes <= s.phase.Keys
    ensures Smooth(q, s, steps, t) && forall n :: n in nodes ==> FullPass(steps, n)
    decreases |nodes|
  {
    if nodes == {} {
      steps, t := [], s;
    } else {
      var n :| n in nodes;
      var first, mid := AllPass(q, s, nodes - {n});
      var rest;
      rest, t := OnePasses(q, mid, n);
      SmoothJoins(q, s, first, mid, rest, t);
      steps := first + rest;
      FullPassLater(first, rest, n);
      forall m | m in nodes && m != n ensures FullPass(steps, m) { FullPassStays(first, rest, m); }
    }
  }

  // ----- first every monitor finishes the file it is over

  lemma {:induction false} FileDone(q: Placed, s: State, n: string) returns (steps: seq<Step>, t: State)
    requires Unblocked(q, s) && n in s.phase && Over(s.phase[n])
    ensures Smooth(q, s, steps, t) && Moved(s, t, n) && n in t.phase && t.phase[n].Listed? && KeepsAll(s, t)
    decreases StepsLeft(s.phase[n])
  {
    var step;
    step, t := TakeStep(q, s, n);
    steps := [step];
    if !t.phase[n].Listed? {
      var rest, u := FileDone(q, t, n);
      SmoothJoins(q, s, steps, t, rest, u);
      MovedAgain(s, t, u, n);
      steps, t := steps + rest, u;
    }
  }

  ghost predicate OverOnly(s: State, nodes: set<string>)
  {
    forall n :: n in s.phase && Over(s.phase[n]) ==> n in nodes
  }

  /** Only the phase of `n` has changed, and `n` is over no file any more. */
  ghost predicate OneLess(s: State, t: State, n: string)
  {
    && n in t.phase && !Over(t.phase[n])
    && forall m :: m in t.phase && m != n ==> m in s.phase && t.phase[m] == s.phase[m]
  }

  lemma OverFewer(s: State, t: State, nodes: set<string>, n: string)
    requires OverOnly(s, nodes) && OneLess(s, t, n)
    ensures OverOnly(t, nodes - {n})
  {
  }

  /** A smooth run in which nobody loses a copy that it keeps. */
  ghost predicate Calm(q: Placed, s: State, steps: seq<Step>, t: State)
  {
    Smooth(q, s, steps, t) && KeepsAll(s, t)
  }

  lemma CalmJoins(q: Placed, s: State, a: seq<Step>, t: State, b: seq<Step>, u: State)
    requires Calm(q, s, a, t) && Calm(q, t, b, u)
    ensures Calm(q, s, a + b, u)
  {
    SmoothJoins(q, s, a, t, b, u);
  }

  lemma CalmNone(q: Placed, s: State)
    requires Unblocked(q, s)
    ensures Calm(q, s, [], s)
  {
  }

  lemma OneFileDone(q: Placed, s: State, n: string) returns (steps: seq<Step>, t: State)
    requires Unblocked(q, s) && n in s.phase
    ensures Calm(q, s, steps, t) && OneLess(s, t, n)
  {
    if Over(s.phase[n]) {
      steps, t := FileDone(q, s, n);
    } else {
      CalmNone(q, s);
      steps, t := [], s;
    }
  }

  lemma OneFewer(q: Placed, s: State, nodes: set<string>, n: string) returns (steps: seq<Step>, t: State)
    requires Unblocked(q, s) && n in nodes && nodes <= s.phase.Keys && OverOnly(s, nodes)
    ensures Calm(q, s, steps, t) && OverOnly(t, nodes - {n}) && nodes - {n} <= t.phase.Keys
  {
    steps, t := OneFileDone(q, s, n);
    OverFewer(s, t, nodes, n);
  }

  lemma {:induction false} FilesDone(q: Placed, s: State, nodes: set<string>) returns (steps: seq<Step>, t: State)
    requires Unblocked(q, s) && nodes <= s.phase.Keys && OverOnly(s, nodes)
    ensures Calm(q, s, steps, t) && OverOnly(t, {})
    decreases |nodes|
  {
    if nodes == {} {
      CalmNone(q, s);
      steps, t := [], s;
    } else {
      var n :| n in nodes;
      var first, u := OneFewer(q, s, nodes, n);
      var rest;
      rest, t := FilesDone(q, u, nodes - {n});
      CalmJoins(q, s, first, u, rest, t);
      steps := first + rest;
    }
  }

  ghost predicate EachPasses(s: State, steps: seq<Step>)
  {
    forall n :: n in s.phase ==> FullPass(steps, n)
  }

  /** A run in which everyone goes through a whole pass, from a state with only sound answers. */
  lemma EveryonePasses(q: Placed, s: State) returns (steps: seq<Step>, t: State)
    requires Unblocked(q, s)
    ensures Smooth(q, s, steps, t) && EachPasses(s, steps)
  {
    steps, t := AllPass(q, s, s.phase.Keys);
  }

  lemma NoneOverIsSound(q: Placed, s: State)
    requires Unblocked(q, s) && OverOnly(s, {})
    ensures Inv(Only(q), s)
  {
  }

  /** From any state in which nothing is blocked, the monitors alone can bring every file onto its
      placement and no other node; a file that some running pass is not about to delete is brought
      onto all of it. */
  lemma {:induction false} CanConverge(q: Placed, s: State) returns (steps: seq<Step>, t: State)
    requires Unblocked(q, s)
    ensures Alone(q, s, steps, t) && t.disk.Keys == s.disk.Keys && InPlace(q, s, t)
  {
    var first, u := SoundAnswers(q, s);
    var rest;
    rest, t := EveryonePasses(q, u);
    SmoothJoins(q, s, first, u, rest, t);
    steps := first + rest;
    AllPlaced(q, s, u, rest, t);
  }

  /** The rounds and passes after which a file is settled can be gone through from there, without
      losing a file that is kept. */
  lemma {:induction false} CanSettle(q: Placed, s: State, f: string) returns (w: State, steps: seq<Step>, t: State)
    requires Unblocked(q, s)
    ensures Renewed(q, s, w) && (forall d :: Keeps(s, d, f) ==> Held(w, f))
    ensures Run(Only(q), w, steps, t) && NoPut(steps) && AllPassed(w, steps, f)
  {
    var first;
    first, w := FilesDone(q, s, s.phase.Keys);
    NothingOver(q, s, first, w);
    steps, t := HoldersPass(q, w, f);
    StillHeld(s, w, f);
  }

  lemma StillHeld(s: State, w: State, f: string)
    requires KeepsAll(s, w)
    ensures forall d :: Keeps(s, d, f) ==> Held(w, f)
  {
    forall d | Keeps(s, d, f) ensures Held(w, f) { assert Keeps(w, d, f); }
  }

  lemma HoldersPass(q: Placed, w: State, f: string) returns (steps: seq<Step>, t: State)
    requires Unblocked(q, w)
    ensures Run(Only(q), w, steps, t) && NoPut(steps) && AllPassed(w, steps, f)
  {
    steps, t := EveryonePasses(q, w);
  }

  lemma NothingOver(q: Placed, s: State, steps: seq<Step>, w: State)
    requires Calm(q, s, steps, w) && Sane(s) && OverOnly(w, {})
    ensures Renewed(q, s, w)
  {
    forall n | MidFile(s, n) && n in w.phase ensures Finish(n) in steps || w.phase[n].Hung? {
      FileEnds(q, s, steps, w, n);
    }
    assert FilesOver(s, steps, w) && Run(Only(q), w, [], w) && FilesOver(w, [], w);
  }

  lemma SoundAnswers(q: Placed, s: State) returns (steps: seq<Step>, t: State)
    requires Unblocked(q, s)
    ensures Smooth(q, s, steps, t) && KeepsAll(s, t) && Inv(Only(q), t)
  {
    steps, t := FilesDone(q, s, s.phase.Keys);
    NoneOverIsSound(q, t);
  }

  /** Every copy is where the placement wants it, and every file that a node kept at `s` is on all
      nodes of its placement. */
  ghost predicate InPlace(q: Placed, s: State, t: State)
  {
    && (forall n, f :: Has(t, n, f) ==> n in q(f))
    && forall d, f :: Keeps(s, d, f) ==> AllListedHold(q, t, f)
  }

  lemma AllPlaced(q: Placed, s: State, u: State, steps: seq<Step>, t: State)
    requires KeepsAll(s, u) && Inv(Only(q), u) && Alone(q, u, steps, t) && EachPasses(u, steps)
    ensures InPlace(q, s, t)
  {
    forall f ensures forall n :: Has(t, n, f) <==> Held(u, f) && n in q(f) { OnePassEach(q, u, steps, t, f); }
    forall d, f | Keeps(s, d, f) ensures AllListedHold(q, t, f) { assert Keeps(u, d, f) && Has(u, d, f); }
  }
}
