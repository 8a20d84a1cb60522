/** A placement changes while monitors are running: what becomes of the passes that still work with
    older answers, and where the copies end up. */
module Settling {
  import opened Replication
  import opened Convergence

  ghost predicate MidFile(s: State, n: string)
  {
    n in s.phase && Over(s.phase[n])
  }

  /** Every monitor that was in the middle of a file has finished that file, hangs, or is gone with
      its machine. */
  ghost predicate FilesOver(s: State, steps: seq<Step>, t: State)
  {
    forall n :: MidFile(s, n) ==> Finish(n) in steps || n !in t.phase || t.phase[n].Hung?
  }

  /** The pass of `n` works with the answer of the placement `q`. */
  ghost predicate Current(q: Placed, s: State, n: string)
    requires n in s.phase
  {
    Over(s.phase[n]) ==> s.phase[n].arr == q(s.phase[n].f)
  }

  ghost predicate AllCurrent(q: Placed, s: State)
  {
    forall n :: n in s.phase ==> Current(q, s, n)
  }

  lemma LastStep(q: Placed, from: State, steps: seq<Step>, s: State)
    returns (init: seq<Step>, before: State, x: Step)
    requires Sane(from) && Run(Only(q), from, steps, s) && steps != []
    ensures steps == init + [x] && Run(Only(q), from, init, before) && Sane(before)
    ensures Enabled(Only(q), before, x) && s == Apply(Only(q), before, x)
    ensures s.disk.Keys <= before.disk.Keys <= from.disk.Keys
  {
    init, x := steps[..|steps| - 1], steps[|steps| - 1];
    before :| Run(Only(q), from, init, before) && Enabled(Only(q), before, x) && s == Apply(Only(q), before, x);
    NodesShrink(Only(q), from, init, before);
    StepShrinks(Only(q), before, x);
    InitLast(steps);
  }

  // ----- the first round: older answers disappear

  ghost predicate CurrentOrOld(q: Placed, from: State, steps: seq<Step>, s: State)
  {
    Sane(s) && forall n :: n in s.phase ==> Current(q, s, n) || (MidFile(from, n) && Finish(n) !in steps)
  }

  lemma FinishNext(steps: seq<Step>, x: Step, n: string)
    ensures Finish(n) in steps + [x] <==> Finish(n) in steps || x == Finish(n)
  {
  }

  lemma CurrentStep(q: Placed, s: State, step: Step, n: string)
    requires Sane(s) && Enabled(Only(q), s, step) && n in Apply(Only(q), s, step).phase
    ensures n in s.phase
    ensures Current(q, s, n) || step == Finish(n) ==> Current(q, Apply(Only(q), s, step), n)
  {
    assert n in Apply(Only(q), s, step).phase.Keys;
    CopiesStay(Only(q), s, step, n);
  }

  lemma {:induction false} RunCurrent(q: Placed, from: State, steps: seq<Step>, s: State)
    requires Sane(from) && Run(Only(q), from, steps, s)
    ensures CurrentOrOld(q, from, steps, s)
    decreases |steps|
  {
    if steps != [] {
      var init, before, x := LastStep(q, from, steps, s);
      RunCurrent(q, from, init, before);
      StepKeepsSane(Only(q), before, x);
      forall n | n in s.phase ensures Current(q, s, n) || (MidFile(from, n) && Finish(n) !in steps) {
        CurrentStep(q, before, x, n);
        FinishNext(init, x, n);
      }
    }
  }

  // ----- the second round: what relied on a copy that an older answer let go is over too

  ghost predicate SoundOrOld(q: Placed, v: State, steps: seq<Step>, s: State)
  {
    && Sane(s) && AllCurrent(q, s) && s.disk.Keys == v.disk.Keys
    && forall n :: n in s.phase ==> AnswerOk(Only(q), s, n) || (MidFile(v, n) && Finish(n) !in steps)
  }

  /** With current answers only, and no machine lost, listed copies stay. */
  lemma ListedCopyStays(q: Placed, s: State, step: Step, d: string, f: string)
    requires Sane(s) && AllCurrent(q, s) && Enabled(Only(q), s, step)
    requires Apply(Only(q), s, step).disk.Keys == s.disk.Keys
    requires Has(s, d, f) && d in q(f)
    ensures Has(Apply(Only(q), s, step), d, f)
  {
    if !Has(Apply(Only(q), s, step), d, f) { GoesAway(Only(q), s, step, d, f); }
  }

  lemma SoundStep(q: Placed, s: State, step: Step, n: string)
    requires Sane(s) && AllCurrent(q, s) && Enabled(Only(q), s, step)
    requires Apply(Only(q), s, step).disk.Keys == s.disk.Keys && n in s.phase && n in Apply(Only(q), s, step).phase
    requires AnswerOk(Only(q), s, n) || step == Finish(n)
    ensures AnswerOk(Only(q), Apply(Only(q), s, step), n)
  {
    var t := Apply(Only(q), s, step);
    if !step.Put? && step.n == n {
      if step != Finish(n) { OwnAnswerOk(Only(q), s, step); }
    } else {
      CopiesStay(Only(q), s, step, n);
      CommonOnly(q);
      forall d, f | d in q(f) && Has(s, d, f) ensures Has(t, d, f) { ListedCopyStays(q, s, step, d, f); }
    }
  }

  lemma SoundOrOldStep(q: Placed, v: State, steps: seq<Step>, s: State, step: Step)
    requires SoundOrOld(q, v, steps, s) && Enabled(Only(q), s, step)
    requires Apply(Only(q), s, step).disk.Keys == s.disk.Keys
    ensures SoundOrOld(q, v, steps + [step], Apply(Only(q), s, step))
  {
    var t := Apply(Only(q), s, step);
    StepKeepsSane(Only(q), s, step);
    forall n | n in t.phase
      ensures Current(q, t, n) && (AnswerOk(Only(q), t, n) || (MidFile(v, n) && Finish(n) !in steps + [step]))
    {
      CurrentStep(q, s, step, n);
      FinishNext(steps, step, n);
      if AnswerOk(Only(q), s, n) || step == Finish(n) { SoundStep(q, s, step, n); }
    }
  }

  lemma StartSound(q: Placed, v: State)
    requires Sane(v) && AllCurrent(q, v)
    ensures SoundOrOld(q, v, [], v)
  {
  }

  lemma {:induction false} RunSound(q: Placed, v: State, steps: seq<Step>, w: State)
    requires Sane(v) && AllCurrent(q, v) && Run(Only(q), v, steps, w) && w.disk.Keys == v.disk.Keys
    ensures SoundOrOld(q, v, steps, w)
    decreases |steps|
  {
    if steps == [] {
      StartSound(q, v);
    } else {
      var init, before, x := LastStep(q, v, steps, w);
      RunSound(q, v, init, before);
      SoundOrOldStep(q, v, init, before, x);
    }
  }

  /** A monitor leaves the middle of a file only by finishing the file, or by hanging. */
  lemma {:induction false} FileEnds(q: Placed, from: State, steps: seq<Step>, s: State, n: string)
    requires Sane(from) && Run(Only(q), from, steps, s) && MidFile(from, n) && n in s.phase
    ensures MidFile(s, n) || Finish(n) in steps || s.phase[n].Hung?
    decreases |steps|
  {
    if steps != [] {
      var init, before, x := LastStep(q, from, steps, s);
      CurrentStep(q, before, x, n);
      FileEnds(q, from, init, before, n);
      FileStepEnds(q, init, before, x, n);
    }
  }

  lemma FileStepEnds(q: Placed, steps: seq<Step>, s: State, x: Step, n: string)
    requires Sane(s) && Enabled(Only(q), s, x) && n in s.phase && n in Apply(Only(q), s, x).phase
    requires MidFile(s, n) || Finish(n) in steps || s.phase[n].Hung?
    ensures var t := Apply(Only(q), s, x); MidFile(t, n) || Finish(n) in steps + [x] || t.phase[n].Hung?
  {
    FinishNext(steps, x, n);
    CopiesStay(Only(q), s, x, n);
  }

  // ----- convergence from any state

  /** From `from`, where passes may be anywhere and work with any answers, the run reaches `w` in two
      rounds under the placement `q`, the second without losing a machine. */
  ghost predicate Renewed(q: Placed, from: State, w: State)
  {
    exists a, v, b ::
      && Sane(from) && Run(Only(q), from, a, v) && FilesOver(from, a, v)
      && Run(Only(q), v, b, w) && FilesOver(v, b, w) && w.disk.Keys == v.disk.Keys
  }

  /** After two rounds every pass works with a current answer and every check it has made still
      stands. */
  lemma RenewedIsSound(q: Placed, from: State, w: State)
    requires Renewed(q, from, w)
    ensures Inv(Only(q), w)
  {
    var a, v, b :| Sane(from) && Run(Only(q), from, a, v) && FilesOver(from, a, v)
                   && Run(Only(q), v, b, w) && FilesOver(v, b, w) && w.disk.Keys == v.disk.Keys;
    RunCurrent(q, from, a, v);
    forall n | n in v.phase ensures Current(q, v, n) {
      assert MidFile(from, n) ==> Finish(n) in a || v.phase[n].Hung?;
    }
    RunSound(q, v, b, w);
    forall n | n in w.phase ensures AnswerOk(Only(q), w, n) {
      assert MidFile(v, n) ==> Finish(n) in b || w.phase[n].Hung?;
    }
  }

  /** From any state whatever, as a change of placement or a failure may leave it: after two rounds,
      once every holder has begun and finished a pass, the holders of `f` are exactly its
      placement. */
  lemma {:induction false} Converged(q: Placed, from: State, w: State, c: seq<Step>, s: State, f: string)
    requires Renewed(q, from, w) && Run(Only(q), w, c, s) && NoPut(c) && AllPassed(w, c, f)
    ensures forall n :: Has(s, n, f) <==> Held(w, f) && n in q(f)
  {
    RenewedIsSound(q, from, w);
    OnePassEach(q, w, c, s, f);
  }

  /** From then on no pass changes who holds the file. */
  lemma {:induction false} FurtherPassesChangeNothing(q: Placed, from: State, w: State, c: seq<Step>, s: State,
          more: seq<Step>, t: State, f: string)
    requires Renewed(q, from, w) && Run(Only(q), w, c, s) && NoPut(c) && AllPassed(w, c, f)
    requires Run(Only(q), s, more, t) && NoPut(more)
    ensures forall n :: Has(t, n, f) <==> Has(s, n, f)
  {
    RenewedIsSound(q, from, w);
    NothingFurther(q, w, c, s, more, t, f);
  }

  /** A change of placement under running passes, when the old and the new placement share a node: two
      rounds and one pass of every holder later, the holders are exactly the new placement. */
  lemma {:induction false} ChangeConverges(p: Placed, q: Placed, from: State, a: seq<Step>, v: State, b: seq<Step>,
          w: State, c: seq<Step>, s: State, f: string, d: string)
    requires Inv(Only(p), from) && Held(from, f) && d in p(f) && d in q(f)
    requires Run(Only(q), from, a, v) && FilesOver(from, a, v)
    requires Run(Only(q), v, b, w) && FilesOver(v, b, w) && w.disk.Keys == v.disk.Keys
    requires Run(Only(q), w, c, s) && NoPut(c) && AllPassed(w, c, f)
    ensures forall n :: Has(s, n, f) <==> n in q(f)
  {
    var both: Master := (g: string) => iset{p(g), q(g)};
    assert Common(both, f, d);
    InvWidens(Only(p), both, from);
    RunWidens(Only(q), both, from, a, v);
    RunWidens(Only(q), both, v, b, w);
    RunJoins(both, from, a, v, b, w);
    NeverLost(both, from, a + b, w, f);
    assert Renewed(q, from, w);
    Converged(q, from, w, c, s, f);
  }

  // ----- copies that survive

  /** A listed node's copy, on which no older answer of its own is about to let go. */
  ghost predicate Firm(q: Placed, s: State, d: string, f: string)
  {
    && d in q(f) && Has(s, d, f) && d in s.phase
    && (MidFile(s, d) && s.phase[d].f == f ==> d in s.phase[d].arr)
  }

  lemma FirmStep(q: Placed, s: State, step: Step, d: string, f: string)
    requires Sane(s) && Enabled(Only(q), s, step) && Firm(q, s, d, f) && d in Apply(Only(q), s, step).disk
    ensures Firm(q, Apply(Only(q), s, step), d, f)
  {
    CopiesStay(Only(q), s, step, d);
    if !Has(Apply(Only(q), s, step), d, f) { GoesAway(Only(q), s, step, d, f); }
  }

  /** It stays for as long as its machine does. */
  lemma {:induction false} FirmStays(q: Placed, s: State, steps: seq<Step>, t: State, d: string, f: string)
    requires Sane(s) && Run(Only(q), s, steps, t) && Firm(q, s, d, f) && d in t.disk
    ensures Sane(t) && Firm(q, t, d, f)
    decreases |steps|
  {
    NodesShrink(Only(q), s, steps, t);
    if steps != [] {
      var init, before, x := LastStep(q, s, steps, t);
      FirmStays(q, s, init, before, d, f);
      FirmStep(q, before, x, d, f);
    }
  }

  lemma HeldThroughRounds(q: Placed, from: State, w: State, d: string, f: string)
    requires Renewed(q, from, w) && Firm(q, from, d, f) && d in w.disk
    ensures Has(w, d, f)
  {
    var a, v, b :| Sane(from) && Run(Only(q), from, a, v) && FilesOver(from, a, v)
                   && Run(Only(q), v, b, w) && FilesOver(v, b, w) && w.disk.Keys == v.disk.Keys;
    RunJoins(Only(q), from, a, v, b, w);
    FirmStays(q, from, a + b, w, d, f);
  }

  // ----- why one pass of every holder is not enough after a change

  /** `a` has been told that `f` belongs on `x`, and has found it there. */
  lemma OldAnswerHeld(p: Placed, s: State, f: string, a: string, x: string) returns (steps: seq<Step>)
    requires p(f) == [x] && a != x && Has(s, x, f)
    requires a in s.disk && s.disk[a].Keys == {f} && a in s.phase && s.phase[a].Idle?
    requires a in s.known && |s.known[a]| >= QUORUM
    ensures Run(Only(p), s, steps, At(s, a, Checking(f, [x], 1, false, [])))
  {
    var first := Ask(Only(p), s, a, f, [x]);
    var rest := CheckAll(Only(p), s, a, f, [x], 1);
    RunJoins(Only(p), s, first, AtCheck(s, a, f, [x], 0), rest, AtCheck(s, a, f, [x], 1));
    steps := first + rest;
  }

  lemma InARow<T>(a: T, b: T, c: T, d: T, e: T, g: T)
    ensures [a, b] + [c] + [d] + [e] + [g] == [a, b, c, d, e, g]
  {
  }

  lemma SixSteps(x: string, f: string, arr: seq<string>)
    ensures var steps := [Begin(x, [f]), Query(x, arr), Check(x), Check(x), Finish(x), End(x)];
            NoPut(steps) && FullPass(steps, x)
  {
    var steps := [Begin(x, [f]), Query(x, arr), Check(x), Check(x), Finish(x), End(x)];
    assert steps[0] == Begin(x, [f]) && steps[5] == End(x);
  }

  /** `x`, told that `f` belongs on `a` and itself, goes through a whole pass and keeps its copy. */
  lemma NewAnswerKept(q: Placed, s: State, f: string, a: string, x: string) returns (steps: seq<Step>)
    requires q(f) == [a, x] && a != x && Has(s, a, f)
    requires x in s.disk && s.disk[x].Keys == {f} && x in s.phase && s.phase[x].Idle?
    requires x in s.known && |s.known[x]| >= QUORUM
    ensures Run(Only(q), s, steps, s) && NoPut(steps) && FullPass(steps, x)
  {
    var arr := [a, x];
    var first := Ask(Only(q), s, x, f, arr);
    var s0, s1, s2 := At(s, x, Checking(f, arr, 0, false, [])), At(s, x, Checking(f, arr, 1, false, [])),
                      At(s, x, Checking(f, arr, 2, true, []));
    var s3 := At(s, x, Listed([]));
    FoundThere(Only(q), s0, x);
    AtAgain(s, x, s0.phase[x], s1.phase[x]);
    RunJoins(Only(q), s, first, s0, [Check(x)], s1);
    FoundThere(Only(q), s1, x);
    AtAgain(s, x, s1.phase[x], s2.phase[x]);
    RunJoins(Only(q), s, first + [Check(x)], s1, [Check(x)], s2);
    Kept(Only(q), s2, x);
    AtAgain(s, x, s2.phase[x], s3.phase[x]);
    RunJoins(Only(q), s, first + [Check(x)] + [Check(x)], s2, [Finish(x)], s3);
    Ended(Only(q), s3, x);
    AtAgain(s, x, s3.phase[x], Idle);
    steps := first + [Check(x)] + [Check(x)] + [Finish(x)] + [End(x)];
    RunJoins(Only(q), s, first + [Check(x)] + [Check(x)] + [Finish(x)], s3, [End(x)], s);
    InARow(Begin(x, [f]), Query(x, arr), Check(x), Check(x), Finish(x), End(x));
    SixSteps(x, f, arr);
  }

  /** `a` ends the pass that worked with the old answer, which deletes its copy, and then goes through
      a whole pass with nothing left to do. */
  lemma OldAnswerLetsGo(q: Placed, s: State, f: string, a: string, x: string) returns (steps: seq<Step>, t: State)
    requires a in s.disk && s.disk[a].Keys == {f} && a in s.phase && s.phase[a] == Checking(f, [x], 1, false, [])
    requires a in s.known && |s.known[a]| >= QUORUM
    ensures Run(Only(q), s, steps, t) && NoPut(steps) && FullPass(steps, a) && !Has(t, a, f)
  {
    t := At(Dropped(s, a, f), a, Idle);
    var s1, s2 := At(Dropped(s, a, f), a, Listed([])), At(Dropped(s, a, f), a, Idle);
    Deleted(Only(q), s, a);
    Ended(Only(q), s1, a);
    AtAgain(Dropped(s, a, f), a, Listed([]), Idle);
    RunJoins(Only(q), s, [Finish(a)], s1, [End(a)], s2);
    assert s2.disk[a].Keys == {};
    BeginPass(Only(q), s2, a, []);
    AtAgain(Dropped(s, a, f), a, Idle, Listed([]));
    RunJoins(Only(q), s, [Finish(a)] + [End(a)], s2, [Begin(a, [])], s1);
    steps := [Finish(a)] + [End(a)] + [Begin(a, [])] + [End(a)];
    RunJoins(Only(q), s, [Finish(a)] + [End(a)] + [Begin(a, [])], s1, [End(a)], s2);
    FourSteps(a);
  }

  lemma FourSteps(a: string)
    ensures var steps := [Finish(a)] + [End(a)] + [Begin(a, [])] + [End(a)]; NoPut(steps) && FullPass(steps, a)
  {
    var steps := [Finish(a)] + [End(a)] + [Begin(a, [])] + [End(a)];
    assert steps == [Finish(a), End(a), Begin(a, []), End(a)];
    assert steps[2] == Begin(a, []) && steps[3] == End(a);
  }

  lemma BothHold(f: string, a: string, x: string) returns (s: State)
    ensures Fresh(s) && a in s.disk && x in s.disk && s.disk[a].Keys == {f} && s.disk[x].Keys == {f}
    ensures forall n :: n in s.disk ==> |s.known[n]| >= QUORUM && s.phase[n].Idle?
    ensures forall n :: Has(s, n, f) ==> n == a || n == x
  {
    s := Resting(f, "", {a, x}, {});
    RestingFacts(f, "", {a, x}, {});
    assert a in {a, x} && x in {a, x};
  }

  /** One pass of every holder is not enough after a change, even when the placements share a node:
      while `a` still works with the old answer, `x` relies on the copy of `a`, and `a` then deletes
      it. Everyone has gone through a whole pass since the change, and a listed node lacks the file. */
  lemma {:induction false} OnePassNotEnough(p: Placed, q: Placed, f: string, a: string, x: string)
    returns (s: State, before: seq<Step>, from: State, steps: seq<Step>, t: State)
    requires p(f) == [x] && q(f) == [a, x] && a != x
    ensures Fresh(s) && Run(Only(p), s, before, from) && Held(from, f)
    ensures Run(Only(q), from, steps, t) && NoPut(steps) && AllPassed(from, steps, f)
    ensures a in q(f) && !Has(t, a, f)
  {
    s := BothHold(f, a, x);
    before := OldAnswerHeld(p, s, f, a, x);
    from := At(s, a, Checking(f, [x], 1, false, []));
    assert Has(from, a, f) && from.disk == s.disk;
    assert forall n :: Has(from, n, f) ==> Has(s, n, f);
    var first := NewAnswerKept(q, from, f, a, x);
    var rest;
    rest, t := OldAnswerLetsGo(q, from, f, a, x);
    RunJoins(Only(q), from, first, from, rest, t);
    steps := first + rest;
    BothPassed(from, first, rest, f, a, x);
  }

  lemma BothPassed(from: State, first: seq<Step>, rest: seq<Step>, f: string, a: string, x: string)
    requires NoPut(first) && NoPut(rest) && FullPass(first, x) && FullPass(rest, a)
    requires forall n :: Has(from, n, f) ==> n == a || n == x
    ensures NoPut(first + rest) && AllPassed(from, first + rest, f)
  {
    NoPutJoins(first, rest);
    FullPassStays(first, rest, x);
    FullPassLater(first, rest, a);
  }
}
