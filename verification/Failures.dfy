/** What the failure of a machine does to monitors that are dealing with it. */
module Failures {
  import opened Replication
  import opened Convergence
  import opened Recovery

  lemma CrashSane(s: State, failed: set<string>)
    requires Sane(s)
    ensures Sane(Crash(s, failed))
  {
    var t := Crash(s, failed);
    forall n | n in t.phase ensures OwnOk(t, n) { assert OwnOk(s, n); }
  }

  lemma RunSane(p: Placed, s: State, steps: seq<Step>, t: State)
    requires Fresh(s) && Run(Only(p), s, steps, t)
    ensures Sane(t)
  {
    NodesShrink(Only(p), s, steps, t);
  }

  // ----- a check of a machine that has failed blocks for ever

  /** The monitor hangs, or waits for a node that does not exist. */
  ghost predicate Waits(s: State, n: string)
  {
    n in s.phase
    && (s.phase[n].Hung? || (s.phase[n].Checking? && s.phase[n].j < |s.phase[n].arr|
                             && s.phase[n].arr[s.phase[n].j] !in s.disk))
  }

  ghost predicate HoldersWait(s: State, f: string)
  {
    forall n :: Has(s, n, f) ==> Waits(s, n)
  }

  lemma WaitsOn(q: Placed, s: State, step: Step, n: string, f: string)
    requires Sane(s) && Enabled(Only(q), s, step) && Waits(s, n) && Has(s, n, f)
    ensures n in Apply(Only(q), s, step).phase && Waits(Apply(Only(q), s, step), n)
    ensures Has(Apply(Only(q), s, step), n, f) && step != End(n)
  {
    StepShrinks(Only(q), s, step);
  }

  lemma WaitStep(q: Placed, s: State, step: Step, f: string)
    requires Sane(s) && Enabled(Only(q), s, step) && !step.Put? && HoldersWait(s, f)
    ensures HoldersWait(Apply(Only(q), s, step), f)
    ensures forall n :: Has(Apply(Only(q), s, step), n, f) <==> Has(s, n, f)
  {
    var t := Apply(Only(q), s, step);
    forall n ensures Has(t, n, f) <==> Has(s, n, f) {
      if Has(s, n, f) { WaitsOn(q, s, step, n, f); } else if Has(t, n, f) { Gains(Only(q), s, step, n, f); }
    }
    forall n | Has(t, n, f) ensures Waits(t, n) { WaitsOn(q, s, step, n, f); }
  }

  /** Once every holder of `f` waits so, nobody ever gains or loses a copy of it again by itself, and no
      holder ever comes to the end of a pass. */
  lemma {:induction false} BlockedForGood(q: Placed, s: State, steps: seq<Step>, t: State, f: string)
    requires Sane(s) && Run(Only(q), s, steps, t) && NoPut(steps) && HoldersWait(s, f)
    ensures Sane(t) && HoldersWait(t, f) && forall n :: Has(t, n, f) <==> Has(s, n, f)
    ensures forall n :: Has(s, n, f) ==> End(n) !in steps && !FullPass(steps, n)
    decreases |steps|
  {
    if steps != [] {
      var init, x := steps[..|steps| - 1], steps[|steps| - 1];
      var before :| Run(Only(q), s, init, before) && Enabled(Only(q), before, x) && t == Apply(Only(q), before, x);
      NoPutSplit(steps);
      BlockedForGood(q, s, init, before, f);
      StepKeepsSane(Only(q), before, x);
      WaitStep(q, before, x, f);
      forall n | Has(s, n, f) ensures End(n) !in steps && !FullPass(steps, n) {
        WaitsOn(q, before, x, n, f);
        assert forall i :: 0 <= i < |steps| ==> steps[i] == if i < |init| then init[i] else x;
        assert End(n) !in steps;
      }
    }
  }

  lemma ThreeRest(f: string, a: string, b: string, c: string) returns (s: State)
    ensures Fresh(s) && s.disk.Keys >= {a, b, c} && forall n :: Has(s, n, f) <==> n in [a, b, c]
    ensures forall n :: n in {a, b, c} ==> s.disk[n].Keys == {f}
    ensures forall n :: n in s.disk ==> |s.known[n]| >= QUORUM && s.phase[n].Idle?
  {
    s := Resting(f, "", {a, b, c}, {});
    RestingFacts(f, "", {a, b, c}, {});
  }

  /** Two nodes have asked for `f` and check the first node of the answer next. */
  lemma TwoAsk(p: Placed, s: State, f: string, b: string, c: string) returns (steps: seq<Step>, t: State)
    requires SameNodes(s) && b != c && b in s.disk && c in s.disk && s.disk[b].Keys == {f} && s.disk[c].Keys == {f}
    requires forall n :: n in s.disk ==> |s.known[n]| >= QUORUM && s.phase[n].Idle?
    ensures Run(Only(p), s, steps, t) && t.disk == s.disk
    ensures b in t.phase && t.phase[b] == Checking(f, p(f), 0, false, [])
    ensures c in t.phase && t.phase[c] == Checking(f, p(f), 0, false, [])
  {
    var mid := AtCheck(s, b, f, p(f), 0);
    var first := Ask(Only(p), s, b, f, p(f));
    var rest := Ask(Only(p), mid, c, f, p(f));
    t := AtCheck(mid, c, f, p(f), 0);
    RunJoins(Only(p), s, first, mid, rest, t);
    steps := first + rest;
  }

  lemma TheyWait(from: State, f: string, arr: seq<string>, a: string, b: string, c: string)
    requires Sane(from) && arr == [a, b, c] && a != b && a != c && b != c
    requires forall n :: Has(from, n, f) <==> n in arr
    requires b in from.phase && from.phase[b] == Checking(f, arr, 0, false, [])
    requires c in from.phase && from.phase[c] == Checking(f, arr, 0, false, [])
    ensures var t := Crash(from, {a}); Sane(t) && Has(t, b, f) && Has(t, c, f) && HoldersWait(t, f)
    ensures forall n :: Has(Crash(from, {a}), n, f) ==> n == b || n == c
  {
    CrashSane(from, {a});
    assert b in arr && c in arr;
    forall n | Has(Crash(from, {a}), n, f) ensures n == b || n == c { assert Has(from, n, f) && n in arr; }
  }

  /** One failure is enough to stop the re-replication of a file for good. A file lies exactly on its
      placement, and two of its three nodes have just begun to check the third, when that one fails:
      whatever the new placement, unless it is content with the two copies left, the monitors cannot
      bring the file there. */
  lemma {:induction false} OneFailureBlocks(p: Placed, q: Placed, f: string, a: string, b: string, c: string, d: string)
    returns (s: State, steps: seq<Step>, from: State)
    requires p(f) == [a, b, c] && a != b && a != c && b != c && d in q(f) && d != b && d != c
    ensures Fresh(s) && Run(Only(p), s, steps, from) && forall n :: Has(from, n, f) <==> n in p(f)
    ensures var t := Crash(from, {a});
            Sane(t) && Has(t, b, f) && Has(t, c, f) && HoldersWait(t, f) && !Restorable(q, t, f)
  {
    s := ThreeRest(f, a, b, c);
    steps, from := TwoAsk(p, s, f, b, c);
    RunSane(p, s, steps, from);
    assert forall n :: Has(from, n, f) <==> Has(s, n, f);
    TheyWait(from, f, p(f), a, b, c);
    NotRestorable(q, Crash(from, {a}), f, d);
  }

  lemma NothingOffered(t: State, n: string, f: string, k: nat)
    requires Sane(t) && HoldersWait(t, f)
    ensures !Offers(t, n, f, k)
  {
    if Has(t, n, f) && t.phase[n].Checking? {
      PendingSplit(t.phase[n]);
      assert Pending(t.phase[n])[0] !in t.disk;
    }
  }

  lemma NobodyAble(q: Placed, t: State, n: string, f: string)
    requires Sane(t) && HoldersWait(t, f)
    ensures !Able(q, t, n, f)
  {
    if Offered(t, n, f) {
      var m, k: nat :| Offers(t, m, f, k) && Pending(t.phase[m])[k] == n;
      NothingOffered(t, m, f, k);
    }
    if Has(t, n, f) && t.phase[n].Checking? {
      PendingSplit(t.phase[n]);
      assert t.phase[n].arr[t.phase[n].j] in Pending(t.phase[n]);
    }
  }

  lemma NotRestorable(q: Placed, t: State, f: string, d: string)
    requires Sane(t) && HoldersWait(t, f) && d in q(f) && !Has(t, d, f)
    ensures !Restorable(q, t, f)
  {
    forall n ensures !Able(q, t, n, f) { NobodyAble(q, t, n, f); }
    forall n, k: nat ensures !Offers(t, n, f, k) { NothingOffered(t, n, f, k); }
  }

  // ----- an upload to a machine that has failed takes the uploader with it

  ghost function Sent(p: Placed, f: string): Phase
  {
    Uploading(f, p(f), 0, false, [])
  }

  ghost predicate CanSend(s: State, f: string, n: string)
  {
    && n in s.disk && s.disk[n].Keys == {f} && n in s.phase && s.phase[n].Idle?
    && n in s.known && |s.known[n]| >= QUORUM
  }

  /** From `s` to `t` the nodes `done` have come to be about to upload `f`. */
  ghost predicate Sending(p: Placed, s: State, f: string, done: set<string>, t: State)
  {
    && t.disk == s.disk && t.known == s.known && t.phase.Keys == s.phase.Keys
    && forall n :: n in s.phase ==> t.phase[n] == if n in done then Sent(p, f) else s.phase[n]
  }

  lemma SendOne(p: Placed, s: State, f: string, done: set<string>, mid: State, n: string)
    returns (t: State, steps: seq<Step>)
    requires p(f) != [] && p(f)[0] in s.disk && !Has(s, p(f)[0], f) && p(f)[0] != n && n !in done && CanSend(s, f, n)
    requires Sending(p, s, f, done, mid)
    ensures Run(Only(p), mid, steps, t) && Sending(p, s, f, done + {n}, t)
  {
    t, steps := UploadDecided(p, mid, f, n);
  }

  lemma {:induction false} AllSend(p: Placed, s: State, f: string, done: set<string>)
    returns (t: State, steps: seq<Step>)
    requires p(f) != [] && p(f)[0] in s.disk && !Has(s, p(f)[0], f) && p(f)[0] !in done
    requires forall n :: n in done ==> CanSend(s, f, n)
    ensures Run(Only(p), s, steps, t) && Sending(p, s, f, done, t)
    decreases |done|
  {
    if done == {} {
      t, steps := s, [];
    } else {
      var n :| n in done;
      var mid, first := AllSend(p, s, f, done - {n});
      var rest;
      t, rest := SendOne(p, s, f, done - {n}, mid, n);
      RunJoins(Only(p), s, first, mid, rest, t);
      steps := first + rest;
      SameSet(done, n);
    }
  }

  lemma SameSet<T>(a: set<T>, x: T)
    requires x in a
    ensures a - {x} + {x} == a
  {
  }

  /** All of `nodes` are about to upload `f` to a node that does not exist. */
  ghost predicate Doomed(p: Placed, s: State, f: string, nodes: set<string>)
  {
    && p(f) != [] && p(f)[0] !in s.disk
    && forall n :: n in nodes ==> n in s.phase && s.phase[n] == Sent(p, f) && Has(s, n, f)
  }

  lemma FollowOne(p: Placed, s: State, f: string, nodes: set<string>, n: string) returns (t: State)
    requires Doomed(p, s, f, nodes) && n in nodes
    ensures Alone(p, s, [Upload(n)], t) && Doomed(p, t, f, nodes - {n})
    ensures forall m :: Has(t, m, f) ==> Has(s, m, f) && m != n
  {
    AloneOne(p, s, Upload(n));
    t := Apply(Only(p), s, Upload(n));
  }

  lemma {:induction false} AllFollow(p: Placed, s: State, f: string, nodes: set<string>)
    returns (steps: seq<Step>, t: State)
    requires Doomed(p, s, f, nodes)
    ensures Alone(p, s, steps, t) && forall m :: Has(t, m, f) ==> Has(s, m, f) && m !in nodes
    decreases |nodes|
  {
    if nodes == {} {
      steps, t := [], s;
    } else {
      var n :| n in nodes;
      var u := FollowOne(p, s, f, nodes, n);
      var rest;
      rest, t := AllFollow(p, u, f, nodes - {n});
      AloneJoins(p, s, [Upload(n)], u, rest, t);
      steps := [Upload(n)] + rest;
    }
  }

  /** One failure can take every copy of a file with it, however many there are, although the failed
      machine had none: all holders were about to upload the file to it, and an upload that cannot
      connect ends the uploader's process. */
  lemma {:induction false} FailureTakesAll(p: Placed, f: string, a: string, holders: set<string>)
    returns (s: State, steps: seq<Step>, from: State, more: seq<Step>, u: State)
    requires p(f) == [a] && a !in holders && holders != {}
    ensures Fresh(s) && Run(Only(p), s, steps, from) && forall n :: Has(from, n, f) <==> n in holders
    ensures Alone(p, Crash(from, {a}), more, u) && !Held(u, f)
  {
    s := HoldersRest(f, holders, a);
    from, steps := AllSend(p, s, f, holders);
    assert forall n :: Has(from, n, f) <==> Has(s, n, f);
    AllDoomed(p, s, f, a, holders, from);
    more, u := AllFollow(p, Crash(from, {a}), f, holders);
  }

  lemma HoldersRest(f: string, holders: set<string>, a: string) returns (s: State)
    requires a !in holders
    ensures Fresh(s) && a in s.disk && forall n :: Has(s, n, f) <==> n in holders
    ensures forall n :: n in holders ==> CanSend(s, f, n)
  {
    s := Resting(f, "", holders, {a});
    RestingFacts(f, "", holders, {a});
  }

  lemma AllDoomed(p: Placed, s: State, f: string, a: string, holders: set<string>, from: State)
    requires p(f) == [a] && a !in holders && Sending(p, s, f, holders, from) && SameNodes(s)
    requires forall n :: Has(s, n, f) <==> n in holders
    ensures Doomed(p, Crash(from, {a}), f, holders)
    ensures forall n :: Has(Crash(from, {a}), n, f) ==> n in holders
  {
    forall n | n in holders ensures n in s.phase { assert Has(s, n, f); }
    forall n | Has(Crash(from, {a}), n, f) ensures n in holders { assert Has(s, n, f); }
  }
}
