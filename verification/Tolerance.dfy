/** The system's stated goal, tolerance of two machine failures at a time, from the placement rule
    to the copies the monitors leave. */
module Tolerance {
  import opened Membership
  import opened Placement
  import opened Replication
  import opened Convergence
  import opened Settling
  import opened Recovery
  import opened Progress
  import opened Sets

  /** The master places `f` by its member map, in a state of the map in which the choice is sound:
      `WhereToIff` says that this is exactly when it yields three different live members whatever the
      end of the map holds. */
  ghost predicate WellPlaced(p: Placed, members: map<string, Entry>, end: End, f: string)
  {
    && DottedKeys(members) && members != map[] && f != [] && |Live(members)| >= 3
    && (exists k :: Slotted(members, f, k) && Sheltered(members, k))
    && p(f) == Chosen(members, f, end)
  }

  /** Such placements exist among four members, for every file whose name starts with an `a`. */
  lemma WellPlacedExample(rest: string, end: End) returns (p: Placed, members: map<string, Entry>)
    ensures WellPlaced(p, members, end, "a" + rest) && |members| >= QUORUM
  {
    members := PlacedExample(rest);
    assert Live(members) <= members.Keys;
    SubsetSize(Live(members), members.Keys);
    var answer := Chosen(members, "a" + rest, end);
    p := _ => answer;
  }

  lemma PlacedOnThree(p: Placed, members: map<string, Entry>, end: End, f: string)
    requires WellPlaced(p, members, end, f)
    ensures ThreeLive(members, p(f))
  {
    WhereToIff(members, f);
  }

  /** The run from `from` to `s` has settled the file `f` on the placement `p`: after two rounds of
      finishing what was begun, and a whole pass of every holder, with the file not lost on the way. */
  ghost predicate OnPlacement(p: Placed, from: State, s: State, f: string)
  {
    exists w, c ::
      Renewed(p, from, w) && Held(w, f) && Run(Only(p), w, c, s) && NoPut(c) && AllPassed(w, c, f)
  }

  lemma SettledHolders(p: Placed, from: State, s: State, f: string)
    requires OnPlacement(p, from, s, f)
    ensures forall n :: Has(s, n, f) <==> n in p(f)
    ensures Inv(Only(p), s)
  {
    var w, c :| Renewed(p, from, w) && Held(w, f) && Run(Only(p), w, c, s) && NoPut(c) && AllPassed(w, c, f);
    Converged(p, from, w, c, s, f);
    RenewedIsSound(p, from, w);
    RunKeepsInv(Only(p), w, c, s);
  }

  ghost function Holders(s: State, f: string): set<string>
  {
    set n | n in s.disk && f in s.disk[n]
  }

  lemma ThreeHolders(s: State, f: string, list: seq<string>)
    requires |list| == 3 && list[0] != list[1] && list[0] != list[2] && list[1] != list[2]
    requires forall n :: Has(s, n, f) <==> n in list
    ensures Holders(s, f) == (set n | n in list) && |Holders(s, f)| == 3
  {
    assert forall n :: n in Holders(s, f) <==> Has(s, n, f);
    assert (set n | n in list) == {list[0], list[1], list[2]};
  }

  /** From any state whatever, settling brings a file to exactly three copies. */
  lemma ThreeCopies(p: Placed, members: map<string, Entry>, end: End, from: State, s: State, f: string)
    requires WellPlaced(p, members, end, f) && OnPlacement(p, from, s, f)
    ensures |Holders(s, f)| == 3 && Holders(s, f) == (set n | n in p(f))
  {
    SettledHolders(p, from, s, f);
    PlacedOnThree(p, members, end, f);
    ThreeHolders(s, f, p(f));
  }

  lemma SurvivingCopy(s: State, f: string, list: seq<string>, failed: set<string>) returns (n: string)
    requires |list| == 3 && list[0] != list[1] && list[0] != list[2] && list[1] != list[2]
    requires (forall d :: d in list ==> Has(s, d, f)) && |failed| <= 2
    ensures n in list && n !in failed && Has(Crash(s, failed), n, f)
  {
    var a, b, c := list[0], list[1], list[2];
    if a in failed && b in failed && c in failed { ThreeExceedTwo(failed, a, b, c); }
    n := if a !in failed then a else if b !in failed then b else c;
    assert Has(s, n, f);
  }

  /** Once a file is settled, any two machines may fail together and a copy is left. */
  lemma {:induction false} TwoFailuresLeaveACopy(p: Placed, members: map<string, Entry>, end: End, from: State,
          s: State, f: string, failed: set<string>) returns (n: string)
    requires WellPlaced(p, members, end, f) && OnPlacement(p, from, s, f) && |failed| <= 2
    ensures n in p(f) && n !in failed && Has(Crash(s, failed), n, f)
  {
    PlacedOnThree(p, members, end, f);
    SettledHolders(p, from, s, f);
    n := SurvivingCopy(s, f, p(f), failed);
  }

  /** A node that both placements list, and that survives, still has its copy after the rounds. */
  lemma CommonSurvives(p: Placed, q: Placed, from: State, s: State, f: string, failed: set<string>, w: State, d: string)
    requires OnPlacement(p, from, s, f) && Renewed(q, Crash(s, failed), w)
    requires d in p(f) && d in q(f) && d in w.disk
    ensures Held(w, f)
  {
    var t := Crash(s, failed);
    SettledHolders(p, from, s, f);
    RenewedNodes(q, t, w);
    assert d in t.disk && Has(s, d, f) && AnswerOk(Only(p), s, d);
    assert Firm(q, t, d, f);
    HeldThroughRounds(q, t, w, d, f);
  }

  lemma RenewedNodes(q: Placed, from: State, w: State)
    requires Renewed(q, from, w)
    ensures w.disk.Keys <= from.disk.Keys && Sane(from)
  {
    var a, v, b :| Sane(from) && Run(Only(q), from, a, v) && FilesOver(from, a, v)
                   && Run(Only(q), v, b, w) && FilesOver(v, b, w) && w.disk.Keys == v.disk.Keys;
    NodesShrink(Only(q), from, a, v);
  }

  /** After any two failures, whatever the survivors' monitors were in the middle of: two rounds and a
      whole pass of every holder under the new placement bring the file back to exactly three copies,
      provided the old and the new placement share a node that is still there. */
  lemma {:induction false} CopiesRestored(p: Placed, from: State, s: State, f: string, failed: set<string>,
          q: Placed, members: map<string, Entry>, end: End, w: State, c: seq<Step>, u: State, d: string)
    requires OnPlacement(p, from, s, f) && WellPlaced(q, members, end, f)
    requires Renewed(q, Crash(s, failed), w) && d in p(f) && d in q(f) && d in w.disk
    requires Run(Only(q), w, c, u) && NoPut(c) && AllPassed(w, c, f)
    ensures |Holders(u, f)| == 3 && Holders(u, f) == (set n | n in q(f))
  {
    CommonSurvives(p, q, from, s, f, failed, w, d);
    ThreeCopies(q, members, end, Crash(s, failed), u, f);
  }

  /** Whether the survivors can do so at all is decided by `RestoreIff`. When nothing is blocked they
      can: after any two failures there is a run to exactly three copies. */
  lemma {:induction false} CopiesCanReturn(p: Placed, members: map<string, Entry>, end: End, from: State,
          s: State, f: string, failed: set<string>, q: Placed, members': map<string, Entry>, end': End)
    returns (steps: seq<Step>, u: State)
    requires WellPlaced(p, members, end, f) && OnPlacement(p, from, s, f) && |failed| <= 2
    requires WellPlaced(q, members', end', f) && Unblocked(q, Crash(s, failed))
    ensures Alone(q, Crash(s, failed), steps, u) && |Holders(u, f)| == 3 && Holders(u, f) == (set n | n in q(f))
  {
    var n := TwoFailuresLeaveACopy(p, members, end, from, s, f, failed);
    SettledHolders(p, from, s, f);
    ListedKeeps(p, s, failed, n, f);
    steps, u := CanConverge(q, Crash(s, failed));
    BroughtToThree(q, members', end', Crash(s, failed), u, n, f);
  }

  lemma BroughtToThree(q: Placed, members: map<string, Entry>, end: End, t: State, u: State, n: string, f: string)
    requires WellPlaced(q, members, end, f) && InPlace(q, t, u) && Keeps(t, n, f)
    ensures |Holders(u, f)| == 3 && Holders(u, f) == (set n | n in q(f))
  {
    PlacedOnThree(q, members, end, f);
    ThreeHolders(u, f, q(f));
  }

  /** A pass that works with the node's own placement does not delete the listed copy. */
  lemma ListedKeeps(p: Placed, s: State, failed: set<string>, n: string, f: string)
    requires Inv(Only(p), s) && n in p(f) && Has(Crash(s, failed), n, f)
    ensures Keeps(Crash(s, failed), n, f)
  {
    assert OwnOk(s, n) && AnswerOk(Only(p), s, n);
    if OnFile(s.phase[n], f) && !s.phase[n].needed { StillToVisit(s.phase[n], n); }
  }

  lemma StillToVisit(ph: Phase, n: string)
    requires Over(ph) && ph.j <= |ph.arr| && n in ph.arr && n !in ph.arr[..ph.j]
    ensures n in Pending(ph)
  {
    assert ph.arr == ph.arr[..ph.j] + ph.arr[ph.j..];
  }

  lemma ThreeExceedTwo(failed: set<string>, a: string, b: string, c: string)
    requires a in failed && b in failed && c in failed && a != b && a != c && b != c
    ensures |failed| >= 3
  {
    var rest := failed - {a} - {b};
    assert c in rest;
    assert |failed - {a}| == |failed| - 1;
    assert |rest| == |failed - {a}| - 1;
  }
}
