/** Where the three copies of a file go: a search over the member map with wrap-around at both
    ends, performed by the master. */
module Placement {
  import opened Text
  import opened Membership
  import opened Slots

  // ----- the choice, on positions of the map; position N is the end of the map

  /** First live position from `j` on, or the end. */
  function FirstFrom(live: seq<bool>, j: nat): (r: nat)
    requires j <= |live|
    ensures j <= r <= |live|
    ensures r < |live| ==> live[r]
    ensures forall x :: j <= x < r ==> !live[x]
    decreases |live| - j
  {
    if j == |live| || live[j] then j else FirstFrom(live, j + 1)
  }

  /** Walking down from `j` past failed entries, but never past the first. */
  function LastDownTo(live: seq<bool>, j: nat): (r: nat)
    requires j < |live|
    ensures r <= j
    ensures r == 0 || live[r]
    ensures forall x :: r < x <= j ==> !live[x]
  {
    if j == 0 || live[j] then j else LastDownTo(live, j - 1)
  }

  /** The entry after `i`, wrapping to the first live one. */
  function NextPosition(live: seq<bool>, i: nat): nat
    requires i < |live|
  {
    if FirstFrom(live, i + 1) == |live| then FirstFrom(live, 0) else FirstFrom(live, i + 1)
  }

  /** The entry before `i`. Reaching the first entry, live or not, sends the search to the end of
      the map, whose flag then decides between a second walk and the end itself. */
  function PreviousPosition(live: seq<bool>, i: nat, endFailed: bool): nat
    requires i < |live|
  {
    var down := if i == 0 then 0 else LastDownTo(live, i - 1);
    if down != 0 then down
    else if endFailed then LastDownTo(live, |live| - 1)
    else |live|
  }

  ghost predicate ThreeLivePositions(live: seq<bool>, a: nat, b: nat, c: nat)
  {
    a < |live| && b < |live| && c < |live| && live[a] && live[b] && live[c] && a != b && a != c && b != c
  }

  /** A live position strictly between the first and `i`, and a third live position. */
  ghost predicate Condition(live: seq<bool>, i: nat)
  {
    exists j, x :: 0 < j < i < |live| && live[j] && 0 <= x < |live| && live[x] && x != i && x != j
  }

  /** Exactly when the three positions are live and distinct whatever the end of the map holds. */
  lemma ChoiceIff(live: seq<bool>, i: nat)
    requires i < |live| && live[i]
    ensures (forall e :: ThreeLivePositions(live, i, NextPosition(live, i), PreviousPosition(live, i, e)))
            <==> Condition(live, i)
  {
    var next := NextPosition(live, i);
    if forall e :: ThreeLivePositions(live, i, next, PreviousPosition(live, i, e)) {
      assert ThreeLivePositions(live, i, next, PreviousPosition(live, i, false));
      var j := PreviousPosition(live, i, false);
      assert 0 < j < i && live[j] && live[next] && next != i && next != j;
    }
    if Condition(live, i) {
      var j, x :| 0 < j < i && live[j] && 0 <= x < |live| && live[x] && x != i && x != j;
      var down := LastDownTo(live, i - 1);
      forall e ensures ThreeLivePositions(live, i, next, PreviousPosition(live, i, e)) {
        assert PreviousPosition(live, i, e) == down;
      }
    }
  }

  // ----- the choice, on addresses

  ghost function Live(members: map<string, Entry>): set<string>
  {
    set k | k in members && !members[k].failed
  }

  ghost predicate DottedKeys(members: map<string, Entry>)
  {
    forall k :: k in members ==> Dotted(k)
  }

  ghost function LiveFlags(members: map<string, Entry>): (live: seq<bool>)
    ensures |live| == |members|
  {
    var ks := Keys(members.Keys);
    seq(|ks|, i requires 0 <= i < |ks| => assert ks[i] in ks; !members[ks[i]].failed)
  }

  /** First position from `i` on that is live with an octet of at least `val`, or the end. */
  ghost function SlotFrom(members: map<string, Entry>, val: int, i: nat): (r: nat)
    requires DottedKeys(members) && i <= |members|
    ensures i <= r <= |members|
    ensures r < |members| ==> LiveFlags(members)[r]
    decreases |members| - i
  {
    var ks := Keys(members.Keys);
    if i == |ks| then i
    else
      assert ks[i] in ks;
      if Octet(ks[i]) >= val && LiveFlags(members)[i] then i else SlotFrom(members, val, i + 1)
  }

  /** What reading the map's end yields: unspecified, so every result is stated for all of it. */
  datatype End = End(key: string, failed: bool)

  function KeyIn(ks: seq<string>, i: nat, end: End): string
  {
    if i < |ks| then ks[i] else end.key
  }

  ghost function KeyAt(members: map<string, Entry>, i: nat, end: End): string
  {
    KeyIn(Keys(members.Keys), i, end)
  }

  ghost function Chosen(members: map<string, Entry>, request: string, end: End): seq<string>
    requires DottedKeys(members) && members != map[] && request != [] && |Live(members)| != 1
  {
    var live := LiveFlags(members);
    var i := SlotFrom(members, Slot(request, |Live(members)|), 0);
    if i < |members| then
      [KeyAt(members, i, end), KeyAt(members, NextPosition(live, i), end),
       KeyAt(members, PreviousPosition(live, i, end.failed), end)]
    else
      [end.key, KeyAt(members, 0, end), KeyAt(members, 1, end)]
  }

  ghost predicate ThreeLive(members: map<string, Entry>, res: seq<string>)
  {
    && |res| == 3
    && res[0] in Live(members) && res[1] in Live(members) && res[2] in Live(members)
    && res[0] != res[1] && res[0] != res[2] && res[1] != res[2]
  }

  /** `k` is the first live member in key order whose octet reaches `val`. */
  ghost predicate Reaching(members: map<string, Entry>, val: int, k: string)
    requires DottedKeys(members)
  {
    k in Live(members) && Octet(k) >= val && forall x :: x in Live(members) && Before(x, k) ==> Octet(x) < val
  }

  /** `k` is the live member a request is slotted to. */
  ghost predicate Slotted(members: map<string, Entry>, request: string, k: string)
    requires DottedKeys(members) && request != [] && |Live(members)| != 1
  {
    Reaching(members, Slot(request, |Live(members)|), k)
  }

  /** A live member lies strictly between the first key of the map and `k`. */
  ghost predicate Sheltered(members: map<string, Entry>, k: string)
  {
    exists j, x :: j in Live(members) && Before(j, k) && x in members && Before(x, j)
  }

  // ----- the choice told without positions

  /** `next` is the cyclically next live member after `k`. */
  ghost predicate NextLive(members: map<string, Entry>, k: string, next: string)
  {
    && next in Live(members)
    && if exists y :: y in Live(members) && Before(k, y)
       then Before(k, next) && forall y :: y in Live(members) && Before(k, y) ==> !Before(y, next)
       else forall y :: y in Live(members) ==> !Before(y, next)
  }

  /** The third copy: the nearest live member before `k`; but where only the first key of the map could
      be that, whatever the end of the map holds, or, if that is marked failed, the last live member. */
  ghost predicate ThirdCopy(members: map<string, Entry>, k: string, end: End, previous: string)
  {
    if exists j :: j in Live(members) && Before(j, k) && !Least(members.Keys, j) then
      previous in Live(members) && Before(previous, k)
      && forall y :: y in Live(members) && Before(y, k) ==> !Before(previous, y)
    else if end.failed then
      previous in Live(members) && forall y :: y in Live(members) ==> !Before(previous, y)
    else
      previous == end.key
  }

  /** Three copies for the number `val`: around the first live member that reaches it, or, where none
      does, what the end of the map holds and the first two keys. */
  ghost predicate Laid(members: map<string, Entry>, val: int, end: End, res: seq<string>)
    requires DottedKeys(members)
  {
    && |res| == 3
    && if exists k :: Reaching(members, val, k) then
         Reaching(members, val, res[0]) && NextLive(members, res[0], res[1])
         && ThirdCopy(members, res[0], end, res[2])
       else
         res[0] == end.key && Least(members.Keys, res[1])
         && if |members| == 1 then res[2] == end.key else Least(members.Keys - {res[1]}, res[2])
  }

  /** The whole answer to a request that starts with `first`. Without a live member the number does not
      matter. */
  ghost predicate RightChoice(members: map<string, Entry>, first: char, end: End, res: seq<string>)
    requires DottedKeys(members)
  {
    exists val :: (|Live(members)| >= 2 ==> SlotOf(first, |Live(members)|, val)) && Laid(members, val, end, res)
  }

  // ----- the walks

  ghost function LiveUpTo(ks: seq<string>, members: map<string, Entry>, i: nat): set<string>
    requires i <= |ks|
  {
    set j | 0 <= j < i && ks[j] in members && !members[ks[j]].failed :: ks[j]
  }

  lemma LiveUpToNext(ks: seq<string>, members: map<string, Entry>, i: nat)
    requires Ordered(ks) && i < |ks| && ks[i] in members
    ensures |LiveUpTo(ks, members, i + 1)| == |LiveUpTo(ks, members, i)| + if members[ks[i]].failed then 0 else 1
  {
    var here := LiveUpTo(ks, members, i);
    forall j | 0 <= j < i ensures ks[j] != ks[i] { OrderedDistinct(ks, j, i); }
    assert LiveUpTo(ks, members, i + 1) == here + if members[ks[i]].failed then {} else {ks[i]};
    assert ks[i] !in here;
  }

  lemma LiveUpToEnd(ks: seq<string>, members: map<string, Entry>)
    requires forall k :: k in ks <==> k in members
    ensures LiveUpTo(ks, members, |ks|) == Live(members)
  {
  }

  method NumberOfActiveNodes(members: map<string, Entry>) returns (count: nat)
    ensures count == |Live(members)|
  {
    var ks := Keys(members.Keys);
    count := 0;
    for i := 0 to |ks|
      invariant count == |LiveUpTo(ks, members, i)|
    {
      assert ks[i] in ks;
      LiveUpToNext(ks, members, i);
      if !members[ks[i]].failed {
        count := count + 1;
      }
    }
    LiveUpToEnd(ks, members);
  }

  ghost predicate Mirrors(ks: seq<string>, members: map<string, Entry>, live: seq<bool>)
  {
    |live| == |ks| && forall i :: 0 <= i < |ks| ==> ks[i] in members && live[i] == !members[ks[i]].failed
  }

  /** A walk up from `start` past failed entries; the flag is read before the end is tested. */
  method WalkUp(ks: seq<string>, members: map<string, Entry>, start: nat, end: End, ghost live: seq<bool>)
    returns (it2: nat)
    requires Mirrors(ks, members, live) && start <= |ks|
    ensures it2 == FirstFrom(live, start)
  {
    it2 := start;
    while (if it2 == |ks| then end.failed else members[ks[it2]].failed) && it2 != |ks|
      invariant start <= it2 <= |ks|
      invariant FirstFrom(live, start) == FirstFrom(live, it2)
      decreases |ks| - it2
    {
      it2 := it2 + 1;
    }
  }

  /** A walk down from `start`, which may be the end, past failed entries to the first at most. */
  method WalkDown(ks: seq<string>, members: map<string, Entry>, start: nat, end: End, ghost live: seq<bool>)
    returns (it2: nat)
    requires Mirrors(ks, members, live) && start <= |ks| && ks != []
    ensures it2 == if start < |ks| then LastDownTo(live, start)
                   else if end.failed then LastDownTo(live, |ks| - 1) else start
  {
    it2 := start;
    while (if it2 == |ks| then end.failed else members[ks[it2]].failed) && it2 != 0
      invariant it2 <= start
      invariant it2 < |ks| ==> LastDownTo(live, it2) == LastDownTo(live, if start < |ks| then start else |ks| - 1)
      invariant it2 < |ks| && start == |ks| ==> end.failed
    {
      it2 := it2 - 1;
    }
  }

  /** The branch taken at the slotted entry `it`. */
  method CopiesAround(ks: seq<string>, members: map<string, Entry>, it: nat, end: End, ghost live: seq<bool>)
    returns (res: seq<string>)
    requires Mirrors(ks, members, live) && it < |ks| && live[it]
    ensures res == [KeyIn(ks, it, end), KeyIn(ks, NextPosition(live, it), end),
                    KeyIn(ks, PreviousPosition(live, it, end.failed), end)]
  {
    res := [ks[it]];
    var it2 := WalkUp(ks, members, it + 1, end, live);
    if it2 == |ks| {
      it2 := WalkUp(ks, members, 0, end, live);
    }
    res := res + [KeyIn(ks, it2, end)];
    if it == 0 {
      it2 := 0;
    } else {
      it2 := it - 1;
    }
    it2 := WalkDown(ks, members, it2, end, live);
    if it2 == 0 {
      it2 := WalkDown(ks, members, |ks|, end, live);
    }
    res := res + [KeyIn(ks, it2, end)];
  }

  lemma FlagsAt(members: map<string, Entry>, i: nat)
    requires i < |members|
    ensures Keys(members.Keys)[i] in members
    ensures LiveFlags(members)[i] == !members[Keys(members.Keys)[i]].failed
  {
  }

  lemma KeysMirror(members: map<string, Entry>)
    ensures Mirrors(Keys(members.Keys), members, LiveFlags(members))
  {
  }

  /** The search for the first live entry that reaches the slot. */
  method FindSlot(members: map<string, Entry>, ks: seq<string>, val: int, ghost live: seq<bool>) returns (it: nat)
    requires DottedKeys(members) && ks == Keys(members.Keys) && live == LiveFlags(members)
    requires Mirrors(ks, members, live)
    ensures it == SlotFrom(members, val, 0)
  {
    it := 0;
    while it != |ks|
      invariant 0 <= it <= |ks|
      invariant SlotFrom(members, val, 0) == SlotFrom(members, val, it)
      decreases |ks| - it
    {
      var val1 := Octet(ks[it]);
      if val1 >= val && !members[ks[it]].failed {
        return;
      }
      it := it + 1;
    }
  }

  method WhereTo(members: map<string, Entry>, request: string, end: End) returns (res: seq<string>)
    requires DottedKeys(members) && members != map[] && request != [] && |Live(members)| != 1
    ensures res == Chosen(members, request, end)
    ensures request[0] as int < 256 ==> RightChoice(members, request[0], end, res)
  {
    var active := NumberOfActiveNodes(members);
    var val := Slot(request, active);
    var ks := Keys(members.Keys);
    ghost var live := LiveFlags(members);
    KeysMirror(members);
    var it := FindSlot(members, ks, val, live);
    if it != |ks| {
      res := CopiesAround(ks, members, it, end, live);
    } else {
      res := [end.key];
      res := res + [KeyIn(ks, 0, end)];
      res := res + [KeyIn(ks, 1, end)];
    }
    ChosenIsRight(members, request, end);
  }

  // ----- what the choice means

  lemma {:induction false} SlotFromMeans(members: map<string, Entry>, val: int, i: nat, x: nat)
    requires DottedKeys(members) && i <= |members| && i <= x < SlotFrom(members, val, i)
    ensures var ks := Keys(members.Keys); ks[x] in members && (LiveFlags(members)[x] ==> Octet(ks[x]) < val)
    decreases |members| - i
  {
    FlagsAt(members, x);
    if i < x { SlotFromMeans(members, val, i + 1, x); }
  }

  lemma {:induction false} SlotFromReaches(members: map<string, Entry>, val: int, i: nat)
    requires DottedKeys(members) && i <= |members| && SlotFrom(members, val, i) < |members|
    ensures var ks := Keys(members.Keys); var r := SlotFrom(members, val, i);
            ks[r] in members && Octet(ks[r]) >= val
    decreases |members| - i
  {
    FlagsAt(members, i);
    if !(Octet(Keys(members.Keys)[i]) >= val && LiveFlags(members)[i]) { SlotFromReaches(members, val, i + 1); }
  }

  lemma PositionOf(members: map<string, Entry>, k: string) returns (i: nat)
    requires k in members
    ensures i < |members| && Keys(members.Keys)[i] == k
    ensures LiveFlags(members)[i] <==> k in Live(members)
  {
    var ks := Keys(members.Keys);
    assert k in ks;
    i :| 0 <= i < |ks| && ks[i] == k;
    FlagsAt(members, i);
  }

  lemma KeyOrder(members: map<string, Entry>, i: nat, j: nat)
    requires i < |members| && j < |members|
    ensures var ks := Keys(members.Keys); Before(ks[i], ks[j]) <==> i < j
  {
    var ks := Keys(members.Keys);
    BeforeIrreflexive(ks[i]);
    if i < j {
      OrderedAt(ks, i, j);
    } else if j < i && Before(ks[i], ks[j]) {
      OrderedAt(ks, j, i);
      BeforeTransitive(ks[i], ks[j], ks[i]);
    }
  }

  /** The position found is the slotted member, and there is one exactly when a slot is found. */
  lemma SlotMeans(members: map<string, Entry>, request: string)
    requires DottedKeys(members) && request != [] && |Live(members)| != 1
    ensures var i := SlotFrom(members, Slot(request, |Live(members)|), 0);
            if i < |members| then Slotted(members, request, Keys(members.Keys)[i])
            else !exists k :: Slotted(members, request, k)
  {
    var val := Slot(request, |Live(members)|);
    var i := SlotFrom(members, val, 0);
    var ks := Keys(members.Keys);
    if i < |members| {
      SlotFromReaches(members, val, 0);
      FlagsAt(members, i);
      forall x | x in Live(members) && Before(x, ks[i]) ensures Octet(x) < val {
        var p := PositionOf(members, x);
        KeyOrder(members, p, i);
        SlotFromMeans(members, val, 0, p);
      }
    } else if exists k :: Slotted(members, request, k) {
      var k :| Slotted(members, request, k);
      var p := PositionOf(members, k);
      SlotFromMeans(members, val, 0, p);
    }
  }

  lemma SlottedUnique(members: map<string, Entry>, request: string, k: string, k': string)
    requires DottedKeys(members) && request != [] && |Live(members)| != 1
    requires Slotted(members, request, k) && Slotted(members, request, k')
    ensures k == k'
  {
    BeforeTotal(k, k');
  }

  // ----- the answer is the right one, and the only one

  lemma FirstKeys(members: map<string, Entry>)
    requires members != map[]
    ensures var ks := Keys(members.Keys);
            Least(members.Keys, ks[0]) && (|ks| > 1 ==> Least(members.Keys - {ks[0]}, ks[1]))
  {
    var ks := Keys(members.Keys);
    forall x | x in members ensures x == ks[0] || (Before(ks[0], x) && (x == ks[1] || Before(ks[1], x))) {
      var p := PositionOf(members, x);
      if p > 0 { KeyOrder(members, 0, p); }
      if p > 1 { KeyOrder(members, 1, p); }
    }
    assert ks[0] in ks;
    if |ks| > 1 {
      assert ks[1] in ks;
      KeysDiffer(members, 0, 1);
    }
  }

  /** The last live position holds the last live member. */
  lemma LastIsLive(members: map<string, Entry>, i: nat)
    requires i < |members| && LiveFlags(members)[i]
    ensures var last := Keys(members.Keys)[LastDownTo(LiveFlags(members), |members| - 1)];
            last in Live(members) && forall y :: y in Live(members) ==> !Before(last, y)
  {
    var p := LastDownTo(LiveFlags(members), |members| - 1);
    assert i <= p;
    FlagsAt(members, p);
    forall y | y in Live(members) ensures !Before(Keys(members.Keys)[p], y) {
      var q := PositionOf(members, y);
      KeyOrder(members, p, q);
    }
  }

  /** Walking down from below position `i`: the nearest live member before it, or the first position. */
  lemma DownMeans(members: map<string, Entry>, i: nat)
    requires 0 < i < |members| && LastDownTo(LiveFlags(members), i - 1) > 0
    ensures var k := Keys(members.Keys)[i]; var p := Keys(members.Keys)[LastDownTo(LiveFlags(members), i - 1)];
            && p in Live(members) && Before(p, k) && !Least(members.Keys, p)
            && forall y :: y in Live(members) && Before(y, k) ==> !Before(p, y)
  {
    var ks := Keys(members.Keys);
    var r := LastDownTo(LiveFlags(members), i - 1);
    FlagsAt(members, r);
    FlagsAt(members, 0);
    KeyOrder(members, r, i);
    KeyOrder(members, 0, r);
    KeyOrder(members, r, 0);
    KeysDiffer(members, 0, r);
    forall y | y in Live(members) && Before(y, ks[i]) ensures !Before(ks[r], y) {
      var p := PositionOf(members, y);
      KeyOrder(members, p, i);
      KeyOrder(members, r, p);
    }
  }

  lemma NoneBelow(members: map<string, Entry>, i: nat, j: string)
    requires i < |members| && (i == 0 || LastDownTo(LiveFlags(members), i - 1) == 0)
    requires j in Live(members) && Before(j, Keys(members.Keys)[i])
    ensures Least(members.Keys, j)
  {
    var p := PositionOf(members, j);
    KeyOrder(members, p, i);
    FirstKeys(members);
  }

  lemma NothingBelow(members: map<string, Entry>, i: nat)
    requires i < |members| && (i == 0 || LastDownTo(LiveFlags(members), i - 1) == 0)
    ensures !exists j :: j in Live(members) && Before(j, Keys(members.Keys)[i]) && !Least(members.Keys, j)
  {
    forall j | j in Live(members) && Before(j, Keys(members.Keys)[i]) ensures Least(members.Keys, j) {
      NoneBelow(members, i, j);
    }
  }

  lemma PreviousIsThird(members: map<string, Entry>, i: nat, end: End)
    requires i < |members| && LiveFlags(members)[i]
    ensures ThirdCopy(members, Keys(members.Keys)[i], end,
                      KeyAt(members, PreviousPosition(LiveFlags(members), i, end.failed), end))
  {
    if i != 0 && LastDownTo(LiveFlags(members), i - 1) != 0 {
      DownMeans(members, i);
    } else {
      NothingBelow(members, i);
      if end.failed { LastIsLive(members, i); }
    }
  }

  /** The answer, spelled out for every request and every content of the map's end. */
  lemma ChosenIsRight(members: map<string, Entry>, request: string, end: End)
    requires DottedKeys(members) && members != map[] && request != [] && |Live(members)| != 1
    ensures request[0] as int < 256 ==> RightChoice(members, request[0], end, Chosen(members, request, end))
  {
    var val := Slot(request, |Live(members)|);
    if |Live(members)| >= 2 && request[0] as int < 256 { SlotMeaning(request, |Live(members)|); }
    ChosenIsLaid(members, request, end);
    assert Laid(members, val, end, Chosen(members, request, end));
  }

  lemma ChosenIsLaid(members: map<string, Entry>, request: string, end: End)
    requires DottedKeys(members) && members != map[] && request != [] && |Live(members)| != 1
    ensures Laid(members, Slot(request, |Live(members)|), end, Chosen(members, request, end))
  {
    SlotMeans(members, request);
    if SlotFrom(members, Slot(request, |Live(members)|), 0) < |members| {
      ReachedIsLaid(members, request, end);
    } else {
      MissedIsLaid(members, request, end);
    }
  }

  lemma ReachedIsLaid(members: map<string, Entry>, request: string, end: End)
    requires DottedKeys(members) && members != map[] && request != [] && |Live(members)| != 1
    requires SlotFrom(members, Slot(request, |Live(members)|), 0) < |members|
    requires Slotted(members, request, Keys(members.Keys)[SlotFrom(members, Slot(request, |Live(members)|), 0)])
    ensures Laid(members, Slot(request, |Live(members)|), end, Chosen(members, request, end))
  {
    var i := SlotFrom(members, Slot(request, |Live(members)|), 0);
    NextMeans(members, i);
    PreviousIsThird(members, i, end);
  }

  lemma MissedIsLaid(members: map<string, Entry>, request: string, end: End)
    requires DottedKeys(members) && members != map[] && request != [] && |Live(members)| != 1
    requires SlotFrom(members, Slot(request, |Live(members)|), 0) == |members|
    requires !exists k :: Slotted(members, request, k)
    ensures Laid(members, Slot(request, |Live(members)|), end, Chosen(members, request, end))
  {
    NoneReaching(members, request, Slot(request, |Live(members)|));
    FirstKeys(members);
  }

  lemma NoneReaching(members: map<string, Entry>, request: string, val: int)
    requires DottedKeys(members) && request != [] && |Live(members)| != 1 && val == Slot(request, |Live(members)|)
    requires !exists k :: Slotted(members, request, k)
    ensures !exists k :: Reaching(members, val, k)
  {
    if k :| Reaching(members, val, k) { assert Slotted(members, request, k); }
  }

  lemma LaidOnce(members: map<string, Entry>, val: int, end: End, res: seq<string>, res': seq<string>)
    requires DottedKeys(members) && Laid(members, val, end, res) && Laid(members, val, end, res')
    ensures res == res'
  {
    if exists k :: Reaching(members, val, k) {
      BeforeTotal(res[0], res'[0]);
      BeforeTotal(res[1], res'[1]);
      BeforeTotal(res[2], res'[2]);
    } else {
      LeastUnique(members.Keys, res[1], res'[1]);
      if |members| != 1 { LeastUnique(members.Keys - {res[1]}, res[2], res'[2]); }
    }
    assert res == [res[0], res[1], res[2]] && res' == [res'[0], res'[1], res'[2]];
  }

  /** It is the only answer so described. */
  lemma ChoiceUnique(members: map<string, Entry>, first: char, end: End, res: seq<string>, res': seq<string>)
    requires DottedKeys(members) && |Live(members)| >= 2
    requires RightChoice(members, first, end, res) && RightChoice(members, first, end, res')
    ensures res == res'
  {
    var active := |Live(members)|;
    var val :| SlotOf(first, active, val) && Laid(members, val, end, res);
    var val' :| SlotOf(first, active, val') && Laid(members, val', end, res');
    SlotUnique(first, active, val, val');
    LaidOnce(members, val, end, res, res');
  }

  lemma ThirdLive(members: map<string, Entry>, a: string, b: string)
    requires a in Live(members) && b in Live(members) && a != b
    ensures |Live(members)| >= 3 <==> exists x :: x in Live(members) && x != a && x != b
  {
    var rest := Live(members) - {a} - {b};
    assert |Live(members)| == |rest| + 2;
    if x :| x in Live(members) && x != a && x != b { assert x in rest; }
    if |rest| > 0 { var x :| x in rest; }
  }

  lemma KeysDiffer(members: map<string, Entry>, i: nat, j: nat)
    requires i < |members| && j < |members| && i != j
    ensures Keys(members.Keys)[i] != Keys(members.Keys)[j]
  {
    OrderedDistinct(Keys(members.Keys), if i < j then i else j, if i < j then j else i);
  }

  lemma ShelteredAt(members: map<string, Entry>, i: nat, j: nat)
    requires 0 < j < i < |members| && LiveFlags(members)[j]
    ensures Sheltered(members, Keys(members.Keys)[i])
  {
    var ks := Keys(members.Keys);
    FlagsAt(members, j);
    FlagsAt(members, 0);
    KeyOrder(members, j, i);
    KeyOrder(members, 0, j);
    assert ks[j] in Live(members);
  }

  lemma ConditionAt(live: seq<bool>, i: nat, p: nat, q: nat)
    requires 0 < p < i < |live| && live[p] && q < |live| && live[q] && q != i && q != p
    ensures Condition(live, i)
  {
  }

  /** A live member below place `i` and above some key has a place strictly between. */
  lemma PlaceBetween(members: map<string, Entry>, i: nat, j: string, x: string) returns (p: nat)
    requires i < |members| && j in Live(members) && Before(j, Keys(members.Keys)[i])
    requires x in members && Before(x, j)
    ensures 0 < p < i && LiveFlags(members)[p] && Keys(members.Keys)[p] == j
  {
    p := PositionOf(members, j);
    var px := PositionOf(members, x);
    KeyOrder(members, p, i);
    KeyOrder(members, px, p);
    FlagsAt(members, p);
  }

  lemma ConditionFrom(members: map<string, Entry>, i: nat)
    requires i < |members| && LiveFlags(members)[i] && |Live(members)| >= 3
    requires Sheltered(members, Keys(members.Keys)[i])
    ensures Condition(LiveFlags(members), i)
  {
    var k := Keys(members.Keys)[i];
    var j, x :| j in Live(members) && Before(j, k) && x in members && Before(x, j);
    var p := PlaceBetween(members, i, j, x);
    FlagsAt(members, i);
    KeysDiffer(members, p, i);
    ThirdLive(members, k, j);
    var y :| y in Live(members) && y != k && y != j;
    var q := PositionOf(members, y);
    ConditionAt(LiveFlags(members), i, p, q);
  }

  lemma ThreeLiveAt(members: map<string, Entry>, a: nat, b: nat, c: nat, end: End)
    requires end.key !in members
    requires ThreeLive(members, [KeyAt(members, a, end), KeyAt(members, b, end), KeyAt(members, c, end)])
    ensures ThreeLivePositions(LiveFlags(members), a, b, c)
  {
  }

  lemma ThreeLiveFrom(members: map<string, Entry>, a: nat, b: nat, c: nat, end: End)
    requires ThreeLivePositions(LiveFlags(members), a, b, c)
    ensures ThreeLive(members, [KeyAt(members, a, end), KeyAt(members, b, end), KeyAt(members, c, end)])
  {
    FlagsAt(members, a);
    FlagsAt(members, b);
    FlagsAt(members, c);
    KeysDiffer(members, a, b);
    KeysDiffer(members, a, c);
    KeysDiffer(members, b, c);
  }

  /** Some string is not a key. */
  lemma Stranger(members: map<string, Entry>) returns (k: string)
    ensures k !in members
  {
    k := LongerThanAll(members.Keys);
  }

  lemma LongerThanAll(s: set<string>) returns (k: string)
    ensures k != "" && forall x :: x in s ==> |x| < |k|
    decreases |s|
  {
    if s == {} {
      k := "a";
    } else {
      var y :| y in s;
      var l := LongerThanAll(s - {y});
      k := l + y;
      forall x | x in s ensures |x| < |k| {
        assert x == y || x in s - {y};
      }
    }
  }

  lemma ConditionMeans(members: map<string, Entry>, i: nat)
    requires i < |members| && Condition(LiveFlags(members), i) && LiveFlags(members)[i]
    ensures |Live(members)| >= 3 && Sheltered(members, Keys(members.Keys)[i])
  {
    var live := LiveFlags(members);
    var j: nat, x: nat :| 0 < j < i < |live| && live[j] && x < |live| && live[x] && x != i && x != j;
    ShelteredAt(members, i, j);
    ThreePositions(members, i, j, x);
  }

  lemma ThreePositions(members: map<string, Entry>, i: nat, j: nat, x: nat)
    requires ThreeLivePositions(LiveFlags(members), i, j, x)
    ensures |Live(members)| >= 3
  {
    var a, b, c := LiveKey(members, i), LiveKey(members, j), LiveKey(members, x);
    KeysDiffer(members, i, j);
    KeysDiffer(members, i, x);
    KeysDiffer(members, j, x);
    ThirdLive(members, a, b);
    assert c in Live(members);
  }

  ghost function LiveKey(members: map<string, Entry>, i: nat): (k: string)
    requires i < |members| && LiveFlags(members)[i]
    ensures k in Live(members) && k == Keys(members.Keys)[i]
  {
    FlagsAt(members, i);
    Keys(members.Keys)[i]
  }

  /** Three live positions and three live addresses are the same thing. */
  lemma PositionsAreLive(members: map<string, Entry>, request: string, i: nat)
    requires DottedKeys(members) && members != map[] && request != [] && |Live(members)| != 1
    requires i == SlotFrom(members, Slot(request, |Live(members)|), 0) < |members|
    ensures var live := LiveFlags(members);
            (forall end: End :: ThreeLive(members, Chosen(members, request, end)))
            <==> (forall e :: ThreeLivePositions(live, i, NextPosition(live, i), PreviousPosition(live, i, e)))
  {
    var live := LiveFlags(members);
    var stranger := Stranger(members);
    if forall end: End :: ThreeLive(members, Chosen(members, request, end)) {
      forall e ensures ThreeLivePositions(live, i, NextPosition(live, i), PreviousPosition(live, i, e)) {
        assert ThreeLive(members, Chosen(members, request, End(stranger, e)));
        ThreeLiveAt(members, i, NextPosition(live, i), PreviousPosition(live, i, e), End(stranger, e));
      }
    }
    if forall e :: ThreeLivePositions(live, i, NextPosition(live, i), PreviousPosition(live, i, e)) {
      forall end: End ensures ThreeLive(members, Chosen(members, request, end)) {
        assert ThreeLivePositions(live, i, NextPosition(live, i), PreviousPosition(live, i, end.failed));
        ThreeLiveFrom(members, i, NextPosition(live, i), PreviousPosition(live, i, end.failed), end);
      }
    }
  }

  /** The placement of a request is three different live members, whatever lies behind the end of
      the map, exactly when at least three members live, the request is slotted to one of them, and
      a live member lies strictly between the first key and that one. */
  lemma WhereToIff(members: map<string, Entry>, request: string)
    requires DottedKeys(members) && members != map[] && request != [] && |Live(members)| != 1
    ensures (forall end: End :: ThreeLive(members, Chosen(members, request, end)))
            <==> |Live(members)| >= 3 && exists k :: Slotted(members, request, k) && Sheltered(members, k)
  {
    var i := SlotFrom(members, Slot(request, |Live(members)|), 0);
    SlotMeans(members, request);
    if i == |members| {
      var stranger := Stranger(members);
      assert Chosen(members, request, End(stranger, false))[0] == stranger;
    } else {
      SlottedIff(members, request, i);
      ChoiceIff(LiveFlags(members), i);
      PositionsAreLive(members, request, i);
    }
  }

  /** Three members, all live, in key order. */
  ghost predicate LiveTrio(members: map<string, Entry>, a: string, b: string, c: string)
  {
    members.Keys == {a, b, c} && Live(members) == {a, b, c} && DottedKeys(members) && Before(a, b) && Before(b, c)
  }

  lemma TrioSize(members: map<string, Entry>, a: string, b: string, c: string)
    requires LiveTrio(members, a, b, c)
    ensures a != b && a != c && b != c && |Live(members)| == 3
  {
    BeforeIrreflexive(a);
    BeforeIrreflexive(b);
    if a == c { BeforeTransitive(a, b, a); }
  }

  lemma SecondNotSheltered(members: map<string, Entry>, a: string, b: string, c: string)
    requires LiveTrio(members, a, b, c)
    ensures !Sheltered(members, b)
  {
    forall j, x | j in Live(members) && Before(j, b) && x in members ensures !Before(x, j) {
      BeforeIrreflexive(b);
      BeforeIrreflexive(a);
      if j == c { BeforeTransitive(b, c, b); }
      if x == b && Before(b, a) { BeforeTransitive(a, b, a); }
      if x == c && Before(c, a) { BeforeTransitive(b, c, a); BeforeTransitive(a, b, a); }
    }
  }

  /** A request slotted to the second of three live members is misplaced, for some content of the end
      of the map: the nearest live predecessor is the first key, where the search goes wrong. */
  lemma FirstKeyMisplaces(members: map<string, Entry>, request: string, a: string, b: string, c: string)
    requires LiveTrio(members, a, b, c) && request != [] && Octet(a) < Slot(request, 3) <= Octet(b)
    ensures |Live(members)| == 3 && exists end :: !ThreeLive(members, Chosen(members, request, end))
  {
    TrioSize(members, a, b, c);
    forall k | Slotted(members, request, k) ensures !Sheltered(members, k) {
      assert k == b;
      SecondNotSheltered(members, a, b, c);
    }
    WhereToIff(members, request);
  }

  /** A request slotted to the third of three live members is placed on all three, whatever the end of
      the map holds. */
  lemma ThirdKeyPlaces(members: map<string, Entry>, request: string, a: string, b: string, c: string)
    requires LiveTrio(members, a, b, c) && request != []
    requires Octet(a) < Slot(request, 3) && Octet(b) < Slot(request, 3) <= Octet(c)
    ensures |Live(members)| == 3 && Slotted(members, request, c) && Sheltered(members, c)
    ensures forall end: End :: ThreeLive(members, Chosen(members, request, end))
  {
    TrioSize(members, a, b, c);
    BeforeIrreflexive(c);
    WhereToIff(members, request);
  }

  /** The addresses 10.0.0.35 to 10.0.0.38. */
  lemma {:induction false} FourHosts() returns (hosts: seq<string>)
    ensures |hosts| == 4 && forall i :: 0 <= i < 4 ==> Dotted(hosts[i]) && Octet(hosts[i]) == 35 + i
    ensures forall i :: 0 <= i < 3 ==> Before(hosts[i], hosts[i + 1])
  {
    var parts := ["35", "36", "37", "38"];
    hosts := Hosts(parts);
    TwoDigits('3', '5');
    TwoDigits('3', '6');
    TwoDigits('3', '7');
    TwoDigits('3', '8');
    forall i | 0 <= i < 3 ensures Before(hosts[i], hosts[i + 1]) {
      assert Before(parts[i], parts[i + 1]);
    }
  }

  lemma SlotOfA(rest: string)
    ensures Slot("a" + rest, 3) == 37
  {
  }

  /** Three such members exist, with every name that starts with an `a`. */
  lemma {:induction false} MisplacedExample(rest: string)
    returns (members: map<string, Entry>, a: string, b: string, c: string)
    ensures LiveTrio(members, a, b, c) && |Live(members)| == 3
    ensures exists end :: !ThreeLive(members, Chosen(members, "a" + rest, end))
  {
    var hosts := FourHosts();
    a, b, c := hosts[1], hosts[2], hosts[3];
    members := AllLive({a, b, c});
    SlotOfA(rest);
    FirstKeyMisplaces(members, "a" + rest, a, b, c);
  }

  /** With a live member more, 10.0.0.35, the same names are placed well. */
  lemma {:induction false} PlacedExample(rest: string) returns (members: map<string, Entry>)
    ensures DottedKeys(members) && |Live(members)| == 4
    ensures exists k :: Slotted(members, "a" + rest, k) && Sheltered(members, k)
  {
    var hosts := FourHosts();
    var z, a, b, c := hosts[0], hosts[1], hosts[2], hosts[3];
    members := AllLive({z, a, b, c});
    FourSize(z, a, b, c);
    assert Slot("a" + rest, 4) == 37;
    SecondOfFour(members, "a" + rest, z, a, b, c);
  }

  lemma FourSize(z: string, a: string, b: string, c: string)
    requires Before(z, a) && Before(a, b) && Before(b, c)
    ensures |{z, a, b, c}| == 4 && !Before(c, b)
  {
    BeforeIrreflexive(z);
    BeforeIrreflexive(a);
    BeforeIrreflexive(b);
    BeforeTransitive(z, a, b);
    BeforeTransitive(a, b, c);
    BeforeTransitive(z, b, c);
    if Before(c, b) { BeforeTransitive(b, c, b); }
    assert z != a && z != b && z != c && a != b && a != c && b != c;
  }

  lemma SecondOfFour(members: map<string, Entry>, request: string, z: string, a: string, b: string, c: string)
    requires members.Keys == {z, a, b, c} && Live(members) == {z, a, b, c} && |Live(members)| == 4
    requires DottedKeys(members)
    requires Before(z, a) && Before(a, b) && !Before(c, b) && request != []
    requires Octet(z) < Slot(request, 4) && Octet(a) < Slot(request, 4) && Slot(request, 4) <= Octet(b)
    ensures Slotted(members, request, b) && Sheltered(members, b)
  {
    BeforeIrreflexive(b);
  }

  ghost function AllLive(s: set<string>): (members: map<string, Entry>)
    ensures members.Keys == s && Live(members) == s
  {
    map k | k in s :: Entry(0, false)
  }

  lemma SlottedIff(members: map<string, Entry>, request: string, i: nat)
    requires DottedKeys(members) && request != [] && |Live(members)| != 1 && i < |members|
    requires LiveFlags(members)[i] && Slotted(members, request, Keys(members.Keys)[i])
    ensures |Live(members)| >= 3 && (exists k :: Slotted(members, request, k) && Sheltered(members, k))
            <==> Condition(LiveFlags(members), i)
  {
    var ks := Keys(members.Keys);
    if |Live(members)| >= 3 && exists k :: Slotted(members, request, k) && Sheltered(members, k) {
      var k :| Slotted(members, request, k) && Sheltered(members, k);
      SlottedUnique(members, request, k, ks[i]);
      ConditionFrom(members, i);
    }
    if Condition(LiveFlags(members), i) {
      ConditionMeans(members, i);
    }
  }

  /** `next` is the cyclically next live member after `k`, and `previous` the nearest live one
      before it. */
  ghost predicate NearestAround(members: map<string, Entry>, k: string, next: string, previous: string)
  {
    && NextLive(members, k, next)
    && Before(previous, k)
    && forall y :: y in Live(members) && Before(y, k) ==> !Before(previous, y)
  }

  /** When the placement is sound its second copy is the cyclically next live member and its third
      the nearest live predecessor of the slotted member. */
  lemma NextAndPrevious(members: map<string, Entry>, request: string, end: End, k: string)
    requires DottedKeys(members) && members != map[] && request != [] && |Live(members)| >= 3
    requires Slotted(members, request, k) && Sheltered(members, k)
    ensures exists next, previous ::
              Chosen(members, request, end) == [k, next, previous] && NearestAround(members, k, next, previous)
  {
    var live := LiveFlags(members);
    var ks := Keys(members.Keys);
    var i := SlotFrom(members, Slot(request, |Live(members)|), 0);
    SlotMeans(members, request);
    SlottedUnique(members, request, k, ks[i]);
    ConditionFrom(members, i);
    Nearest(members, i, end.failed);
    var res := Chosen(members, request, end);
    assert res == [k, res[1], res[2]];
  }

  lemma Nearest(members: map<string, Entry>, i: nat, endFailed: bool)
    requires i < |members| && LiveFlags(members)[i] && Condition(LiveFlags(members), i)
    ensures NextPosition(LiveFlags(members), i) < |members|
      && PreviousPosition(LiveFlags(members), i, endFailed) < |members|
    ensures var ks := Keys(members.Keys);
            NearestAround(members, ks[i], ks[NextPosition(LiveFlags(members), i)],
                          ks[PreviousPosition(LiveFlags(members), i, endFailed)])
  {
    NextMeans(members, i);
    PreviousMeans(members, i, endFailed);
  }

  lemma NextMeans(members: map<string, Entry>, i: nat)
    requires i < |members| && LiveFlags(members)[i]
    ensures NextPosition(LiveFlags(members), i) < |members|
    ensures NextLive(members, Keys(members.Keys)[i], Keys(members.Keys)[NextPosition(LiveFlags(members), i)])
  {
    var live := LiveFlags(members);
    var ks := Keys(members.Keys);
    var next := NextPosition(live, i);
    KeyOrder(members, i, next);
    FlagsAt(members, next);
    if y :| y in Live(members) && Before(ks[i], y) {
      var p := PositionOf(members, y);
      KeyOrder(members, i, p);
    }
    forall y | y in Live(members) && (Before(ks[i], y) || FirstFrom(live, i + 1) == |live|)
      ensures !Before(y, ks[next])
    {
      var p := PositionOf(members, y);
      KeyOrder(members, i, p);
      KeyOrder(members, p, next);
    }
    if FirstFrom(live, i + 1) < |live| { assert ks[next] in Live(members) && Before(ks[i], ks[next]); }
  }

  lemma PreviousMeans(members: map<string, Entry>, i: nat, endFailed: bool)
    requires i < |members| && Condition(LiveFlags(members), i)
    ensures PreviousPosition(LiveFlags(members), i, endFailed) < |members|
    ensures var k := Keys(members.Keys)[i];
            var p := Keys(members.Keys)[PreviousPosition(LiveFlags(members), i, endFailed)];
            Before(p, k) && forall y :: y in Live(members) && Before(y, k) ==> !Before(p, y)
  {
    var live := LiveFlags(members);
    var ks := Keys(members.Keys);
    var r := PreviousPosition(live, i, endFailed);
    var j, x :| 0 < j < i < |live| && live[j] && 0 <= x < |live| && live[x] && x != i && x != j;
    assert r == LastDownTo(live, i - 1) && r >= j;
    KeyOrder(members, r, i);
    forall y | y in Live(members) && Before(y, ks[i]) ensures !Before(ks[r], y) {
      var p := PositionOf(members, y);
      KeyOrder(members, p, i);
      KeyOrder(members, r, p);
    }
  }
}
