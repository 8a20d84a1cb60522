/** The number a name is slotted to: its first character, spread over as many values as there are live
    members beside the master. */
module Slots {

  /** Remainder with the sign of the dividend. */
  function Remainder(a: int, b: int): int
    requires b != 0
  {
    var m := if b < 0 then -b else b;
    if a >= 0 then a % m else -((-a) % m)
  }

  /** A character read as a signed byte. */
  function SignedByte(c: char): int
  {
    var b := c as int % 256;
    if b < 128 then b else b - 256
  }

  function Slot(request: string, active: nat): int
    requires request != [] && active != 1
  {
    37 + Remainder(SignedByte(request[0]) - 'a' as int, active - 1)
  }

  /** `val` is 37 plus the distance of the first character from an `a`, less a multiple of `active - 1`
      that brings it below `active - 1` without changing its sign. Characters from 128 on are
      negative. */
  ghost predicate SlotOf(first: char, active: nat, val: int)
    requires active >= 2
  {
    var distance := first as int - 97 - if first as int < 128 then 0 else 256;
    var offset := val - 37;
    && -(active - 1) < offset < active - 1
    && (distance >= 0 ==> offset >= 0) && (distance <= 0 ==> offset <= 0)
    && (distance - offset) % (active - 1) == 0
  }

  lemma Multiple(n: int, k: int)
    requires n > 0
    ensures n * k % n == 0
  {
    var r := n * k % n;
    var q := n * k / n;
    assert n * (k - q) == r;
    if k - q >= 1 { AtLeast(n, k - q); }
    if q - k >= 1 { AtLeast(n, q - k); }
  }

  lemma AtLeast(n: int, k: int)
    requires n > 0 && k >= 1
    ensures n * k >= n
  {
  }

  lemma Exact(a: nat, n: int)
    requires n > 0
    ensures (a - a % n) % n == 0 && (a % n - a) % n == 0
  {
    Multiple(n, a / n);
    Multiple(n, -(a / n));
    assert a - a % n == n * (a / n);
    assert a % n - a == n * -(a / n);
  }

  lemma RemainderMeans(d: int, n: int)
    requires n > 0
    ensures var r := Remainder(d, n);
            -n < r < n && (d >= 0 ==> r >= 0) && (d <= 0 ==> r <= 0) && (d - r) % n == 0
  {
    if d >= 0 {
      Exact(d, n);
      if d == 0 { Multiple(n, 0); }
    } else {
      Exact(-d, n);
    }
  }

  lemma SameResidue(n: int, a: int, b: int)
    requires n > 0 && a % n == 0 && b % n == 0 && -n < a - b < n
    ensures a == b
  {
    Factors(n, a, b, a / n, b / n);
  }

  lemma Factors(n: int, a: int, b: int, p: int, q: int)
    requires n > 0 && a == n * p && b == n * q && -n < a - b < n
    ensures a == b
  {
    assert a - b == n * (p - q);
    if p - q >= 1 { AtLeast(n, p - q); }
    if q - p >= 1 { AtLeast(n, q - p); }
  }

  /** The slot of a name, for every byte it may start with. */
  lemma SlotMeaning(request: string, active: nat)
    requires request != [] && request[0] as int < 256 && active >= 2
    ensures SlotOf(request[0], active, Slot(request, active))
    ensures 'a' <= request[0] <= 'z' ==> 37 <= Slot(request, active) <= 37 + active - 2
  {
    RemainderMeans(SignedByte(request[0]) - 97, active - 1);
  }

  /** No other number has that meaning. */
  lemma SlotUnique(first: char, active: nat, val: int, val': int)
    requires active >= 2 && SlotOf(first, active, val) && SlotOf(first, active, val')
    ensures val == val'
  {
    var distance := first as int - 97 - if first as int < 128 then 0 else 256;
    SameResidue(active - 1, distance - (val - 37), distance - (val' - 37));
  }
}
