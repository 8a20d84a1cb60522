/** Plain text helpers shared by the message formats, the ring and the placement rule:
    splitting at a separator, the last octet of a dotted address, and the key order of an
    ordered map. */
module Text {

  /** Splits at every occurrence of `sep`; the empty string splits into one empty part. */
  function Split(s: string, sep: char): (parts: seq<string>)
    ensures |parts| >= 1
  {
    if s == [] then [""]
    else
      var rest := Split(s[1..], sep);
      if s[0] == sep then [""] + rest else [[s[0]] + rest[0]] + rest[1..]
  }

  /** The inverse reading: parts glued together with `sep` between them. */
  function Join(parts: seq<string>, sep: char): string
  {
    if parts == [] then ""
    else if |parts| == 1 then parts[0]
    else parts[0] + [sep] + Join(parts[1..], sep)
  }

  /** Every part followed by `sep`, which is how all list messages are written. */
  function Terminated(parts: seq<string>, sep: char): string
  {
    if parts == [] then "" else parts[0] + [sep] + Terminated(parts[1..], sep)
  }

  ghost predicate Free(parts: seq<string>, sep: char)
  {
    forall i :: 0 <= i < |parts| ==> sep !in parts[i]
  }

  /** Splitting loses nothing, and leaves no separator behind. */
  lemma {:induction false} SplitJoin(s: string, sep: char)
    ensures Join(Split(s, sep), sep) == s
    ensures Free(Split(s, sep), sep)
  {
    if s != [] {
      SplitJoin(s[1..], sep);
      var rest := Split(s[1..], sep);
      if s[0] == sep {
        assert ([""] + rest)[1..] == rest;
      } else {
        var parts := [[s[0]] + rest[0]] + rest[1..];
        assert parts[1..] == rest[1..];
        assert |parts| > 1 ==> parts[0] + [sep] == [s[0]] + (rest[0] + [sep]);
        assert s == [s[0]] + s[1..];
      }
    }
  }

  lemma {:induction false} SplitFirst(a: string, b: string, sep: char)
    requires sep !in a
    ensures Split(a + [sep] + b, sep) == [a] + Split(b, sep)
  {
    var s := a + [sep] + b;
    if a == [] {
      assert s[1..] == b;
    } else {
      assert s[1..] == a[1..] + [sep] + b;
      SplitFirst(a[1..], b, sep);
      assert [s[0]] + a[1..] == a;
    }
  }

  lemma {:induction false} SplitWhole(a: string, sep: char)
    requires sep !in a
    ensures Split(a, sep) == [a]
  {
    if a != [] {
      SplitWhole(a[1..], sep);
      assert [a[0]] + a[1..] == a;
    }
  }

  lemma TwoParts(a: string, b: string)
    requires ';' !in a && ';' !in b
    ensures Split(a + ";" + b, ';') == [a, b]
  {
    SplitFirst(a, b, ';');
    SplitWhole(b, ';');
  }

  /** A terminated list splits into its items and one empty part at the end. */
  lemma {:induction false} SplitTerminated(parts: seq<string>, sep: char)
    requires Free(parts, sep)
    ensures Split(Terminated(parts, sep), sep) == parts + [""]
  {
    if parts != [] {
      SplitFirst(parts[0], Terminated(parts[1..], sep), sep);
      SplitTerminated(parts[1..], sep);
      assert [parts[0]] + (parts[1..] + [""]) == parts + [""];
    }
  }

  function Min(a: nat, b: nat): nat { if a <= b then a else b }

  /** An address whose fourth dotted part exists; the code reads that part unconditionally. */
  predicate Dotted(ip: string) { |Split(ip, '.')| > 3 }

  /** Decimal value of the leading digits. */
  function Atoi(s: string): nat { AtoiFrom(s, 0) }

  function AtoiFrom(s: string, acc: nat): nat
  {
    if s == [] || !('0' <= s[0] <= '9') then acc
    else AtoiFrom(s[1..], 10 * acc + (s[0] as int - '0' as int))
  }

  lemma TwoDigits(a: char, b: char)
    requires '0' <= a <= '9' && '0' <= b <= '9'
    ensures Atoi([a, b]) == 10 * (a as int - '0' as int) + (b as int - '0' as int)
  {
    var tens := a as int - '0' as int;
    assert [a, b][1..] == [b] && [b][1..] == [];
    assert AtoiFrom([a, b], 0) == AtoiFrom([b], tens);
    assert AtoiFrom([b], tens) == AtoiFrom([], 10 * tens + (b as int - '0' as int));
  }

  function Octet(ip: string): nat
    requires Dotted(ip)
  {
    Atoi(Split(ip, '.')[3])
  }

  /** An address written in four parts. */
  lemma Quad(a: string, b: string, c: string, d: string)
    requires '.' !in a && '.' !in b && '.' !in c && '.' !in d
    ensures var ip := a + "." + b + "." + c + "." + d; Dotted(ip) && Octet(ip) == Atoi(d)
  {
    var ip := a + "." + b + "." + c + "." + d;
    var cd := c + ['.'] + d;
    var bcd := b + ['.'] + cd;
    assert ip == a + ['.'] + bcd;
    SplitFirst(a, bcd, '.');
    SplitFirst(b, cd, '.');
    SplitFirst(c, d, '.');
    SplitWhole(d, '.');
  }

  /** The address 10.0.0.d. */
  function Host(d: string): (ip: string)
    requires '.' !in d
    ensures Dotted(ip) && Octet(ip) == Atoi(d)
  {
    Quad("10", "0", "0", d);
    "10" + "." + "0" + "." + "0" + "." + d
  }

  /** Strict dictionary order, the key order of the member map. */
  predicate Before(a: string, b: string)
  {
    b != [] && (a == [] || a[0] < b[0] || (a[0] == b[0] && Before(a[1..], b[1..])))
  }

  /** Up to place `k` the two agree, and there `a` ends or goes on with the smaller character. */
  ghost predicate FirstDifference(a: string, b: string, k: nat)
  {
    k <= |a| && k < |b| && a[..k] == b[..k] && (k == |a| || a[k] < b[k])
  }

  lemma LaterDifference(a: string, b: string, k: nat)
    requires a != [] && b != [] && a[0] == b[0]
    ensures FirstDifference(a[1..], b[1..], k) <==> FirstDifference(a, b, k + 1)
  {
    if k <= |a[1..]| && k <= |b[1..]| {
      assert a[..k + 1] == [a[0]] + a[1..][..k] && b[..k + 1] == [b[0]] + b[1..][..k];
      assert a[1..][..k] == a[..k + 1][1..] && b[1..][..k] == b[..k + 1][1..];
    }
  }

  lemma SameStart(a: string, b: string, k: nat)
    requires 0 < k <= |a| && k <= |b| && a[..k] == b[..k]
    ensures a[0] == b[0]
  {
    assert a[..k][0] == b[..k][0];
  }

  /** `a` comes before `b` exactly when there is such a place. */
  lemma {:induction false} BeforeMeans(a: string, b: string)
    ensures Before(a, b) <==> exists k: nat :: FirstDifference(a, b, k)
  {
    if Before(a, b) {
      if a == [] || a[0] < b[0] {
        assert FirstDifference(a, b, 0);
      } else {
        BeforeMeans(a[1..], b[1..]);
        var k: nat :| FirstDifference(a[1..], b[1..], k);
        LaterDifference(a, b, k);
      }
    }
    if k: nat :| FirstDifference(a, b, k) {
      if k > 0 {
        SameStart(a, b, k);
        LaterDifference(a, b, k - 1);
        BeforeMeans(a[1..], b[1..]);
      }
    }
  }

  lemma {:induction false} BeforeIrreflexive(a: string)
    ensures !Before(a, a)
  {
    if a != [] { BeforeIrreflexive(a[1..]); }
  }

  lemma {:induction false} BeforeTransitive(a: string, b: string, c: string)
    requires Before(a, b) && Before(b, c)
    ensures Before(a, c)
  {
    if a != [] && a[0] == b[0] && b[0] == c[0] { BeforeTransitive(a[1..], b[1..], c[1..]); }
  }

  lemma {:induction false} BeforeTotal(a: string, b: string)
    ensures Before(a, b) || a == b || Before(b, a)
  {
    if a != [] && b != [] && a[0] == b[0] {
      BeforeTotal(a[1..], b[1..]);
      assert a == [a[0]] + a[1..] && b == [b[0]] + b[1..];
    }
  }

  lemma {:induction false} BeforePrefix(p: string, a: string, b: string)
    ensures Before(p + a, p + b) <==> Before(a, b)
  {
    if p == [] {
      assert p + a == a && p + b == b;
    } else {
      assert (p + a)[1..] == p[1..] + a && (p + b)[1..] == p[1..] + b;
      BeforePrefix(p[1..], a, b);
    }
  }

  lemma HostOrder(a: string, b: string)
    requires '.' !in a && '.' !in b
    ensures Before(Host(a), Host(b)) <==> Before(a, b)
  {
    BeforePrefix("10" + "." + "0" + "." + "0" + ".", a, b);
  }

  lemma {:induction false} Hosts(parts: seq<string>) returns (hosts: seq<string>)
    requires Free(parts, '.')
    ensures |hosts| == |parts|
    ensures forall i :: 0 <= i < |hosts| ==> Dotted(hosts[i]) && Octet(hosts[i]) == Atoi(parts[i])
    ensures forall i, j :: 0 <= i < |hosts| && 0 <= j < |hosts| ==>
                             (Before(hosts[i], hosts[j]) <==> Before(parts[i], parts[j]))
  {
    hosts := seq(|parts|, i requires 0 <= i < |parts| => Host(parts[i]));
    forall i, j | 0 <= i < |hosts| && 0 <= j < |hosts|
      ensures Before(hosts[i], hosts[j]) <==> Before(parts[i], parts[j])
    {
      HostOrder(parts[i], parts[j]);
    }
  }

  ghost predicate Ordered(ks: seq<string>)
    decreases |ks|
  {
    |ks| <= 1 || (Before(ks[0], ks[1]) && Ordered(ks[1..]))
  }

  lemma {:induction false} OrderedAt(ks: seq<string>, i: nat, j: nat)
    requires Ordered(ks) && i < j < |ks|
    ensures Before(ks[i], ks[j])
    decreases j
  {
    if i > 0 {
      OrderedAt(ks[1..], i - 1, j - 1);
    } else if j > 1 {
      OrderedAt(ks[1..], 0, j - 1);
      BeforeTransitive(ks[0], ks[1], ks[j]);
    }
  }

  predicate Least(s: set<string>, m: string)
  {
    m in s && forall x :: x in s ==> x == m || Before(m, x)
  }

  lemma LeastExists(s: set<string>)
    requires s != {}
    ensures exists m :: Least(s, m)
    decreases |s|
  {
    var x :| x in s;
    var rest := s - {x};
    assert s == rest + {x};
    if rest == {} {
      assert Least(s, x);
    } else {
      LeastExists(rest);
      var m :| Least(rest, m);
      BeforeTotal(x, m);
      if Before(x, m) {
        forall y | y in s && y != x ensures Before(x, y) {
          if y != m { BeforeTransitive(x, m, y); }
        }
        assert Least(s, x);
      } else {
        assert Least(s, m);
      }
    }
  }

  lemma LeastUnique(s: set<string>, m: string, m': string)
    requires Least(s, m) && Least(s, m')
    ensures m == m'
  {
    if m != m' {
      BeforeTransitive(m, m', m);
      BeforeIrreflexive(m);
    }
  }

  /** The keys of an ordered map in iteration order. */
  function Keys(s: set<string>): (ks: seq<string>)
    ensures Ordered(ks)
    ensures |ks| == |s|
    ensures forall x :: x in ks <==> x in s
    decreases |s|
  {
    if s == {} then []
    else
      LeastExists(s);
      assert forall m, m' | Least(s, m) && Least(s, m') :: m == m' by {
        forall m, m' | Least(s, m) && Least(s, m') ensures m == m' { LeastUnique(s, m, m'); }
      }
      var m :| Least(s, m);
      var rest := Keys(s - {m});
      assert rest == [] || rest[0] in rest;
      assert ([m] + rest)[1..] == rest;
      [m] + rest
  }

  /** Iteration order is determined by the key set alone. */
  lemma {:induction false} KeysUnique(ks: seq<string>, ls: seq<string>)
    requires Ordered(ks) && Ordered(ls)
    requires forall x :: x in ks <==> x in ls
    ensures ks == ls
    decreases |ks|
  {
    assert ls == [] || ls[0] in ls;
    assert ks == [] || ks[0] in ks;
    if ks != [] {
      OrderedHead(ks, ls[0]);
      OrderedHead(ls, ks[0]);
      if ks[0] != ls[0] {
        BeforeTransitive(ks[0], ls[0], ks[0]);
        BeforeIrreflexive(ks[0]);
      }
      OrderedTail(ks);
      OrderedTail(ls);
      KeysUnique(ks[1..], ls[1..]);
    }
  }

  lemma OrderedHead(ks: seq<string>, x: string)
    requires Ordered(ks) && x in ks
    ensures x == ks[0] || Before(ks[0], x)
  {
    var i :| 0 <= i < |ks| && ks[i] == x;
    if i > 0 { OrderedAt(ks, 0, i); }
  }

  lemma OrderedTail(ks: seq<string>)
    requires Ordered(ks) && ks != []
    ensures Ordered(ks[1..])
    ensures forall x :: x in ks[1..] <==> x in ks && x != ks[0]
  {
    forall x | x in ks[1..] ensures x != ks[0] {
      var i :| 0 <= i < |ks[1..]| && ks[1..][i] == x;
      BeforeIrreflexive(ks[0]);
      OrderedAt(ks, 0, i + 1);
    }
    forall x | x in ks && x != ks[0] ensures x in ks[1..] {
      var i :| 0 <= i < |ks| && ks[i] == x;
      assert ks[1..][i - 1] == x;
    }
  }

  /** In key order no key repeats. */
  lemma OrderedDistinct(ks: seq<string>, i: nat, j: nat)
    requires Ordered(ks) && i < j < |ks|
    ensures ks[i] != ks[j]
  {
    OrderedAt(ks, i, j);
    BeforeIrreflexive(ks[i]);
  }
}
