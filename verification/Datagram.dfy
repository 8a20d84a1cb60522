/** Text messages in fixed 512-byte datagrams, and the member list that travels in them. */
module Datagram {
  import opened Text

  const SIZE: nat := 512
  const ZERO: char := '\0'

  ghost function Padded(request: string): string
    requires |request| <= SIZE
  {
    request + seq(SIZE - |request|, _ => ZERO)
  }

  /** The sender's buffer: zeroed, then overwritten from the start. A longer request would be
      copied past its end. */
  method Frame(request: string) returns (sendBuf: array<char>)
    requires |request| <= SIZE
    ensures fresh(sendBuf) && sendBuf[..] == Padded(request)
  {
    sendBuf := new char[SIZE](_ => ZERO);
    for i := 0 to |request|
      invariant sendBuf[..i] == request[..i]
      invariant forall k :: i <= k < SIZE ==> sendBuf[k] == ZERO
    {
      sendBuf[i] := request[i];
    }
  }

  /** The characters in front of the first zero. */
  ghost function UntilZero(s: string): string
  {
    if s == [] || s[0] == ZERO then [] else [s[0]] + UntilZero(s[1..])
  }

  method CleanString(str: string) returns (newStr: string)
    ensures newStr == UntilZero(str)
  {
    newStr := "";
    for i := 0 to |str|
      invariant newStr + UntilZero(str[i..]) == UntilZero(str)
    {
      if str[i] == ZERO {
        break;
      }
      assert str[i..][1..] == str[i + 1..];
      newStr := newStr + [str[i]];
    }
  }

  lemma {:induction false} UntilZeroIdempotent(s: string)
    ensures UntilZero(UntilZero(s)) == UntilZero(s)
  {
    if s != [] && s[0] != ZERO {
      assert UntilZero(s)[1..] == UntilZero(s[1..]);
      UntilZeroIdempotent(s[1..]);
    }
  }

  /** The receiver takes its buffer as a zero-terminated string and cleans it once more. A buffer
      without a zero would be read past its end. */
  method Receive(recvBuffer: array<char>) returns (param: string)
    requires ZERO in recvBuffer[..]
    ensures param == UntilZero(recvBuffer[..])
  {
    var end := 0;
    while recvBuffer[end] != ZERO
      invariant 0 <= end < recvBuffer.Length
      invariant ZERO !in recvBuffer[..end]
      decreases recvBuffer.Length - end
    {
      assert recvBuffer[..end + 1] == recvBuffer[..end] + [recvBuffer[end]];
      assert recvBuffer[..recvBuffer.Length] == recvBuffer[..];
      end := end + 1;
    }
    ZeroAt(recvBuffer[..], end);
    UntilZeroIdempotent(recvBuffer[..]);
    param := CleanString(recvBuffer[..end]);
  }

  lemma {:induction false} ZeroAt(s: string, end: nat)
    requires end < |s| && s[end] == ZERO && ZERO !in s[..end]
    ensures UntilZero(s) == s[..end]
  {
    if end > 0 {
      assert s[0] in s[..end];
      assert s[1..][..end - 1] == s[..end][1..];
      ZeroAt(s[1..], end - 1);
      assert s[..end] == [s[0]] + s[1..][..end - 1];
    }
  }

  lemma {:induction false} NoZeroUntilZero(s: string)
    ensures ZERO !in UntilZero(s)
  {
    if s != [] && s[0] != ZERO { NoZeroUntilZero(s[1..]); }
  }

  /** Exactly which requests arrive unchanged: those without a zero that leave room for one. */
  lemma FramingExact(request: string)
    requires |request| <= SIZE
    ensures ZERO in Padded(request) && UntilZero(Padded(request)) == request
            <==> ZERO !in request && |request| < SIZE
  {
    var p := Padded(request);
    if ZERO !in request && |request| < SIZE {
      assert p[..|request|] == request;
      ZeroAt(p, |request|);
      assert p[|request|] in p;
    }
    if UntilZero(p) == request {
      NoZeroUntilZero(p);
      if |request| == SIZE { assert p == request; }
    }
  }

  // ----- the member list message

  /** One line of a member list: an address and the text of its failure flag. */
  datatype Report = Report(ip: string, flag: string)

  function BoolToString(b: bool): string { if b then "1" else "0" }

  ghost function Piece(r: Report): string { r.ip + ":" + r.flag }

  ghost function Pieces(rs: seq<Report>): (ps: seq<string>)
    ensures |ps| == |rs|
  {
    seq(|rs|, i requires 0 <= i < |rs| => Piece(rs[i]))
  }

  ghost function Wire(rs: seq<Report>): string { Terminated(Pieces(rs), ';') }

  /** What a member map with flags `failed` reports: every key in order. */
  ghost function Reports(failed: map<string, bool>): (rs: seq<Report>)
    ensures |rs| == |failed|
  {
    var ks := Keys(failed.Keys);
    seq(|ks|, i requires 0 <= i < |ks| => assert ks[i] in ks; Report(ks[i], BoolToString(failed[ks[i]])))
  }

  lemma WireFirst(rs: seq<Report>)
    requires rs != []
    ensures Wire(rs) == (Piece(rs[0]) + ";") + Wire(rs[1..])
  {
    assert Pieces(rs)[1..] == Pieces(rs[1..]);
  }

  lemma {:induction false} WireAppend(rs: seq<Report>, r: Report)
    ensures Wire(rs + [r]) == Wire(rs) + (Piece(r) + ";")
    decreases |rs|
  {
    WireFirst(rs + [r]);
    if rs == [] {
      assert (rs + [r])[1..] == [];
    } else {
      assert (rs + [r])[1..] == rs[1..] + [r];
      WireAppend(rs[1..], r);
      WireFirst(rs);
    }
  }

  lemma ReportsAt(failed: map<string, bool>, i: nat)
    requires i < |failed|
    ensures Keys(failed.Keys)[i] in failed
    ensures Reports(failed)[i] == Report(Keys(failed.Keys)[i], BoolToString(failed[Keys(failed.Keys)[i]]))
  {
  }

  /** The same message built from the left, as the loop builds it. */
  ghost function WireTo(rs: seq<Report>, i: nat): string
    requires i <= |rs|
  {
    if i == 0 then "" else WireTo(rs, i - 1) + (Piece(rs[i - 1]) + ";")
  }

  lemma {:induction false} WireToIsWire(rs: seq<Report>, i: nat)
    requires i <= |rs|
    ensures WireTo(rs, i) == Wire(rs[..i])
  {
    if i > 0 {
      WireToIsWire(rs, i - 1);
      WireAppend(rs[..i - 1], rs[i - 1]);
      assert rs[..i - 1] + [rs[i - 1]] == rs[..i];
    }
  }

  /** The walk over the map's entries `ks`. */
  method WriteEntries(ks: seq<string>, failed: map<string, bool>, ghost rs: seq<Report>) returns (str: string)
    requires |ks| == |rs|
    requires forall i :: 0 <= i < |ks| ==> ks[i] in failed && rs[i] == Report(ks[i], BoolToString(failed[ks[i]]))
    ensures str == WireTo(rs, |rs|)
  {
    str := "";
    for i := 0 to |ks|
      invariant str == WireTo(rs, i)
    {
      str := str + (ks[i] + ":" + BoolToString(failed[ks[i]]) + ";");
    }
  }

  method MakeMessage(failed: map<string, bool>) returns (str: string)
    ensures str == Wire(Reports(failed))
  {
    ghost var rs := Reports(failed);
    var ks := Keys(failed.Keys);
    forall i | 0 <= i < |ks| ensures ks[i] in failed && rs[i] == Report(ks[i], BoolToString(failed[ks[i]])) {
      ReportsAt(failed, i);
    }
    str := WriteEntries(ks, failed, rs);
    WireToIsWire(rs, |rs|);
    assert rs[..|rs|] == rs;
  }

  /** The parsing loop reads two parts of every piece but the last. */
  predicate WellFormed(message: string)
  {
    var pieces := Split(message, ';');
    forall i :: 0 <= i < |pieces| - 1 ==> |Split(pieces[i], ':')| >= 2
  }

  function Parse(message: string): (rs: seq<Report>)
    requires WellFormed(message)
    ensures |rs| == |Split(message, ';')| - 1
  {
    var pieces := Split(message, ';');
    seq(|pieces| - 1, i requires 0 <= i < |pieces| - 1 =>
      var parts := Split(pieces[i], ':');
      Report(parts[0], parts[1]))
  }

  /** Text that contains none of the characters the protocol gives a meaning. */
  predicate Clean(s: string) { ';' !in s && ':' !in s && ZERO !in s }

  ghost predicate CleanReports(rs: seq<Report>)
  {
    forall i :: 0 <= i < |rs| ==> Clean(rs[i].ip) && Clean(rs[i].flag)
  }

  lemma PieceSplits(r: Report)
    requires Clean(r.ip) && Clean(r.flag)
    ensures Split(Piece(r), ':') == [r.ip, r.flag]
  {
    SplitFirst(r.ip, r.flag, ':');
    SplitWhole(r.flag, ':');
  }

  lemma WireParses(rs: seq<Report>)
    requires CleanReports(rs)
    ensures WellFormed(Wire(rs)) && Parse(Wire(rs)) == rs
  {
    var ps := Pieces(rs);
    forall i | 0 <= i < |ps| ensures ';' !in ps[i] && Split(ps[i], ':') == [rs[i].ip, rs[i].flag] {
      PieceSplits(rs[i]);
    }
    SplitTerminated(ps, ';');
    forall i | 0 <= i < |ps| ensures Split(Wire(rs), ';')[i] == ps[i] {
    }
  }

  lemma {:induction false} WireNoZero(rs: seq<Report>)
    requires CleanReports(rs)
    ensures ZERO !in Wire(rs)
    decreases |rs|
  {
    if rs != [] {
      WireNoZero(rs[1..]);
      WireFirst(rs);
      assert Clean(rs[0].ip) && Clean(rs[0].flag);
    }
  }

  lemma {:induction false} WireLength(rs: seq<Report>)
    requires forall i :: 0 <= i < |rs| ==> |rs[i].ip| <= 15 && |rs[i].flag| == 1
    ensures |Wire(rs)| <= 18 * |rs|
    ensures (forall i :: 0 <= i < |rs| ==> |rs[i].ip| == 15) ==> |Wire(rs)| == 18 * |rs|
    decreases |rs|
  {
    if rs != [] {
      WireLength(rs[1..]);
      WireFirst(rs);
    }
  }

  /** Member keys a dotted IPv4 network produces: at most 15 characters, none special. */
  ghost predicate Addresses(failed: map<string, bool>)
  {
    forall k :: k in failed ==> |k| <= 15 && Clean(k)
  }

  /** Any member list that fits the datagram survives serialising, padding, cutting and splitting. */
  lemma {:induction false} TextArrives(failed: map<string, bool>)
    requires (forall k :: k in failed ==> Clean(k)) && |Wire(Reports(failed))| < SIZE
    ensures var received := UntilZero(Padded(Wire(Reports(failed))));
            WellFormed(received) && Parse(received) == Reports(failed)
  {
    var rs := Reports(failed);
    forall i | 0 <= i < |rs| ensures Clean(rs[i].ip) && Clean(rs[i].flag) { ReportsAt(failed, i); }
    WireNoZero(rs);
    FramingExact(Wire(rs));
    WireParses(rs);
  }

  // ----- how long a member list is

  /** The length of a member list with these keys in this order. */
  function ListWidth(ks: seq<string>): nat
  {
    if ks == [] then 0 else |ks[0]| + 3 + ListWidth(ks[1..])
  }

  ghost function Width(ks: set<string>): nat { ListWidth(Keys(ks)) }

  lemma {:induction false} WireWidth(rs: seq<Report>, ks: seq<string>)
    requires |rs| == |ks| && forall i :: 0 <= i < |rs| ==> rs[i].ip == ks[i] && |rs[i].flag| == 1
    ensures |Wire(rs)| == ListWidth(ks)
    decreases |rs|
  {
    if rs != [] {
      WireWidth(rs[1..], ks[1..]);
      WireFirst(rs);
    }
  }

  lemma ListedWidth(failed: map<string, bool>)
    ensures |Wire(Reports(failed))| == Width(failed.Keys)
  {
    var rs := Reports(failed);
    forall i | 0 <= i < |rs| ensures rs[i].ip == Keys(failed.Keys)[i] && |rs[i].flag| == 1 { ReportsAt(failed, i); }
    WireWidth(rs, Keys(failed.Keys));
  }

  /** More members make a longer list. */
  lemma {:induction false} WidthGrows(a: set<string>, b: set<string>)
    requires a <= b
    ensures Width(a) <= Width(b)
    decreases |b|
  {
    if b != {} {
      LeastExists(b);
      var m :| Least(b, m);
      KeysFrom(b, m);
      if m in a {
        KeysFrom(a, m);
        WidthGrows(a - {m}, b - {m});
      } else {
        WidthGrows(a, b - {m});
      }
    }
  }

  lemma KeysFrom(s: set<string>, m: string)
    requires Least(s, m)
    ensures Keys(s) == [m] + Keys(s - {m})
    ensures Width(s) == |m| + 3 + Width(s - {m})
  {
    var rest := Keys(s - {m});
    assert rest == [] || rest[0] in rest;
    assert ([m] + rest)[1..] == rest;
    KeysUnique(Keys(s), [m] + rest);
  }

  /** A member list of up to 28 addresses survives serialising, padding, cutting and splitting:
      the receiver reads back the same addresses and flags in the same order. */
  lemma {:induction false} MemberListRoundTrip(failed: map<string, bool>)
    requires Addresses(failed) && |failed| <= 28
    ensures |Wire(Reports(failed))| < SIZE
    ensures var received := UntilZero(Padded(Wire(Reports(failed))));
            WellFormed(received) && Parse(received) == Reports(failed)
  {
    var rs := Reports(failed);
    forall i | 0 <= i < |rs| ensures |rs[i].ip| <= 15 && |rs[i].flag| == 1 && Clean(rs[i].ip) && Clean(rs[i].flag) {
      ReportsAt(failed, i);
    }
    WireLength(rs);
    TextArrives(failed);
  }

  /** 28 is the exact capacity for addresses of full width. */
  lemma CapacityExact(failed: map<string, bool>)
    requires forall k :: k in failed ==> |k| == 15
    ensures |Wire(Reports(failed))| < SIZE <==> |failed| <= 28
  {
    var rs := Reports(failed);
    forall i | 0 <= i < |rs| ensures |rs[i].ip| == 15 && |rs[i].flag| == 1 { ReportsAt(failed, i); }
    WireLength(rs);
  }
}
