/** File transfer in 256-byte slabs: the sender reuses one buffer and always sends all of it, the
    receiver counts down the announced size and accepts short reads. Of an upload's command, whatever
    was not received with it is read in front of the announcement; a download's is not. */
module Transfer {
  import opened Text

  newtype byte = x: int | 0 <= x < 256

  const SLAB: nat := 256
  const INT_MAX: nat := 0x7fff_ffff

  // ----- sending

  /** Byte `i` of the stream a file is sent as: the file itself, then whatever the previous slab
      left in the buffer, or zero in the first slab. */
  function StreamByte(file: seq<byte>, i: nat): byte
    requires i < |file| + SLAB
  {
    if i < |file| then file[i] else if i >= SLAB then file[i - SLAB] else 0
  }

  /** The size of the stream: the file's size rounded up to whole slabs. */
  function StreamSize(size: nat): (n: nat)
    ensures size <= n < size + SLAB && n % SLAB == 0
  {
    (size + SLAB - 1) / SLAB * SLAB
  }

  ghost function Stream(file: seq<byte>): (wire: seq<byte>)
    ensures |wire| == StreamSize(|file|)
    ensures forall i :: 0 <= i < |wire| ==> wire[i] == StreamByte(file, i)
  {
    seq(StreamSize(|file|), i requires 0 <= i < StreamSize(|file|) => StreamByte(file, i))
  }

  /** Reads the next `n` bytes of the file into the front of the buffer. */
  method FRead(byteArray: array<byte>, file: seq<byte>, pos: nat, n: nat) returns (buffRead: nat)
    requires n <= byteArray.Length && pos + n <= |file|
    modifies byteArray
    ensures buffRead == n
    ensures forall k :: 0 <= k < byteArray.Length ==>
                          byteArray[k] == if k < n then file[pos + k] else old(byteArray[k])
  {
    for k := 0 to n
      invariant forall m :: 0 <= m < byteArray.Length ==>
                              byteArray[m] == if m < k then file[pos + m] else old(byteArray[m])
    {
      byteArray[k] := file[pos + k];
    }
    buffRead := n;
  }

  /** The sender's loop. File sizes travel as 32-bit integers. */
  method SendFile(file: seq<byte>) returns (wire: seq<byte>)
    requires |file| <= INT_MAX
    ensures wire == Stream(file)
    ensures |wire| % 256 == 0 && |file| <= |wire| < |file| + 256 && wire[..|file|] == file
    ensures forall i :: |file| <= i < |wire| ==> wire[i] == if i >= 256 then file[i - 256] else 0
  {
    var byteArray := new byte[SLAB](_ => 0);
    var buffRead := 0;
    var bytesRemaining: nat := |file|;
    var pos: nat := 0;
    wire := [];
    while bytesRemaining != 0
      invariant pos + bytesRemaining == |file|
      invariant |wire| % SLAB == 0
      invariant if bytesRemaining != 0 then |wire| == pos else |wire| == StreamSize(|file|)
      invariant forall i :: 0 <= i < |wire| ==> wire[i] == StreamByte(file, i)
      invariant forall k :: 0 <= k < SLAB ==> byteArray[k] == if |wire| == 0 then 0 else wire[|wire| - SLAB + k]
      decreases bytesRemaining
    {
      if bytesRemaining < 256 {
        buffRead := FRead(byteArray, file, pos, bytesRemaining);
      } else {
        buffRead := FRead(byteArray, file, pos, 256);
      }
      bytesRemaining := bytesRemaining - buffRead;
      pos := pos + buffRead;
      wire := wire + byteArray[..];
    }
  }

  // ----- receiving

  /** How much is left, and how many reads were made, when the countdown first drops below one
      slab; `ready(k)` is what the network has ready for the k-th read. */
  ghost function Countdown(remaining: nat, ready: nat -> nat, k: nat): (t: (nat, nat))
    requires forall i :: ready(i) >= 1
    ensures t.0 < SLAB && t.0 <= remaining
    decreases remaining
  {
    if remaining < SLAB then (remaining, k) else Countdown(remaining - Min(ready(k), SLAB), ready, k + 1)
  }

  /** How much is delivered of what remains: the read below one slab is made once and not repeated. */
  ghost function DeliveredFrom(remaining: nat, ready: nat -> nat, k: nat): (n: nat)
    requires forall i :: ready(i) >= 1
    ensures n <= remaining && remaining - n < SLAB
  {
    var (last, j) := Countdown(remaining, ready, k);
    remaining - last + Min(ready(j), last)
  }

  /** How much a transfer of this size delivers from a stream that is long enough. */
  ghost function Delivered(size: nat, ready: nat -> nat): (n: nat)
    requires forall i :: ready(i) >= 1
    ensures n <= size && size - n < SLAB
  {
    DeliveredFrom(size, ready, 0)
  }

  /** The receiver writes what it reads; or reads nothing for ever, once the stream has ended and more
      than one slab is still missing; or, counting down from a negative size, asks for more than its
      buffer holds. */
  datatype Outcome = Written(bytes: seq<byte>) | Endless | Overrun

  /** What comes of the stream `wire` when `size` has been read. */
  ghost function Received(wire: seq<byte>, size: int, ready: nat -> nat): Outcome
    requires forall i :: ready(i) >= 1
  {
    if size < 0 then Overrun
    else if size >= |wire| + SLAB then Endless
    else Written(wire[..Min(|wire|, Delivered(size, ready))])
  }

  /** The receiver's loop over the stream `wire`. Behind its end every read returns nothing. */
  method ReceiveFile(wire: seq<byte>, fileSize: int, ready: nat -> nat) returns (outcome: Outcome)
    requires forall i :: ready(i) >= 1
    ensures outcome == Received(wire, fileSize, ready)
  {
    if fileSize < 0 {
      return Overrun;
    }
    var written := [];
    var remainingData: nat := fileSize;
    var k: nat := 0;
    while remainingData != 0
      invariant remainingData <= fileSize && |written| == fileSize - remainingData <= |wire|
      invariant written == wire[..|written|]
      invariant Min(|wire|, Delivered(fileSize, ready)) ==
                Min(|wire|, |written| + DeliveredFrom(remainingData, ready, k))
      decreases remainingData
    {
      var pos := |written|;
      if remainingData < 256 {
        var len := Min(Min(ready(k), remainingData), |wire| - pos);
        written := written + wire[pos..pos + len];
        return Written(written);
      }
      var len := Min(Min(ready(k), 256), |wire| - pos);
      if len == 0 {
        return Endless;
      }
      written := written + wire[pos..pos + len];
      remainingData := remainingData - len;
      k := k + 1;
    }
    outcome := Written(written);
  }

  // ----- the size announcement

  function Decimal(n: nat): (s: string)
    ensures s != "" && forall i :: 0 <= i < |s| ==> '0' <= s[i] <= '9'
  {
    if n < 10 then [('0' as int + n) as char] else Decimal(n / 10) + [('0' as int + n % 10) as char]
  }

  lemma {:induction false} AtoiDecimal(n: nat, rest: string)
    ensures AtoiFrom(Decimal(n) + rest, 0) == AtoiFrom(rest, n)
  {
    var d := [('0' as int + n % 10) as char];
    if n < 10 {
      assert (d + rest)[1..] == rest;
    } else {
      AtoiDecimal(n / 10, d + rest);
      assert (d + rest)[1..] == rest;
      assert Decimal(n) + rest == Decimal(n / 10) + (d + rest);
    }
  }

  /** A printed number reads back as itself in front of anything that does not go on with a digit. */
  lemma SizeRoundTrip(n: nat, rest: string)
    requires rest == "" || !('0' <= rest[0] <= '9')
    ensures Atoi(Decimal(n) + rest) == n
  {
    AtoiDecimal(n, rest);
  }

  function Pow10(k: nat): (p: nat)
    ensures p > 0
  {
    if k == 0 then 1 else 10 * Pow10(k - 1)
  }

  lemma {:induction false} DecimalWidth(n: nat, w: nat)
    requires w >= 1 && n < Pow10(w)
    ensures |Decimal(n)| <= w
  {
    if n >= 10 {
      assert w >= 2;
      DecimalWidth(n / 10, w - 1);
    }
  }

  function Zeros(n: nat): string { seq(n, _ => '\0') }

  /** The announcement: the size printed into a zeroed buffer of which every byte is sent. */
  function Header(size: nat): (header: string)
    requires size <= INT_MAX
    ensures |header| == SLAB
  {
    SizeWidth(size);
    Decimal(size) + Zeros(SLAB - |Decimal(size)|)
  }

  lemma SizeWidth(size: nat)
    requires size <= INT_MAX
    ensures 1 <= |Decimal(size)| <= 10
  {
    assert Pow10(5) == 100_000;
    assert Pow10(10) == 100_000 * 100_000;
    DecimalWidth(size, 10);
  }

  predicate Blank(c: char) { c == ' ' || 9 <= c as int <= 13 }

  /** A number as the receiver reads it: blanks, a sign, digits. */
  function ReadInt(s: string): int
  {
    if s == "" then 0
    else if Blank(s[0]) then ReadInt(s[1..])
    else if s[0] == '-' then -(Atoi(s[1..]) as int)
    else if s[0] == '+' then Atoi(s[1..])
    else Atoi(s)
  }

  /** Blanks in front of a number are skipped, */
  lemma {:induction false} BlanksSkipped(blanks: string, s: string)
    requires forall i :: 0 <= i < |blanks| ==> Blank(blanks[i])
    ensures ReadInt(blanks + s) == ReadInt(s)
  {
    if blanks == "" {
      assert blanks + s == s;
    } else {
      assert (blanks + s)[1..] == blanks[1..] + s;
      BlanksSkipped(blanks[1..], s);
    }
  }

  /** and a sign is taken into account. */
  lemma SignRead(n: nat, rest: string)
    requires rest == "" || !('0' <= rest[0] <= '9')
    ensures ReadInt("+" + (Decimal(n) + rest)) == n && ReadInt("-" + (Decimal(n) + rest)) == -(n as int)
  {
    var number := Decimal(n) + rest;
    SizeRoundTrip(n, rest);
    assert ("+" + number)[1..] == number && ("-" + number)[1..] == number;
  }

  /** What the receiver finds in front of the file: the announcement, behind the part `rest` of an
      upload's command that had not come in when the server took the command from its buffer. */
  function Head(rest: string, size: nat): (head: string)
    requires size <= INT_MAX
    ensures |head| == |rest| + SLAB
  {
    rest + Header(size)
  }

  /** The size read after the first `got` characters have overwritten a buffer that held `stale`. */
  function Announced(rest: string, size: nat, stale: string, got: nat): int
    requires size <= INT_MAX && |stale| == SLAB && got <= SLAB
  {
    ReadInt(Head(rest, size)[..got] + stale[got..])
  }

  function AsBytes(s: string): (bytes: seq<byte>)
    ensures |bytes| == |s|
  {
    seq(|s|, i requires 0 <= i < |s| => (s[i] as int % 256) as byte)
  }

  /** The one receive of the announcement, into the receiver's buffer. */
  method ReceiveSize(head: string, buffer: array<char>, got: nat) returns (fileSize: int)
    requires |head| >= buffer.Length == SLAB && got <= SLAB
    modifies buffer
    ensures fileSize == ReadInt(head[..got] + old(buffer[..])[got..])
  {
    for i := 0 to got
      invariant forall k :: 0 <= k < SLAB ==> buffer[k] == if k < i then head[k] else old(buffer[k])
    {
      buffer[i] := head[i];
    }
    assert buffer[..] == head[..got] + old(buffer[..])[got..];
    fileSize := ReadInt(buffer[..]);
  }

  // ----- end to end

  /** What is left in front of the file once `got` characters are gone. */
  function Lead(rest: string, size: nat, got: nat): (lead: seq<byte>)
    requires size <= INT_MAX && got <= SLAB
    ensures |lead| == |rest| + SLAB - got
  {
    AsBytes(Head(rest, size)[got..])
  }

  /** What the receiver has to read from: the lead, then the file's stream. */
  ghost function Remaining(rest: string, file: seq<byte>, got: nat): seq<byte>
    requires |file| <= INT_MAX && got <= SLAB
  {
    Lead(rest, |file|, got) + Stream(file)
  }

  ghost function Result(rest: string, file: seq<byte>, stale: string, got: nat, ready: nat -> nat): Outcome
    requires |file| <= INT_MAX && |stale| == SLAB && got <= SLAB && forall i :: ready(i) >= 1
  {
    Received(Remaining(rest, file, got), Announced(rest, |file|, stale, got), ready)
  }

  /** What is written is the beginning of the file. */
  ghost predicate Faithful(rest: string, file: seq<byte>, stale: string, got: nat, ready: nat -> nat)
    requires |file| <= INT_MAX && |stale| == SLAB && got <= SLAB && forall i :: ready(i) >= 1
  {
    var r := Result(rest, file, stale, got, ready);
    r.Written? && r.bytes <= file
  }

  /** Upload and download end to end, behind what `rest` of the command is still to be read. `first`
      is how much has come in when the size is received into `buffer`. With nothing left of the command
      and all of the announcement received at once, what is written is a prefix of the file that misses
      less than one slab, and the whole file exactly when the last read below one slab comes in full. */
  method TransferFile(rest: string, file: seq<byte>, buffer: array<char>, first: nat, ready: nat -> nat)
    returns (outcome: Outcome)
    requires |file| <= INT_MAX && buffer.Length == SLAB
    requires first >= 1 && forall i :: ready(i) >= 1
    modifies buffer
    ensures outcome == Result(rest, file, old(buffer[..]), Min(first, SLAB), ready)
    ensures rest == "" && first >= SLAB ==>
              && outcome == Written(file[..Delivered(|file|, ready)]) && |file| - |outcome.bytes| < SLAB
              && (outcome.bytes == file <==>
                  var (last, k) := Countdown(|file|, ready, 0); last == 0 || ready(k) >= last)
  {
    var got := Min(first, SLAB);
    var head := Head(rest, |file|);
    var wire := SendFile(file);
    ghost var stale := buffer[..];
    var fileSize := ReceiveSize(head, buffer, got);
    outcome := ReceiveFile(AsBytes(head[got..]) + wire, fileSize, ready);
    if rest == "" && first >= SLAB { WholeHeader(file, stale, ready); }
  }

  lemma WholeHeader(file: seq<byte>, stale: string, ready: nat -> nat)
    requires |file| <= INT_MAX && |stale| == SLAB && forall i :: ready(i) >= 1
    ensures Result("", file, stale, SLAB, ready) == Written(file[..Delivered(|file|, ready)])
  {
    SizeWidth(|file|);
    NumberFirst(|file|, Zeros(SLAB - |Decimal(|file|)|));
    assert Head("", |file|)[..SLAB] + stale[SLAB..] == Header(|file|);
    assert Remaining("", file, SLAB) == Stream(file);
    assert Stream(file)[..Delivered(|file|, ready)] == file[..Delivered(|file|, ready)];
  }

  lemma NumberFirst(n: nat, rest: string)
    requires rest == "" || !('0' <= rest[0] <= '9')
    ensures ReadInt(Decimal(n) + rest) == n
  {
    SizeRoundTrip(n, rest);
    assert (Decimal(n) + rest)[0] == Decimal(n)[0];
  }

  // ----- exactly when a transfer is right

  /** Byte `i` of what is read: the next of the lead, and after it the file again. */
  ghost function Behind(lead: seq<byte>, file: seq<byte>, i: nat): byte
    requires i < |file|
  {
    if i < |lead| then lead[i] else file[i - |lead|]
  }

  lemma RemainingBytes(rest: string, file: seq<byte>, got: nat, i: nat)
    requires |file| <= INT_MAX && got <= SLAB && i < |file|
    ensures |Remaining(rest, file, got)| >= |file|
    ensures Remaining(rest, file, got)[i] == Behind(Lead(rest, |file|, got), file, i)
  {
  }

  lemma ModStep(i: nat, gap: nat)
    requires 0 < gap <= i
    ensures (i - gap) % gap == i % gap
  {
    var a := i - gap;
    assert i == gap * (a / gap + 1) + a % gap;
    Remainders(gap, a / gap + 1, a % gap, i / gap, i % gap);
  }

  lemma Remainders(gap: nat, q: int, r: nat, d: int, e: nat)
    requires r < gap && e < gap && gap * q + r == gap * d + e
    ensures r == e
  {
    assert gap * (q - d) == e - r;
    if q - d >= 1 { AtLeast(gap, q - d); }
    if d - q >= 1 { AtLeast(gap, d - q); }
  }

  lemma AtLeast(gap: nat, k: nat)
    requires k >= 1
    ensures gap * k >= gap
  {
  }

  ghost function Looped(lead: seq<byte>, i: nat): byte
    requires lead != []
  {
    lead[i % |lead|]
  }

  /** The first `m` bytes of the file are the lead, over and over. */
  ghost predicate Repeats(file: seq<byte>, lead: seq<byte>, m: nat)
    requires m <= |file|
  {
    lead != [] ==> forall i :: 0 <= i < m ==> file[i] == Looped(lead, i)
  }

  /** The same told byte by byte. */
  ghost predicate Shifted(file: seq<byte>, lead: seq<byte>, m: nat)
    requires m <= |file|
  {
    forall i :: 0 <= i < m ==> file[i] == Behind(lead, file, i)
  }

  lemma {:induction false} ShiftedRepeats(file: seq<byte>, lead: seq<byte>, m: nat)
    requires m <= |file|
    ensures Repeats(file, lead, m) <==> Shifted(file, lead, m)
    decreases m
  {
    if m > 0 && lead != [] {
      ShiftedRepeats(file, lead, m - 1);
      if Repeats(file, lead, m - 1) { OneMore(file, lead, m - 1); }
    }
  }

  lemma OneMore(file: seq<byte>, lead: seq<byte>, i: nat)
    requires i < |file| && lead != [] && Repeats(file, lead, i)
    ensures Looped(lead, i) == Behind(lead, file, i)
  {
    if i >= |lead| {
      ModStep(i, |lead|);
      assert file[i - |lead|] == Looped(lead, i - |lead|);
    } else {
      Remainders(|lead|, 0, i, i / |lead|, i % |lead|);
    }
  }

  /** Exactly when a transfer writes the beginning of the file: the number read is not negative and at
      most a slab beyond the stream, no more than the file is delivered, and what is delivered of it
      repeats what was left in front of it. Nothing is left exactly when the command and the
      announcement came in whole. */
  lemma FaithfulIff(rest: string, file: seq<byte>, stale: string, got: nat, ready: nat -> nat)
    requires |file| <= INT_MAX && |stale| == SLAB && 1 <= got <= SLAB && forall i :: ready(i) >= 1
    ensures Faithful(rest, file, stale, got, ready) <==>
              var size := Announced(rest, |file|, stale, got);
              var lead := Lead(rest, |file|, got);
              && 0 <= size < |lead| + StreamSize(|file|) + SLAB
              && Min(|lead| + StreamSize(|file|), Delivered(size, ready)) <= |file|
              && Repeats(file, lead, Min(|lead| + StreamSize(|file|), Delivered(size, ready)))
    ensures Lead(rest, |file|, got) == [] <==> rest == "" && got == SLAB
  {
    var from := Remaining(rest, file, got);
    var size := Announced(rest, |file|, stale, got);
    var lead := Lead(rest, |file|, got);
    if 0 <= size < |from| + SLAB {
      var m := Min(|from|, Delivered(size, ready));
      WrittenBegins(from, file, m);
      if m <= |file| {
        BeginsFile(rest, file, got, m);
        ShiftedRepeats(file, lead, m);
      }
    }
  }

  lemma WrittenBegins(from: seq<byte>, file: seq<byte>, m: nat)
    requires m <= |from|
    ensures from[..m] <= file <==> m <= |file| && forall i :: 0 <= i < m ==> file[i] == from[i]
  {
    if m <= |file| { SamePrefix(from, m, file); }
  }

  lemma BeginsFile(rest: string, file: seq<byte>, got: nat, m: nat)
    requires |file| <= INT_MAX && got <= SLAB && m <= |file|
    requires m <= |Remaining(rest, file, got)|
    ensures (forall i :: 0 <= i < m ==> file[i] == Remaining(rest, file, got)[i]) <==>
              Shifted(file, Lead(rest, |file|, got), m)
  {
    forall i | 0 <= i < m
      ensures Remaining(rest, file, got)[i] == Behind(Lead(rest, |file|, got), file, i)
    {
      RemainingBytes(rest, file, got, i);
    }
  }

  lemma SamePrefix(a: seq<byte>, m: nat, b: seq<byte>)
    requires m <= |a| && m <= |b|
    ensures a[..m] <= b <==> forall i :: 0 <= i < m ==> b[i] == a[i]
  {
    var init := a[..m];
    if forall i :: 0 <= i < m ==> b[i] == a[i] { assert init == b[..m]; }
    if init <= b {
      forall i | 0 <= i < m ensures b[i] == a[i] { assert init[i] == b[i]; }
    }
  }

  /** The receive of the announcement took all digits, and no stale digit follows them. */
  predicate NumberRead(size: nat, stale: string, got: nat)
    requires |stale| == SLAB && got <= SLAB
  {
    |Decimal(size)| <= got && (got == |Decimal(size)| < SLAB ==> !('0' <= stale[got] <= '9'))
  }

  lemma SizeRead(size: nat, stale: string, got: nat)
    requires size <= INT_MAX && |stale| == SLAB && got <= SLAB && NumberRead(size, stale, got)
    ensures Announced("", size, stale, got) == size
    ensures Lead("", size, got) == AsBytes(Zeros(SLAB - got))
  {
    SizeWidth(size);
    var d := Decimal(size);
    var rest := Zeros(got - |d|) + stale[got..];
    assert Head("", size) == Header(size);
    assert Header(size)[..got] + stale[got..] == d + rest;
    NumberFirst(size, rest);
    assert Header(size)[got..] == Zeros(SLAB - got);
  }

  /** Exactly when a transfer is harmed although the size was read: all of the announcement was not
      received, and the bytes the file should have begun with are not all zero. The rest of the
      announcement is then written in front of the file. */
  lemma SizeReadIff(file: seq<byte>, stale: string, got: nat, ready: nat -> nat)
    requires |file| <= INT_MAX && |stale| == SLAB && 1 <= got <= SLAB && forall i :: ready(i) >= 1
    requires NumberRead(|file|, stale, got)
    ensures Faithful("", file, stale, got, ready) <==>
              got == SLAB || forall i :: 0 <= i < Delivered(|file|, ready) ==> file[i] == 0
  {
    SizeRead(|file|, stale, got);
    FaithfulIff("", file, stale, got, ready);
  }

  /** The receiver's buffer before the size arrives: zeroed by the server, still holding the command at
      the client. */
  predicate HeaderBuffer(stale: string)
  {
    |stale| == SLAB && (stale == Zeros(SLAB) || stale[..4] == "get ")
  }

  /** Exactly how much of the announcement must come in at once for every transfer whose command came in
      whole to be faithful: all of it. */
  lemma HeaderIff(stale: string, got: nat)
    requires HeaderBuffer(stale) && 1 <= got <= SLAB
    ensures (forall file, ready: nat -> nat :: |file| <= INT_MAX && (forall i :: ready(i) >= 1) ==>
               Faithful("", file, stale, got, ready))
            <==> got == SLAB
  {
    if got == SLAB {
      forall file, ready: nat -> nat | |file| <= INT_MAX && forall i :: ready(i) >= 1
        ensures Faithful("", file, stale, got, ready)
      {
        WholeHeader(file, stale, ready);
      }
    } else {
      OneByteSpoiled(stale, got, _ => 1);
    }
  }

  /** A file of one byte is replaced by a byte of the announcement. */
  lemma OneByteSpoiled(stale: string, got: nat, ready: nat -> nat)
    requires HeaderBuffer(stale) && 1 <= got < SLAB && forall i :: ready(i) >= 1
    ensures !Faithful("", [1], stale, got, ready)
  {
    assert stale[1] == if stale == Zeros(SLAB) then '\0' else stale[..4][1];
    assert Decimal(1) == "1";
    var file: seq<byte> := [1];
    SizeReadIff(file, stale, got, ready);
    assert Delivered(|file|, ready) == 1 && file[0] != 0;
  }

  /** A number without its last `k` digits. */
  function Top(n: nat, k: nat): nat { if k == 0 then n else Top(n / 10, k - 1) }

  /** A receive that cuts the number itself into a zeroed buffer reads the size without its last
      digits. */
  lemma CutNumber(size: nat, got: nat)
    requires size <= INT_MAX && 1 <= got <= |Decimal(size)|
    ensures got <= SLAB
    ensures Announced("", size, Zeros(SLAB), got) == Top(size, |Decimal(size)| - got)
  {
    SizeWidth(size);
    DecimalPrefix(size, got);
    assert Head("", size)[..got] == Header(size)[..got] == Decimal(size)[..got];
    NumberFirst(Top(size, |Decimal(size)| - got), Zeros(SLAB)[got..]);
  }

  lemma {:induction false} TopSmaller(n: nat, k: nat)
    ensures Top(n, k) <= n
  {
    if k > 0 { TopSmaller(n / 10, k - 1); }
  }

  lemma CutLead(size: nat, got: nat)
    requires size <= INT_MAX && 1 <= got <= |Decimal(size)| <= SLAB
    ensures Lead("", size, got) == AsBytes(Decimal(size)[got..] + Zeros(SLAB - |Decimal(size)|))
  {
    assert Head("", size)[got..] == Decimal(size)[got..] + Zeros(SLAB - |Decimal(size)|);
  }

  /** Such a transfer is right exactly when the file begins with the digits cut off and the zeros
      behind them, over and over for as much as is delivered. */
  lemma CutNumberIff(file: seq<byte>, got: nat, ready: nat -> nat)
    requires |file| <= INT_MAX && 1 <= got <= |Decimal(|file|)| && forall i :: ready(i) >= 1
    ensures got < SLAB && Top(|file|, |Decimal(|file|)| - got) <= |file|
    ensures |Decimal(|file|)| <= SLAB
    ensures Faithful("", file, Zeros(SLAB), got, ready) <==>
              Repeats(file, AsBytes(Decimal(|file|)[got..] + Zeros(SLAB - |Decimal(|file|)|)),
                      Delivered(Top(|file|, |Decimal(|file|)| - got), ready))
  {
    SizeWidth(|file|);
    CutNumber(|file|, got);
    TopSmaller(|file|, |Decimal(|file|)| - got);
    CutLead(|file|, got);
    FaithfulIff("", file, Zeros(SLAB), got, ready);
  }

  lemma {:induction false} DecimalPrefix(n: nat, k: nat)
    requires 1 <= k <= |Decimal(n)|
    ensures Decimal(n)[..k] == Decimal(Top(n, |Decimal(n)| - k))
  {
    if k < |Decimal(n)| {
      DecimalPrefix(n / 10, k);
      assert Decimal(n)[..k] == Decimal(n / 10)[..k];
    } else {
      assert Decimal(n)[..k] == Decimal(n);
    }
  }

  /** Exactly which files some pattern of short reads truncates: all of two bytes or more. One byte
      at a time, only the first byte of the final stretch below one slab is ever read. */
  lemma TruncatableIff(size: nat)
    ensures (exists ready: nat -> nat :: (forall i :: ready(i) >= 1) && Delivered(size, ready) < size) <==> size >= 2
  {
    var single: nat -> nat := _ => 1;
    SingleBytes(size, single, 0);
    assert (forall i :: single(i) >= 1) && (size >= 2 ==> Delivered(size, single) < size);
  }

  lemma {:induction false} SingleBytes(remaining: nat, ready: nat -> nat, k: nat)
    requires forall i :: ready(i) == 1
    ensures Countdown(remaining, ready, k).0 == Min(remaining, SLAB - 1)
    decreases remaining
  {
    if remaining >= SLAB { SingleBytes(remaining - 1, ready, k + 1); }
  }
}
