/** Transfer commands: a four-letter verb and a file name in a 256-byte buffer, and the loops that
    strip the verb again. */
module Command {
  import opened Text
  import opened Datagram

  const BUFFER: nat := 256

  /** The longest name that leaves room for the verb and the terminating zero. */
  const NAME_MAX: nat := 251

  predicate FitsBuffer(name: string) { |name| <= NAME_MAX && ZERO !in name }

  method Strlen(buffer: array<char>) returns (n: nat)
    requires ZERO in buffer[..]
    ensures n < buffer.Length && ZERO !in buffer[..n] && FirstZero(buffer[..], n)
  {
    n := 0;
    while buffer[n] != ZERO
      invariant n < buffer.Length && ZERO !in buffer[..n]
      decreases buffer.Length - n
    {
      assert buffer[..n + 1] == buffer[..n] + [buffer[n]];
      assert buffer[..buffer.Length] == buffer[..];
      n := n + 1;
    }
  }

  /** The client's buffer for a command. */
  method ClientCommand(verb: string, name: string) returns (buffer: array<char>)
    requires verb in {"put ", "get "} && FitsBuffer(name)
    ensures fresh(buffer) && buffer.Length == BUFFER
    ensures buffer[..4 + |name|] == verb + name
    ensures forall k :: 4 + |name| <= k < BUFFER ==> buffer[k] == ZERO
  {
    buffer := new char[BUFFER](_ => ZERO);
    var text := verb + name;
    for i := 0 to |text|
      invariant buffer[..i] == text[..i]
      invariant forall k :: i <= k < BUFFER ==> buffer[k] == ZERO
    {
      buffer[i] := text[i];
    }
    assert text[..|text|] == text;
  }

  /** The server's buffer after one receive; `ready` is how much of the command has come in by then. */
  method ServerReceive(sent: array<char>, ready: nat) returns (msgBuffer: array<char>)
    requires ZERO in sent[..] && sent.Length == BUFFER
    ensures fresh(msgBuffer) && msgBuffer.Length == BUFFER && ZERO in msgBuffer[..]
    ensures UntilZero(msgBuffer[..]) == UntilZero(sent[..])[..Min(ready, |UntilZero(sent[..])|)]
  {
    var length := Strlen(sent);
    ZeroAt(sent[..], length);
    var b := Min(ready, length);
    msgBuffer := new char[BUFFER](_ => ZERO);
    for i := 0 to b
      invariant msgBuffer[..i] == sent[..i]
      invariant forall k :: i <= k < BUFFER ==> msgBuffer[k] == ZERO
    {
      msgBuffer[i] := sent[i];
    }
    msgBuffer[b] := ZERO;
    assert msgBuffer[..][b] == ZERO;
    assert sent[..b] == sent[..length][..b];
    ZeroAt(msgBuffer[..], b);
  }

  /** The buffer after `j` characters have been moved four places forward. */
  ghost function Moved(was: string, j: nat): (now: string)
    requires j + 4 <= |was|
    ensures |now| == |was|
  {
    was[4..j + 4] + was[j..]
  }

  ghost predicate FirstZero(s: string, n: nat)
  {
    n < |s| && s[n] == ZERO && forall k :: 0 <= k < n ==> s[k] != ZERO
  }

  /** The length of the half-moved text: unchanged until the zero itself has been moved. */
  lemma MovedLength(was: string, full: nat, j: nat)
    requires FirstZero(was, full) && 4 <= full && j + 4 <= full + 1
    ensures FirstZero(Moved(was, j), if j + 4 <= full then full else full - 4)
  {
  }

  lemma ShiftStarts(was: string, full: nat)
    requires FirstZero(was, full)
    ensures |UntilZero(was)| == full
    ensures full >= 4 ==> Moved(was, 0) == was
  {
    ZeroAt(was, full);
  }

  /** After the last move the text is the old one without its first four characters. */
  lemma MovedText(was: string, full: nat)
    requires FirstZero(was, full) && 4 <= full
    ensures |UntilZero(was)| == full
    ensures UntilZero(Moved(was, full - 3)) == UntilZero(was)[4..]
    ensures ZERO in Moved(was, full - 3)
  {
    MovedLength(was, full, full - 3);
    ZeroAt(was, full);
    ZeroAt(Moved(was, full - 3), full - 4);
    assert Moved(was, full - 3)[full - 4] == ZERO;
    assert Moved(was, full - 3)[..full - 4] == was[..full][4..];
  }

  /** One character of the shift. */
  method MoveOne(msgBuffer: array<char>, j: nat, ghost was: string)
    requires j + 4 < msgBuffer.Length == |was| && msgBuffer[..] == Moved(was, j)
    modifies msgBuffer
    ensures msgBuffer[..] == Moved(was, j + 1)
  {
    assert msgBuffer[j + 4] == Moved(was, j)[j + 4];
    msgBuffer[j] := msgBuffer[j + 4];
    assert msgBuffer[..] == Moved(was, j)[j := was[j + 4]];
  }

  /** The verb stripped in place: the bound of the loop is the length of the text that the loop is
      moving, measured again each time. */
  method ShiftInPlace(msgBuffer: array<char>)
    requires ZERO in msgBuffer[..] && |UntilZero(msgBuffer[..])| >= 4
    modifies msgBuffer
    ensures UntilZero(msgBuffer[..]) == old(UntilZero(msgBuffer[..]))[4..]
    ensures ZERO in msgBuffer[..]
  {
    ghost var was := msgBuffer[..];
    var length := Strlen(msgBuffer);
    ghost var full := length;
    ShiftStarts(was, full);
    var j: nat := 0;
    var i: nat := 4;
    while i <= length
      invariant i == j + 4 <= full + 1
      invariant msgBuffer[..] == Moved(was, j)
      invariant length == if i <= full then full else full - 4
      decreases full + 1 - i
    {
      MoveOne(msgBuffer, j, was);
      j := j + 1;
      i := i + 1;
      length := Remeasure(msgBuffer, was, full, j);
    }
    MovedText(was, full);
  }

  method Remeasure(msgBuffer: array<char>, ghost was: string, ghost full: nat, ghost j: nat) returns (length: nat)
    requires FirstZero(was, full) && 4 <= full && j + 4 <= full + 1 && msgBuffer[..] == Moved(was, j)
    ensures length == if j + 4 <= full then full else full - 4
  {
    MovedLength(was, full, j);
    assert msgBuffer[..][if j + 4 <= full then full else full - 4] == ZERO;
    length := Strlen(msgBuffer);
  }

  /** The verb stripped into a second, zeroed buffer. */
  method CopyName(msgBuffer: array<char>) returns (fileName: array<char>)
    requires ZERO in msgBuffer[..] && |UntilZero(msgBuffer[..])| >= 4 && msgBuffer.Length == BUFFER
    ensures fresh(fileName) && fileName.Length == BUFFER && ZERO in fileName[..]
    ensures UntilZero(fileName[..]) == UntilZero(msgBuffer[..])[4..]
  {
    fileName := new char[BUFFER](_ => ZERO);
    var length := Strlen(msgBuffer);
    ZeroAt(msgBuffer[..], length);
    var j := 0;
    var i := 4;
    while i <= length
      invariant 4 <= i <= length + 1 && j == i - 4
      invariant forall k :: 0 <= k < j ==> fileName[k] == msgBuffer[k + 4]
    {
      fileName[j] := msgBuffer[i];
      j := j + 1;
      i := i + 1;
    }
    assert fileName[..length - 4] == msgBuffer[..length][4..];
    assert fileName[..][length - 4] == ZERO;
    ZeroAt(fileName[..], length - 4);
  }

  /** The branch of the server for a verb. */
  predicate StartsWith(s: string, verb: string)
  {
    |s| >= |verb| && s[..|verb|] == verb
  }

  lemma TextStarts(s: string, verb: string)
    requires ZERO in s && ZERO !in verb && |verb| <= |s|
    ensures StartsWith(s, verb) <==> StartsWith(UntilZero(s), verb)
  {
    var n := FirstZeroOf(s);
    ZeroAt(s, n);
    assert n < |verb| ==> s[..|verb|][n] == ZERO;
    if n >= |verb| { assert s[..n][..|verb|] == s[..|verb|]; }
  }

  lemma {:induction false} FirstZeroOf(s: string) returns (n: nat)
    requires ZERO in s
    ensures n < |s| && s[n] == ZERO && ZERO !in s[..n]
  {
    if s[0] == ZERO {
      n := 0;
    } else {
      n := FirstZeroOf(s[1..]);
      n := n + 1;
      assert s[..n] == [s[0]] + s[1..][..n - 1];
    }
  }

  /** What a command that came in by `ready` characters is taken for. */
  method Dispatch(msgBuffer: array<char>, verb: string) returns (recognised: bool)
    requires msgBuffer.Length == BUFFER && ZERO in msgBuffer[..] && verb in {"put ", "get "}
    ensures recognised <==> StartsWith(UntilZero(msgBuffer[..]), verb)
  {
    recognised := msgBuffer[0] == verb[0] && msgBuffer[1] == verb[1]
               && msgBuffer[2] == verb[2] && msgBuffer[3] == verb[3];
    TextStarts(msgBuffer[..], verb);
    assert recognised <==> msgBuffer[..][..4] == verb;
  }

  lemma PrefixStarts(verb: string, name: string, n: nat)
    requires |verb| == 4 && n <= 4 + |name|
    ensures StartsWith((verb + name)[..n], verb) <==> n >= 4
    ensures n >= 4 ==> (verb + name)[..n][4..] == name[..n - 4]
  {
    if n >= 4 { assert (verb + name)[..n][..4] == verb; }
  }

  /** The name as the server sees it, by the in-place strip of `get` as by the copying strip of `put`:
      as much of it as came in with the first receive, and all of it exactly when the whole command
      did. A command that came in by less than its verb is not recognised. */
  method NameAtServer(verb: string, name: string, ready: nat) returns (recognised: bool, received: array<char>)
    requires verb in {"put ", "get "} && FitsBuffer(name)
    ensures recognised <==> ready >= 4
    ensures recognised ==>
              ZERO in received[..] && UntilZero(received[..]) == name[..Min(ready - 4, |name|)]
    ensures recognised && UntilZero(received[..]) == name <==> ready >= 4 + |name|
  {
    var buffer := ClientCommand(verb, name);
    ClientText(buffer[..], verb, name);
    received := ServerReceive(buffer, ready);
    PrefixStarts(verb, name, Min(ready, 4 + |name|));
    recognised := Dispatch(received, verb);
    if recognised {
      if verb == "get " {
        ShiftInPlace(received);
      } else {
        received := CopyName(received);
      }
    }
  }

  lemma ClientText(buffer: string, verb: string, name: string)
    requires verb in {"put ", "get "} && FitsBuffer(name) && |buffer| == BUFFER
    requires buffer[..4 + |name|] == verb + name && buffer[4 + |name|] == ZERO
    ensures ZERO in buffer && UntilZero(buffer) == verb + name
  {
    assert ZERO !in verb + name;
    ZeroAt(buffer, 4 + |name|);
  }

  // ----- the path the server opens

  const FOLDER: string := "./uploads/"

  /** The folder and the name copied behind each other into a buffer of the same size: names of up to
      245 characters leave room for the terminating zero. */
  method FilePath(fileName: array<char>) returns (path: array<char>)
    requires ZERO in fileName[..] && |FOLDER| + |UntilZero(fileName[..])| < BUFFER
    ensures fresh(path) && ZERO in path[..] && UntilZero(path[..]) == FOLDER + UntilZero(fileName[..])
  {
    var length := Strlen(fileName);
    ZeroAt(fileName[..], length);
    path := new char[BUFFER](_ => ZERO);
    var text := FOLDER + fileName[..length];
    for i := 0 to |text|
      invariant path[..i] == text[..i]
      invariant forall k :: i <= k < BUFFER ==> path[k] == ZERO
    {
      path[i] := text[i];
    }
    assert path[..][|text|] == ZERO && text[..|text|] == text;
    NoZeroUntilZero(fileName[..]);
    assert ZERO !in FOLDER;
    ZeroAt(path[..], |text|);
  }
}
