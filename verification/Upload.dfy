/** An upload from the command to the file: what of the command is not in the server's buffer when the
    server looks at it is read as the announcement of the size. */
module Upload {
  import opened Text
  import opened Datagram
  import opened Command
  import opened Transfer

  /** The name the server takes, and the part of the name it leaves unread, when the first `ready`
      characters of the command are in its buffer. */
  function Taken(name: string, ready: nat): string
    requires ready >= 4
  {
    name[..Min(ready - 4, |name|)]
  }

  function Unread(name: string, ready: nat): string
    requires ready >= 4
  {
    name[Min(ready - 4, |name|)..]
  }

  /** `put` of a file under `name`: `ready` characters of the command and `first` characters of what
      follows are there when the server receives the one and the other. A command shorter than its
      verb is not recognised, and nothing is stored. */
  method PutFile(name: string, file: seq<byte>, ready: nat, first: nat, later: nat -> nat)
    returns (recognised: bool, fileName: array<char>, outcome: Outcome)
    requires FitsBuffer(name) && |file| <= INT_MAX
    requires first >= 1 && forall i :: later(i) >= 1
    ensures recognised <==> ready >= 4
    ensures recognised ==>
              && ZERO in fileName[..] && UntilZero(fileName[..]) == Taken(name, ready)
              && outcome == Result(Unread(name, ready), file, Zeros(SLAB), Min(first, SLAB), later)
    ensures ready >= 4 + |name| && first >= SLAB ==>
              UntilZero(fileName[..]) == name && outcome == Written(file[..Delivered(|file|, later)])
  {
    recognised, fileName := NameAtServer("put ", name, ready);
    outcome := Written([]);
    if recognised {
      var fileSizeBuffer := new char[SLAB](_ => '\0');
      assert fileSizeBuffer[..] == Zeros(SLAB);
      outcome := TransferFile(Unread(name, ready), file, fileSizeBuffer, first, later);
    }
  }

  /** The file's beginning is stored under the file's name. */
  ghost predicate Right(name: string, file: seq<byte>, ready: nat, got: nat, later: nat -> nat)
    requires |file| <= INT_MAX && got <= SLAB && forall i :: later(i) >= 1
  {
    ready >= 4 && Taken(name, ready) == name && Faithful(Unread(name, ready), file, Zeros(SLAB), got, later)
  }

  /** Exactly when uploads under a name are right for every file and all later receives: the whole command
      comes in at once, and so does the whole announcement. */
  lemma PutIff(name: string, ready: nat, got: nat)
    requires 1 <= got <= SLAB
    ensures (forall file, later: nat -> nat :: |file| <= INT_MAX && (forall i :: later(i) >= 1) ==>
               Right(name, file, ready, got, later))
            <==> ready >= 4 + |name| && got == SLAB
  {
    HeaderIff(Zeros(SLAB), got);
    if ready >= 4 + |name| {
      assert Unread(name, ready) == "" && Taken(name, ready) == name;
      forall file, later: nat -> nat | |file| <= INT_MAX && forall i :: later(i) >= 1
        ensures Right(name, file, ready, got, later) <==> Faithful("", file, Zeros(SLAB), got, later)
      {
      }
    } else {
      var once: nat -> nat := _ => 1;
      assert (forall i :: once(i) >= 1) && !Right(name, [], ready, got, once);
    }
  }

  /** A rest of the command that reads as no number: an empty file is stored, under a cut name. */
  lemma CutCommand(name: string, file: seq<byte>, ready: nat, got: nat, later: nat -> nat)
    requires |file| <= INT_MAX && 1 <= got <= SLAB && forall i :: later(i) >= 1
    requires 4 <= ready < 4 + |name|
    requires var c := name[ready - 4]; !('0' <= c <= '9') && !Blank(c) && c !in {'+', '-'}
    ensures Taken(name, ready) != name
    ensures Result(Unread(name, ready), file, Zeros(SLAB), got, later) == Written([])
  {
    var rest := Unread(name, ready);
    var read := Head(rest, |file|)[..got] + Zeros(SLAB)[got..];
    assert read[0] == rest[0] == name[ready - 4];
    assert ReadInt(read) == 0;
  }
}
