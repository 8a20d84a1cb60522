/** The storage side of the monitor protocol: answering checks and deletions. */
module Store {
  import opened Text

  /** The answer names the asker's own address, by which the asker recognises itself in the
      placement. */
  function MonitorReply(uploads: map<string, string>, request: string, remote: string): string
    requires |Split(request, ';')| >= 2
  {
    var arr := Split(request, ';');
    if arr[1] == "DELETE" || arr[0] in uploads then "YES;" + remote else "NO;" + remote
  }

  lemma AnswerParts(remote: string)
    requires ';' !in remote
    ensures Split("YES;" + remote, ';') == ["YES", remote] && Split("NO;" + remote, ';') == ["NO", remote]
  {
    TwoParts("YES", remote);
    TwoParts("NO", remote);
    assert "YES" + ";" + remote == "YES;" + remote;
    assert "NO" + ";" + remote == "NO;" + remote;
  }

  /** A check is answered by whether the file is stored, and its second part equals a listed
      address exactly when the asker is that listed node. */
  lemma CheckAnswer(uploads: map<string, string>, f: string, remote: string)
    requires ';' !in f && ';' !in remote
    ensures |Split(f + ";CHECK", ';')| >= 2
    ensures Split(MonitorReply(uploads, f + ";CHECK", remote), ';') == [if f in uploads then "YES" else "NO", remote]
  {
    TwoParts(f, "CHECK");
    assert f + ";" + "CHECK" == f + ";CHECK";
    AnswerParts(remote);
  }

  lemma Requested(request: string, word: string)
    requires ';' !in word
    ensures forall f :: ';' !in f && request == f + (";" + word) ==> Split(request, ';') == [f, word]
  {
    forall f | ';' !in f && request == f + (";" + word) ensures Split(request, ';') == [f, word] {
      TwoParts(f, word);
      assert f + ";" + word == f + (";" + word);
    }
  }

  class Disk {
    var uploads: map<string, string>

    method MonitorHandler(request: string, remote: string) returns (reply: string)
      requires |Split(request, ';')| >= 2
      modifies this
      ensures var arr := Split(request, ';');
              uploads == if arr[1] == "DELETE" then old(uploads) - {arr[0]} else old(uploads)
      ensures reply == MonitorReply(old(uploads), request, remote)
      ensures forall f :: ';' !in f && request == f + ";CHECK" ==>
                            uploads == old(uploads) && reply == (if f in old(uploads) then "YES;" else "NO;") + remote
      ensures forall f :: ';' !in f && request == f + ";DELETE" ==>
                            uploads == old(uploads) - {f} && reply == "YES;" + remote
    {
      var arr := Split(request, ';');
      assert ";" + "CHECK" == ";CHECK" && ";" + "DELETE" == ";DELETE";
      Requested(request, "CHECK");
      Requested(request, "DELETE");
      if arr[1] == "DELETE" {
        uploads := uploads - {arr[0]};
        return "YES;" + remote;
      }
      var localFileList := Keys(uploads.Keys);
      for i := 0 to |localFileList|
        invariant arr[0] !in localFileList[..i]
      {
        if localFileList[i] == arr[0] {
          return "YES;" + remote;
        }
      }
      assert localFileList[..|localFileList|] == localFileList;
      reply := "NO;" + remote;
    }
  }
}
