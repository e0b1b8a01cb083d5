/** serializer (src/main.cc): the answer is written to a temporary file, copied
    to the answer file, and only then is the lock file made. */
module Serializer {
  import opened Text
  import opened Writer
  import opened FileNames

  type Files = map<string, string>

  /** A directory tree that remembers every state another process could see. */
  class FileSystem {
    var files: Files
    ghost var seen: seq<Files>

    constructor (files: Files)
      ensures this.files == files && seen == []
    {
      this.files, seen := files, [];
    }

    /** Opening an ofstream: the file exists and is empty. */
    method Open(path: string)
      modifies this
      ensures files == old(files)[path := ""] && seen == old(seen) + [files]
    {
      files := files[path := ""];
      seen := seen + [files];
    }

    /** The buffered characters reach a newly opened file bit by bit. */
    method Write(path: string, s: string)
      requires path in files && files[path] == ""
      modifies this
      ensures files == old(files)[path := s]
      ensures |seen| >= |old(seen)| && seen[..|old(seen)|] == old(seen)
      ensures forall k :: |old(seen)| <= k < |seen| ==> Partial(old(files), path, s, seen[k])
    {
      var i := 0;
      assert old(files)[path] == s[..0];
      while i < |s|
        invariant 0 <= i <= |s|
        invariant files == old(files)[path := s[..i]]
        invariant |seen| >= |old(seen)| && seen[..|old(seen)|] == old(seen)
        invariant forall k :: |old(seen)| <= k < |seen| ==> Partial(old(files), path, s, seen[k])
      {
        var n: nat := *;
        var next := if i < n <= |s| then n else |s|;
        assert s[..i] + s[i..next] == s[..next];
        files := files[path := files[path] + s[i..next]];
        assert files == old(files)[path := s[..next]];
        assert Partial(old(files), path, s, files);
        seen := seen + [files];
        i := next;
      }
      assert s[..|s|] == s;
    }

    method Unlink(path: string)
      requires path in files
      modifies this
      ensures files == old(files) - {path} && seen == old(seen) + [files]
    {
      files := files - {path};
      seen := seen + [files];
    }
  }

  /** Some first characters of s are in the file, nothing else moved. */
  ghost predicate Partial(before: Files, path: string, s: string, now: Files) {
    exists j :: 0 <= j <= |s| && now == before[path := s[..j]]
  }

  /** What may be seen while a command is answered: only its three files move,
      and a lock that was not there before comes with the whole answer and without
      the temporary file. */
  ghost predicate Orderly(before: Files, now: Files, p: Paths, text: string) {
    && (forall q :: q !in {p.tmp, p.ret, p.lck} ==> (q in now <==> q in before) && (q in now ==> now[q] == before[q]))
    && (p.lck in now ==> p.lck in before || (p.ret in now && now[p.ret] == text && p.tmp !in now))
  }

  predicate Distinct(p: Paths) {
    p.tmp != p.ret && p.ret != p.lck && p.tmp != p.lck
  }

  /** copy_file: opens the copy, then streams the original into it. */
  method CopyFile(fs: FileSystem, orig: string, dest: string)
    requires orig in fs.files && orig != dest
    modifies fs
    ensures fs.files == old(fs.files)[dest := old(fs.files)[orig]]
    ensures |fs.seen| >= |old(fs.seen)| && fs.seen[..|old(fs.seen)|] == old(fs.seen)
    ensures forall k :: |old(fs.seen)| <= k < |fs.seen| ==>
      Partial(old(fs.files), dest, old(fs.files)[orig], fs.seen[k])
  {
    OpenAndWrite(fs, dest, fs.files[orig]);
  }

  method OpenAndWrite(fs: FileSystem, path: string, s: string)
    modifies fs
    ensures fs.files == old(fs.files)[path := s]
    ensures |fs.seen| >= |old(fs.seen)| && fs.seen[..|old(fs.seen)|] == old(fs.seen)
    ensures forall k :: |old(fs.seen)| <= k < |fs.seen| ==> Partial(old(fs.files), path, s, fs.seen[k])
  {
    ghost var before := fs.files;
    fs.Open(path);
    ghost var empty := fs.files;
    assert Partial(before, path, s, empty) by { assert s[..0] == ""; }
    fs.Write(path, s);
    forall now | Partial(empty, path, s, now) ensures Partial(before, path, s, now) {
      var j :| 0 <= j <= |s| && now == empty[path := s[..j]];
      assert now == before[path := s[..j]];
    }
    hide Partial;
  }

  lemma WritingIsOrderly(before: Files, p: Paths, text: string, now: Files)
    requires Distinct(p)
    requires Partial(before, p.tmp, text, now) || Partial(before[p.tmp := text], p.ret, text, now)
    ensures Orderly(before, now, p, text)
  {
  }

  /** The file steps. */
  method Publish(fs: FileSystem, p: Paths, text: string)
    requires Distinct(p)
    modifies fs
    ensures fs.files == old(fs.files)[p.ret := text][p.lck := ""] - {p.tmp}
    ensures |fs.seen| >= |old(fs.seen)| && fs.seen[..|old(fs.seen)|] == old(fs.seen)
    ensures forall k :: |old(fs.seen)| <= k < |fs.seen| ==> Orderly(old(fs.files), fs.seen[k], p, text)
  {
    ghost var before := fs.files;
    OpenAndWrite(fs, p.tmp, text);
    CopyFile(fs, p.tmp, p.ret);
    forall k | |old(fs.seen)| <= k < |fs.seen| ensures Orderly(before, fs.seen[k], p, text) {
      WritingIsOrderly(before, p, text, fs.seen[k]);
    }
    hide Partial;
    fs.Unlink(p.tmp);
    assert Orderly(before, fs.files, p, text);
    fs.Open(p.lck);
    assert fs.files[p.ret] == text;
    assert Orderly(before, fs.files, p, text);
    hide Orderly;
  }

  method Serialize(fs: FileSystem, path: string, pkt: ResponsePacket, server: string) returns (ok: bool)
    modifies fs, pkt.base`idx
    ensures ok <==> PathsOf(path).Some?
    ensures !ok ==> fs.files == old(fs.files) && fs.seen == old(fs.seen)
    ensures ok ==>
      var p := PathsOf(path).value;
      var text := Unlines(AnswerLines(old(pkt.View()), server));
      && fs.files == old(fs.files)[p.ret := text][p.lck := ""] - {p.tmp}
      && |fs.seen| >= |old(fs.seen)| && fs.seen[..|old(fs.seen)|] == old(fs.seen)
      && forall k :: |old(fs.seen)| <= k < |fs.seen| ==> Orderly(old(fs.files), fs.seen[k], p, text)
  {
    var rsp, tmp := path, path;
    var pos := Find(rsp, CmdPart());
    if pos == -1 {
      return false;
    }
    rsp := Replaced(rsp, pos, RetPart());
    tmp := Replaced(tmp, pos, TmpPart());
    DifferentPaths(path);
    hide AnswerLines;
    hide Orderly;
    var out := new OutStream();
    WritePacket(pkt, server, out);
    assert out.text == Unlines(AnswerLines(old(pkt.View()), server)) by {
      assert "" + Unlines(AnswerLines(old(pkt.View()), server)) == Unlines(AnswerLines(old(pkt.View()), server));
    }
    Publish(fs, Paths(tmp, rsp, rsp + LockSuffix()), out.text);
    ok := true;
  }

  lemma DifferentPaths(path: string)
    requires PathsOf(path).Some?
    ensures Distinct(PathsOf(path).value)
  {
    var pos := Find(path, CmdPart());
    assert Replaced(path, pos, TmpPart())[pos] == '_' && Replaced(path, pos, RetPart())[pos] == 'a';
  }
}
