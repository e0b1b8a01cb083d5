/** Names of the temporary, answer and lock files, and the order in which
    serializer (src/main.cc) makes them. */
module FileNames {
  import opened Text

  function CmdPart(): string { "arqcmd" }

  function RetPart(): string { "arqret" }

  function TmpPart(): string { "_rqret" }

  function LockSuffix(): string { ".lck" }

  /** std::string::replace(pos, 6, part). */
  function Replaced(path: string, pos: nat, part: string): string
    requires pos + 6 <= |path|
  {
    path[..pos] + part + path[pos + 6..]
  }

  /** The three paths made from the path of a command file, when there are any. */
  datatype Paths = Paths(tmp: string, ret: string, lck: string)

  function PathsOf(path: string): Option<Paths> {
    var pos := Find(path, CmdPart());
    if pos < 0 then None
    else
      var ret := Replaced(path, pos, RetPart());
      Some(Paths(Replaced(path, pos, TmpPart()), ret, ret + LockSuffix()))
  }

  /** A working directory as the configuration must give it. */
  predicate GoodDir(dir: string) {
    dir != "" && dir[|dir| - 1] == '/' && !Contains(dir, CmdPart())
  }

  /** A prefix under which only command files are found. */
  predicate GoodPrefix(prefix: string) {
    CmdPart() <= prefix
  }

  lemma PathsOfCommand(dir: string, name: string)
    requires GoodDir(dir) && CmdPart() <= name
    ensures PathsOf(dir + name)
         == Some(Paths(dir + "_rqret" + name[6..], dir + "arqret" + name[6..], dir + "arqret" + name[6..] + ".lck"))
  {
    var path := dir + name;
    assert path[|dir|..|dir| + 6] == name[..6] == CmdPart();
    assert OccursAt(path, CmdPart(), |dir|);
    var pos := Find(path, CmdPart());
    NoEarlierOccurrence(dir, name, pos);
    assert path[..|dir|] == dir && path[|dir| + 6..] == name[6..];
  }

  lemma NoEarlierOccurrence(dir: string, name: string, j: nat)
    requires GoodDir(dir) && OccursAt(dir + name, CmdPart(), j) && j <= |dir|
    ensures j == |dir|
  {
    if j + 6 <= |dir| {
      OccursInFront(dir, name, CmdPart(), j);
    }
    var path := dir + name;
    assert path[|dir| - 1] == '/';
    NoSlash();
    hide CmdPart;
    forall p | j <= p < j + 6 ensures path[p] != '/' {
      assert path[j..j + 6][p - j] == path[p];
    }
  }

  lemma NoSlash()
    ensures |CmdPart()| == 6 && forall i :: 0 <= i < 6 ==> CmdPart()[i] != '/'
  {
  }

  lemma OccursInFront(dir: string, name: string, pat: string, j: nat)
    requires j + |pat| <= |dir|
    ensures OccursAt(dir + name, pat, j) <==> OccursAt(dir, pat, j)
  {
    assert (dir + name)[j..j + |pat|] == dir[j..j + |pat|];
  }

  // ------------------------------------------------------ who gets which file

  /** The files of the protocol: those of the command of that name, and the
      draft a client renames into it. */
  datatype FileId = Cmd(name: string) | Tmp(name: string) | Ret(name: string) | Lck(name: string) | Draft(path: string)

  /** The name of a file inside the working directory; a command name is the
      common part and a rest. */
  function BaseName(id: FileId): string {
    match id
    case Cmd(name) => name
    case Tmp(name) => TmpPart() + Drop(name, 6)
    case Ret(name) => RetPart() + Drop(name, 6)
    case Lck(name) => RetPart() + Drop(name, 6) + LockSuffix()
    case Draft(path) => path
  }

  /** These are the files that the serializer makes. */
  lemma BaseNamesArePaths(dir: string, name: string)
    requires GoodDir(dir) && CmdPart() <= name
    ensures PathsOf(dir + name)
         == Some(Paths(dir + BaseName(Tmp(name)), dir + BaseName(Ret(name)), dir + BaseName(Lck(name))))
  {
    hide PathsOf;
    hide GoodDir;
    PathsOfCommand(dir, name);
    assert dir + (TmpPart() + name[6..]) == dir + TmpPart() + name[6..];
    assert dir + (RetPart() + name[6..]) == dir + RetPart() + name[6..];
    assert dir + (RetPart() + name[6..] + LockSuffix()) == dir + RetPart() + name[6..] + LockSuffix();
  }

  /** Two command names whose files do not get into each other's way. */
  predicate Compatible(a: string, b: string) {
    a != b + LockSuffix() && b != a + LockSuffix()
  }

  lemma SuffixOf(part: string, name: string)
    requires |part| == 6
    ensures (part + name)[..6] == part && (part + name)[6..] == name
  {
  }

  lemma RestDetermines(a: string, b: string)
    requires CmdPart() <= a && CmdPart() <= b
    ensures a[6..] == b[6..] <==> a == b
    ensures a[6..] == b[6..] + LockSuffix() <==> a == b + LockSuffix()
  {
    assert a == CmdPart() + a[6..] && b == CmdPart() + b[6..];
    assert (CmdPart() + b[6..]) + LockSuffix() == CmdPart() + (b[6..] + LockSuffix());
  }

  lemma AppendInjective(a: string, b: string, s: string)
    ensures a + s == b + s <==> a == b
  {
    assert a == (a + s)[..|a + s| - |s|];
    assert b == (b + s)[..|b + s| - |s|];
  }

  function OwnFiles(name: string): set<FileId> {
    {Tmp(name), Ret(name), Lck(name)}
  }

  lemma NamesOfOwnFiles(a: string, b: string)
    requires CmdPart() <= a && CmdPart() <= b && a != b
    ensures BaseName(Tmp(a)) != BaseName(Tmp(b)) && BaseName(Ret(a)) != BaseName(Ret(b))
    ensures BaseName(Lck(a)) != BaseName(Lck(b))
    ensures BaseName(Tmp(a)) != BaseName(Ret(b)) && BaseName(Tmp(a)) != BaseName(Lck(b))
    ensures BaseName(Ret(a)) == BaseName(Lck(b)) <==> a == b + LockSuffix()
  {
    RestDetermines(a, b);
    SuffixOf(TmpPart(), a[6..]);
    SuffixOf(TmpPart(), b[6..]);
    SuffixOf(RetPart(), a[6..]);
    SuffixOf(RetPart(), b[6..]);
    SuffixOf(RetPart(), a[6..] + LockSuffix());
    SuffixOf(RetPart(), b[6..] + LockSuffix());
    assert BaseName(Lck(a)) == RetPart() + (a[6..] + LockSuffix());
    assert BaseName(Lck(b)) == RetPart() + (b[6..] + LockSuffix());
    AppendInjective(a[6..], b[6..], LockSuffix());
    assert TmpPart()[0] == '_' && RetPart()[0] == 'a';
  }

  /** For two different commands the six files are six different names exactly
      when neither command's name is the other's with the lock suffix: then the
      answer to the one is the lock of the other. */
  lemma SixDistinctFiles(a: string, b: string)
    requires CmdPart() <= a && CmdPart() <= b && a != b
    ensures Compatible(a, b) <==>
            (forall x, y :: x in OwnFiles(a) && y in OwnFiles(b) ==> BaseName(x) != BaseName(y))
  {
    hide BaseName;
    hide LockSuffix;
    hide CmdPart;
    NamesOfOwnFiles(a, b);
    NamesOfOwnFiles(b, a);
    assert Ret(a) in OwnFiles(a) && Lck(a) in OwnFiles(a) && Ret(b) in OwnFiles(b) && Lck(b) in OwnFiles(b);
  }

  lemma ThreeDistinctFiles(a: string)
    requires CmdPart() <= a
    ensures BaseName(Tmp(a)) != BaseName(Ret(a)) && BaseName(Tmp(a)) != BaseName(Lck(a))
    ensures BaseName(Ret(a)) != BaseName(Lck(a))
  {
    assert BaseName(Tmp(a))[0] == '_' && BaseName(Ret(a))[0] == 'a' && BaseName(Lck(a))[0] == 'a';
    assert |BaseName(Ret(a))| != |BaseName(Lck(a))|;
  }

  /** No file the spooler makes passes for a command file. */
  lemma OwnFilesAreNoCommands(id: FileId, prefix: string)
    requires GoodPrefix(prefix) && !id.Draft? && CmdPart() <= id.name
    ensures prefix <= BaseName(id) ==> id.Cmd?
  {
    assert CmdPart()[3] == 'c' && RetPart()[3] == 'r' && TmpPart()[0] == '_' && CmdPart()[0] == 'a';
    if prefix <= BaseName(id) {
      assert BaseName(id)[3] == prefix[3] == 'c' && BaseName(id)[0] == 'a';
    }
  }

  /** Different files of the protocol are different files on disk, as long as the
      command names in use are compatible. */
  lemma DifferentFiles(x: FileId, y: FileId)
    requires !x.Draft? && !y.Draft? && x != y
    requires CmdPart() <= x.name && CmdPart() <= y.name && Compatible(x.name, y.name)
    ensures BaseName(x) != BaseName(y)
  {
    if x.Cmd? || y.Cmd? {
      assert CmdPart()[3] == 'c' && RetPart()[3] == 'r' && TmpPart()[0] == '_' && CmdPart()[0] == 'a';
    } else {
      hide BaseName;
      ThreeDistinctFiles(x.name);
      if x.name != y.name {
        NamesOfOwnFiles(x.name, y.name);
        NamesOfOwnFiles(y.name, x.name);
      }
    }
  }
}
