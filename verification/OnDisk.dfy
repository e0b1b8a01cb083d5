/** The protocol on a real directory, whose files are known by their names only.
    Two identities with the same name are one file, so commands can get into each
    other's way. Clients are safe exactly if their command names are compatible. */
module OnDisk {
  import opened Text
  import opened FileNames
  import opened Protocol
  import FileQueue

  /** The directory, and everything else that moves. The files of the state are
      not used: what is there is what the directory holds. */
  datatype Disk = Disk(files: map<string, string>, state: State)

  function Ids(names: set<string>): (ids: set<FileId>)
    ensures forall id :: id in ids <==> !id.Draft? && id.name in names
  {
    (set n | n in names :: Cmd(n)) + (set n | n in names :: Tmp(n))
    + (set n | n in names :: Ret(n)) + (set n | n in names :: Lck(n))
  }

  function Names(d: Disk): set<string> {
    d.state.clients.Keys
  }

  /** What a look at the directory shows of the commands' files. */
  function View(d: Disk): State {
    d.state.(files := map id | id in Ids(Names(d)) && BaseName(id) in d.files :: d.files[BaseName(id)])
  }

  /** The file that a step makes, changes or removes. */
  function Target(s: State, st: Step): Option<FileId>
    requires Enabled(s, st)
  {
    match st
    case Delete => Some(Cmd(s.pc.name))
    case Respond(_) => Some(Tmp(s.pc.name))
    case Write => Some(Tmp(s.pc.name))
    case OpenRet => Some(Ret(s.pc.name))
    case Copy => Some(Ret(s.pc.name))
    case UnlinkTmp => Some(Tmp(s.pc.name))
    case MakeLock => Some(Lck(s.pc.name))
    case Clear(n, answer) => Some(if answer then Ret(n) else Lck(n))
    case Submit(n, _) => Some(Cmd(n))
    case _ => None
  }

  /** A draft is a file of its own, under a name that is none of a command. */
  ghost predicate Allowed(d: Disk, st: Step) {
    && Enabled(View(d), st)
    && (st.MakeDraft? ==> !(CmdPart() <= st.path) && forall id :: id in Ids(Names(d)) ==> BaseName(id) != st.path)
  }

  /** Every command file is that of a client: a file that somebody left behind
      under such a name makes its name one of the command names in use. */
  ghost predicate Owned(d: Disk) {
    forall p :: p in d.files && CmdPart() <= p ==> p in Names(d)
  }

  /** The directory after a step that takes it for s and would leave it as t. */
  function Effect(files: map<string, string>, s: State, t: State, st: Step): map<string, string>
    requires Enabled(s, st)
  {
    if st.MakeDraft? then files[st.path := ""]
    else match Target(s, st)
      case None => files
      case Some(id) =>
        if id in t.files then files[BaseName(id) := t.files[id]] else files - {BaseName(id)}
  }

  function DiskDo(d: Disk, st: Step): Disk
    requires Enabled(View(d), st)
  {
    Disk(Effect(d.files, View(d), Do(View(d), st), st), Do(View(d), st).(files := map[]))
  }

  ghost predicate IsDiskRun(disks: seq<Disk>, steps: seq<Step>) {
    && |disks| == |steps| + 1 && Init(View(disks[0])) && disks[0].state.files == map[] && Owned(disks[0])
    && forall i :: 0 <= i < |steps| ==> Allowed(disks[i], steps[i]) && disks[i + 1] == DiskDo(disks[i], steps[i])
  }

  ghost predicate Commands(names: set<string>) {
    forall n :: n in names ==> CmdPart() <= n
  }

  ghost predicate AllCompatible(names: set<string>) {
    forall a, b :: a in names && b in names && a != b ==> Compatible(a, b)
  }

  // ------------------------------------------------ the disk follows the model

  /** A step touches no identity but its target. */
  lemma OnlyTheTarget(s: State, st: Step, id: FileId)
    requires Enabled(s, st) && Target(s, st) != Some(id)
    ensures id in Do(s, st).files <==> id in s.files
    ensures id in s.files ==> Do(s, st).files[id] == s.files[id]
  {
    if IsWork(st) {
      WorkTouchesTarget(s, st, id);
    } else {
      OthersTouchTarget(s, st, id);
    }
    hide Do;
    hide Enabled;
    hide Target;
  }

  lemma WorkTouchesTarget(s: State, st: Step, id: FileId)
    requires Enabled(s, st) && IsWork(st) && Target(s, st) != Some(id)
    ensures id in Do(s, st).files <==> id in s.files
    ensures id in s.files ==> Do(s, st).files[id] == s.files[id]
  {
    hide Enabled;
    hide Announce;
    hide CommandNames;
    hide PendingNames;
  }

  lemma OthersTouchTarget(s: State, st: Step, id: FileId)
    requires Enabled(s, st) && !IsWork(st) && Target(s, st) != Some(id)
    ensures id in Do(s, st).files <==> id in s.files
    ensures id in s.files ==> Do(s, st).files[id] == s.files[id]
  {
    hide Enabled;
    hide Announce;
    hide CommandNames;
    hide PendingNames;
  }

  lemma TargetIsKnown(s: State, st: Step)
    requires Inv(s) && Enabled(s, st)
    ensures Do(s, st).clients.Keys == s.clients.Keys
    ensures Target(s, st).Some? ==> !Target(s, st).value.Draft? && Target(s, st).value.name in s.clients.Keys
  {
    HistoryStep(s, st, "");
    WorkIs(st);
    if IsWork(st) {
      WorkIsBusy(s, st);
      InvIs(s);
      Busy(s);
    }
    hide Do;
    hide Inv;
    hide IsWork;
  }

  lemma ViewHas(d: Disk, id: FileId)
    ensures id in View(d).files <==> id in Ids(Names(d)) && BaseName(id) in d.files
    ensures id in View(d).files ==> View(d).files[id] == d.files[BaseName(id)]
    ensures View(d).clients == d.state.clients
  {
    hide BaseName;
    hide Ids;
  }

  lemma DiskDoParts(d: Disk, st: Step)
    requires Enabled(View(d), st)
    ensures View(DiskDo(d, st)).(files := map[]) == Do(View(d), st).(files := map[])
    ensures DiskDo(d, st).files == Effect(d.files, View(d), Do(View(d), st), st)
  {
    hide Do;
    hide Enabled;
    hide Effect;
  }

  lemma NamesDiffer(names: set<string>, x: FileId, y: FileId)
    requires Commands(names) && AllCompatible(names) && x in Ids(names) && y in Ids(names) && x != y
    ensures BaseName(x) != BaseName(y)
  {
    hide Compatible;
    hide BaseName;
    hide CmdPart;
    hide LockSuffix;
    if x.name == y.name {
      NotItsOwnLock(x.name);
    }
    DifferentFiles(x, y);
  }

  lemma NotItsOwnLock(n: string)
    ensures Compatible(n, n)
  {
    assert |n + LockSuffix()| != |n|;
  }

  /** One file of the directory, with the target at its place. */
  lemma EffectOn(files: map<string, string>, s: State, t: State, st: Step, p: string)
    requires Enabled(s, st)
    requires st.MakeDraft? ==> p != st.path
    requires Target(s, st).Some? ==> BaseName(Target(s, st).value) != p
    ensures p in Effect(files, s, t, st) <==> p in files
    ensures p in files ==> Effect(files, s, t, st)[p] == files[p]
  {
    hide BaseName;
    hide Target;
    hide Enabled;
  }

  lemma EffectAtTarget(files: map<string, string>, s: State, t: State, st: Step, id: FileId)
    requires Enabled(s, st) && Target(s, st) == Some(id)
    ensures BaseName(id) in Effect(files, s, t, st) <==> id in t.files
    ensures id in t.files ==> Effect(files, s, t, st)[BaseName(id)] == t.files[id]
  {
    hide BaseName;
  }

  /** With compatible names every file keeps its identity in a step. */
  lemma FileFollows(d: Disk, st: Step, id: FileId)
    requires Commands(Names(d)) && AllCompatible(Names(d)) && Inv(View(d)) && Allowed(d, st)
    ensures var t, v := Do(View(d), st), View(DiskDo(d, st));
            && (id in v.files <==> id in t.files)
            && (id in v.files ==> v.files[id] == t.files[id])
  {
    hide *;
    AllowedIs(d, st);
    var s, e := View(d), DiskDo(d, st);
    var t := Do(s, st);
    TargetIsKnown(s, st);
    DiskDoParts(d, st);
    ViewHas(d, id);
    ViewHas(e, id);
    SameNames(d, st);
    if Target(s, st) == Some(id) {
      EffectAtTarget(d.files, s, t, st, id);
    } else {
      OnlyTheTarget(s, st, id);
      if id in Ids(Names(d)) {
        if Target(s, st).Some? {
          NamesDiffer(Names(d), id, Target(s, st).value);
        }
        EffectOn(d.files, s, t, st, BaseName(id));
      }
    }
  }

  lemma AllowedIs(d: Disk, st: Step)
    ensures Allowed(d, st) <==>
      && Enabled(View(d), st)
      && (st.MakeDraft? ==> !(CmdPart() <= st.path) && forall id :: id in Ids(Names(d)) ==> BaseName(id) != st.path)
  {
  }

  lemma SameNames(d: Disk, st: Step)
    requires Enabled(View(d), st)
    ensures View(d).clients.Keys == Names(d)
    ensures Names(DiskDo(d, st)) == Do(View(d), st).clients.Keys
  {
    hide Do;
    hide Enabled;
  }

  lemma SameState(s: State, t: State)
    requires s.(files := map[]) == t.(files := map[]) && s.files == t.files
    ensures s == t
  {
  }

  lemma StepFollows(d: Disk, st: Step)
    requires Commands(Names(d)) && AllCompatible(Names(d)) && Inv(View(d)) && Allowed(d, st)
    ensures View(DiskDo(d, st)) == Do(View(d), st) && Names(DiskDo(d, st)) == Names(d)
  {
    hide *;
    AllowedIs(d, st);
    DiskDoParts(d, st);
    SameNames(d, st);
    TargetIsKnown(View(d), st);
    var t, v := Do(View(d), st), View(DiskDo(d, st));
    forall id: FileId ensures (id in v.files <==> id in t.files) && (id in v.files ==> v.files[id] == t.files[id]) {
      FileFollows(d, st, id);
    }
    assert v.files == t.files;
    SameState(v, t);
  }

  // ------------------------------------------------- no command is overlooked

  lemma EffectOwned(d: Disk, st: Step, t: State)
    requires Owned(d) && Allowed(d, st)
    requires forall n :: Cmd(n) in t.files ==> Cmd(n) in View(d).files || IsSubmit(st, n) == 1
    ensures forall p :: p in Effect(d.files, View(d), t, st) && CmdPart() <= p ==> p in Names(d)
  {
    NoCommandNames();
    forall n ensures BaseName(Cmd(n)) == n && (Cmd(n) in View(d).files ==> n in Names(d)) {
      CmdName(n);
      ViewHas(d, Cmd(n));
    }
    hide BaseName;
    hide View;
    hide Ids;
  }

  lemma NoCommandNames()
    ensures forall n :: !(CmdPart() <= BaseName(Tmp(n))) && !(CmdPart() <= BaseName(Ret(n)))
    ensures forall n :: !(CmdPart() <= BaseName(Lck(n)))
  {
    forall n
      ensures !(CmdPart() <= BaseName(Tmp(n))) && !(CmdPart() <= BaseName(Ret(n))) && !(CmdPart() <= BaseName(Lck(n)))
    {
      assert CmdPart()[3] == 'c' && RetPart()[3] == 'r' && TmpPart()[0] == '_' && CmdPart()[0] == 'a';
    }
  }

  /** In every run each command file there is has a client, so that scans and
      events, which show the commands of clients, overlook none. */
  lemma {:induction false} DiskStaysOwned(disks: seq<Disk>, steps: seq<Step>, i: nat)
    requires IsDiskRun(disks, steps) && i < |disks|
    ensures Owned(disks[i]) && Names(disks[i]) == Names(disks[0])
  {
    hide *;
    DiskRunStarts(disks, steps);
    if i > 0 {
      DiskStaysOwned(disks, steps, i - 1);
      DiskRunStep(disks, steps, i - 1);
      StepStaysOwned(disks[i - 1], steps[i - 1]);
    }
  }

  lemma StepStaysOwned(d: Disk, st: Step)
    requires Owned(d) && Allowed(d, st) && Enabled(View(d), st)
    ensures Owned(DiskDo(d, st)) && Names(DiskDo(d, st)) == Names(d)
  {
    hide *;
    var t := Do(View(d), st);
    SameNames(d, st);
    HistoryStep(View(d), st, "");
    DiskDoParts(d, st);
    forall n ensures Cmd(n) in t.files ==> Cmd(n) in View(d).files || IsSubmit(st, n) == 1 {
      NewCommandIsSubmitted(View(d), st, n);
    }
    EffectOwned(d, st, t);
    OwnedIs(DiskDo(d, st));
  }

  lemma NewCommandIsSubmitted(s: State, st: Step, n: string)
    requires Enabled(s, st)
    ensures Cmd(n) in Do(s, st).files ==> Cmd(n) in s.files || IsSubmit(st, n) == 1
  {
    hide Enabled;
    hide Announce;
    hide CommandNames;
    hide PendingNames;
  }

  lemma OwnedIs(d: Disk)
    ensures Owned(d) <==> forall p :: p in d.files && CmdPart() <= p ==> p in Names(d)
  {
  }

  function Views(disks: seq<Disk>): (states: seq<State>)
    ensures |states| == |disks| && forall i :: 0 <= i < |disks| ==> states[i] == View(disks[i])
  {
    seq(|disks|, i requires 0 <= i < |disks| => View(disks[i]))
  }

  lemma DiskRunStep(disks: seq<Disk>, steps: seq<Step>, i: nat)
    requires IsDiskRun(disks, steps) && i < |steps|
    ensures |disks| == |steps| + 1 && Allowed(disks[i], steps[i]) && Enabled(View(disks[i]), steps[i])
    ensures disks[i + 1] == DiskDo(disks[i], steps[i])
  {
    hide Enabled;
    hide View;
    hide DiskDo;
  }

  lemma {:induction false} DiskFollows(disks: seq<Disk>, steps: seq<Step>, i: nat)
    requires IsDiskRun(disks, steps) && i < |disks|
    requires Commands(Names(disks[0])) && AllCompatible(Names(disks[0]))
    ensures Inv(View(disks[i])) && Names(disks[i]) == Names(disks[0])
    ensures i > 0 ==> View(disks[i]) == Do(View(disks[i - 1]), steps[i - 1])
  {
    hide *;
    DiskRunStarts(disks, steps);
    if i == 0 {
      InitInv(View(disks[0]));
    } else {
      DiskFollows(disks, steps, i - 1);
      DiskRunStep(disks, steps, i - 1);
      StepFollows(disks[i - 1], steps[i - 1]);
      StepKeepsInv(View(disks[i - 1]), steps[i - 1]);
    }
  }

  lemma DiskRunStarts(disks: seq<Disk>, steps: seq<Step>)
    requires IsDiskRun(disks, steps)
    ensures |disks| == |steps| + 1 && Init(View(disks[0])) && Owned(disks[0])
  {
  }

  /** With compatible names a run on the disk is a run of the model: identities
      and names come to the same. */
  lemma DiskRefinesModel(disks: seq<Disk>, steps: seq<Step>)
    requires IsDiskRun(disks, steps) && Commands(Names(disks[0])) && AllCompatible(Names(disks[0]))
    ensures IsRun(Views(disks), steps)
  {
    hide *;
    DiskRunStarts(disks, steps);
    forall i | 0 <= i < |steps|
      ensures Enabled(View(disks[i]), steps[i]) && View(disks[i + 1]) == Do(View(disks[i]), steps[i])
    {
      DiskRunStep(disks, steps, i);
      DiskFollows(disks, steps, i + 1);
    }
    IsRunIs(Views(disks), steps);
  }

  lemma IsRunIs(states: seq<State>, steps: seq<Step>)
    ensures IsRun(states, steps) <==>
      && |states| == |steps| + 1 && Init(states[0])
      && forall i :: 0 <= i < |steps| ==> Enabled(states[i], steps[i]) && states[i + 1] == Do(states[i], steps[i])
  {
    hide Init;
    hide Enabled;
    hide Do;
  }

  // ------------------------------------------------------------ what clients read

  predicate Produced(d: Disk, n: string, cmd: string, text: string) {
    n in d.state.produced && d.state.produced[n] == (cmd, text)
  }

  /** A waiting client that sees its lock finds the whole answer to its command;
      what a client reads and has read is that answer. */
  predicate Safe(d: Disk, n: string)
    requires n in Names(d)
  {
    match d.state.clients[n]
    case Ready => true
    case Waiting(cmd) =>
      BaseName(Lck(n)) in d.files ==>
        BaseName(Ret(n)) in d.files && Produced(d, n, cmd, d.files[BaseName(Ret(n))])
    case Reading(cmd, got) =>
      && BaseName(Ret(n)) in d.files && Produced(d, n, cmd, d.files[BaseName(Ret(n))])
      && got <= d.files[BaseName(Ret(n))]
    case Done(cmd, got) => Produced(d, n, cmd, got)
  }

  /** In every run on the disk, by any interleaving, clients with compatible
      command names read their own answers. */
  lemma ClientsReadFromDisk(disks: seq<Disk>, steps: seq<Step>, i: nat, n: string)
    requires IsDiskRun(disks, steps) && Commands(Names(disks[0])) && AllCompatible(Names(disks[0]))
    requires i < |disks| && n in Names(disks[0])
    ensures n in Names(disks[i]) && Safe(disks[i], n)
  {
    hide *;
    var d := disks[i];
    DiskFollows(disks, steps, i);
    DiskRefinesModel(disks, steps);
    ViewHas(d, Lck(n));
    NamesAre(d);
    ClientsReadTheirOwnAnswer(Views(disks), steps, i, n);
    SafeInView(d, n);
  }

  lemma NamesAre(d: Disk)
    ensures Names(d) == d.state.clients.Keys
  {
  }

  lemma SafeInView(d: Disk, n: string)
    requires n in Names(d) && n in View(d).clients
    requires var s := View(d);
      match s.clients[n]
      case Ready => true
      case Waiting(cmd) => Lck(n) in s.files ==> Ret(n) in s.files && ProducedIs(s, n, cmd, s.files[Ret(n)])
      case Reading(cmd, got) =>
        Ret(n) in s.files && ProducedIs(s, n, cmd, s.files[Ret(n)]) && got <= s.files[Ret(n)]
      case Done(cmd, got) => ProducedIs(s, n, cmd, got)
    ensures Safe(d, n)
  {
    ViewHas(d, Lck(n));
    ViewHas(d, Ret(n));
    ViewParts(d);
    hide View;
    hide BaseName;
  }

  // ------------------------------------------------- names that are not compatible

  /** A state in which the directory is still scanned. */
  function Scene(files: map<string, string>, clients: map<string, Client>, queue: seq<string>, entered: seq<string>,
                 left: seq<string>, pc: Pc, produced: map<string, (string, string)>, recent: set<string>): Disk {
    Disk(files, State(map[], queue, entered, left, [], FileQueue.DirScan, false, pc, clients, produced, recent, {}))
  }

  ghost predicate Leads(d: Disk, st: Step, e: Disk) {
    Allowed(d, st) && e == DiskDo(d, st)
  }

  lemma CmdName(n: string)
    ensures BaseName(Cmd(n)) == n
  {
  }

  lemma OwnIds(names: set<string>, n: string)
    requires n in names
    ensures Tmp(n) in Ids(names)
  {
  }

  lemma CommandSeen(d: Disk, n: string)
    requires n in Names(d)
    ensures Cmd(n) in View(d).files <==> BaseName(Cmd(n)) in d.files
  {
    ViewHas(d, Cmd(n));
    hide View;
    hide BaseName;
  }

  lemma PendingAre(s: State, b: string)
    requires b in s.clients && forall n :: n in s.clients ==> (Cmd(n) in s.files <==> n == b)
    ensures PendingNames(s) == {b}
  {
  }

  lemma OneCommandPends(d: Disk, b: string)
    requires b in Names(d) && d.files == map[b := ""]
    ensures Cmd(b) in View(d).files && PendingNames(View(d)) == {b}
  {
    hide *;
    forall n | n in Names(d) ensures Cmd(n) in View(d).files <==> n == b {
      CmdName(n);
      CommandSeen(d, n);
    }
    NamesAre(d);
    ViewHas(d, Cmd(b));
    PendingAre(View(d), b);
  }

  /** All but the files of a view. */
  lemma ViewParts(d: Disk)
    ensures View(d) == d.state.(files := View(d).files)
  {
    hide BaseName;
    hide Ids;
  }

  lemma LeadsIs(d: Disk, st: Step, e: Disk)
    ensures Leads(d, st, e) <==>
      && Allowed(d, st)
      && e.files == Effect(d.files, View(d), Do(View(d), st), st)
      && e.state == Do(View(d), st).(files := map[])
  {
    hide View;
    hide Do;
    hide Enabled;
    hide Effect;
  }

  lemma ScanBegins(c: map<string, Client>, b: string)
    requires b in c
    ensures Leads(Scene(map[b := ""], c, [], [], [], Idle, map[], {}), ScanBegin,
                  Scene(map[b := ""], c, [], [], [], Scanning({}, {b}), map[], {}))
  {
    var d := Scene(map[b := ""], c, [], [], [], Idle, map[], {});
    OneCommandPends(d, b);
    ViewParts(d);
    LeadsIs(d, ScanBegin, Scene(map[b := ""], c, [], [], [], Scanning({}, {b}), map[], {}));
    hide View;
    hide Leads;
    hide PendingNames;
    hide BaseName;
  }

  lemma ScanEntryDoes(s: State, b: string)
    requires s.pc.Scanning? && Cmd(b) in s.files && b !in s.pc.seen
    ensures Enabled(s, ScanEntry(b)) && Target(s, ScanEntry(b)) == None
    ensures Do(s, ScanEntry(b))
         == s.(pc := Scanning(s.pc.seen + {b}, s.pc.must), queue := s.queue + [b], entered := s.entered + [b])
  {
  }

  /** A step that touches no file. */
  lemma QuietLeads(d: Disk, st: Step, e: Disk)
    requires Enabled(View(d), st) && !st.MakeDraft? && Target(View(d), st) == None
    requires e.files == d.files && e.state == Do(View(d), st).(files := map[])
    ensures Leads(d, st, e)
  {
    hide View;
    hide Do;
    hide Enabled;
    hide Target;
  }

  lemma ScanFinds(c: map<string, Client>, b: string)
    requires b in c
    ensures Leads(Scene(map[b := ""], c, [], [], [], Scanning({}, {b}), map[], {}), ScanEntry(b),
                  Scene(map[b := ""], c, [b], [b], [], Scanning({b}, {b}), map[], {}))
  {
    var d := Scene(map[b := ""], c, [], [], [], Scanning({}, {b}), map[], {});
    var e := Scene(map[b := ""], c, [b], [b], [], Scanning({b}, {b}), map[], {});
    SceneNames(map[b := ""], c, [], [], [], Scanning({}, {b}), map[], {});
    ViewParts(d);
    assert {} + {b} == {b} && [] + [b] == [b];
    assert e.state == d.state.(pc := Scanning({b}, {b}), queue := [b], entered := [b]);
    assert d.state.pc == Scanning({}, {b}) && d.state.queue == [] && d.state.entered == [] && e.files == d.files;
    assert d.state.files == map[];
    hide *;
    OneCommandPends(d, b);
    ScanEntryDoes(View(d), b);
    QuietLeads(d, ScanEntry(b), e);
  }

  lemma ScanEnds(c: map<string, Client>, b: string)
    requires b in c
    ensures Leads(Scene(map[b := ""], c, [b], [b], [], Scanning({b}, {b}), map[], {}), ScanEnd,
                  Scene(map[b := ""], c, [b], [b], [], Idle, map[], {}))
  {
    hide PendingNames;
    hide BaseName;
  }

  lemma CommandIsTaken(c: map<string, Client>, b: string)
    requires b in c
    ensures Leads(Scene(map[b := ""], c, [b], [b], [], Idle, map[], {}), Dequeue,
                  Scene(map[b := ""], c, [], [b], [b], Loading(b), map[], {}))
  {
    var d := Scene(map[b := ""], c, [b], [b], [], Idle, map[], {});
    LeadsIs(d, Dequeue, Scene(map[b := ""], c, [], [b], [b], Loading(b), map[], {}));
    ViewParts(d);
    hide View;
    hide Leads;
    hide Ids;
    assert [b][1..] == [] && [] + [b] == [b];
  }

  lemma LoadDoes(s: State, b: string)
    requires s.pc == Loading(b) && Cmd(b) in s.files
    ensures Enabled(s, Load) && Do(s, Load) == s.(pc := Loaded(b, s.files[Cmd(b)])) && Target(s, Load) == None
  {
  }

  lemma CommandIsRead(c: map<string, Client>, b: string)
    requires b in c
    ensures Leads(Scene(map[b := ""], c, [], [b], [b], Loading(b), map[], {}), Load,
                  Scene(map[b := ""], c, [], [b], [b], Loaded(b, ""), map[], {}))
  {
    var d := Scene(map[b := ""], c, [], [b], [b], Loading(b), map[], {});
    LeadsIs(d, Load, Scene(map[b := ""], c, [], [b], [b], Loaded(b, ""), map[], {}));
    ViewParts(d);
    OneCommandPends(d, b);
    CmdName(b);
    ViewHas(d, Cmd(b));
    LoadDoes(View(d), b);
    hide View;
    hide Leads;
    hide BaseName;
    hide Ids;
    hide PendingNames;
    hide Do;
    hide Enabled;
    hide Target;
  }

  lemma CommandIsDeleted(c: map<string, Client>, b: string)
    requires b in c
    ensures Leads(Scene(map[b := ""], c, [], [b], [b], Loaded(b, ""), map[], {}), Delete,
                  Scene(map[], c, [], [b], [b], Serving(b, ""), map[], {}))
  {
    var d := Scene(map[b := ""], c, [], [b], [b], Loaded(b, ""), map[], {});
    LeadsIs(d, Delete, Scene(map[], c, [], [b], [b], Serving(b, ""), map[], {}));
    ViewParts(d);
    CmdName(b);
    hide View;
    hide Leads;
    hide BaseName;
    assert map[b := ""] - {b} == map[];
  }

  lemma AnswerBegins(c: map<string, Client>, b: string, tmp: string)
    requires b in c && tmp == BaseName(Tmp(b))
    ensures Leads(Scene(map[], c, [], [b], [b], Serving(b, ""), map[], {}), Respond(""),
                  Scene(map[tmp := ""], c, [], [b], [b], Writing(b, "", ""), map[b := ("", "")], {}))
  {
    var d := Scene(map[], c, [], [b], [b], Serving(b, ""), map[], {});
    ViewParts(d);
    LeadsIs(d, Respond(""), Scene(map[tmp := ""], c, [], [b], [b], Writing(b, "", ""), map[b := ("", "")], {}));
    hide View;
    hide Leads;
    hide BaseName;
    assert map[][b := ("", "")] == map[b := ("", "")];
    assert map[][tmp := ""] == map[tmp := ""];
  }

  lemma CloseTmpDoes(s: State, b: string)
    requires s.pc == Writing(b, "", "") && !s.watch && Tmp(b) in s.files && s.files[Tmp(b)] == ""
    ensures Enabled(s, CloseTmp) && Do(s, CloseTmp) == s.(pc := Written(b, "", "")) && Target(s, CloseTmp) == None
  {
  }

  lemma AnswerIsWritten(c: map<string, Client>, b: string, tmp: string)
    requires b in c && tmp == BaseName(Tmp(b))
    ensures Leads(Scene(map[tmp := ""], c, [], [b], [b], Writing(b, "", ""), map[b := ("", "")], {}), CloseTmp,
                  Scene(map[tmp := ""], c, [], [b], [b], Written(b, "", ""), map[b := ("", "")], {}))
  {
    var d := Scene(map[tmp := ""], c, [], [b], [b], Writing(b, "", ""), map[b := ("", "")], {});
    ViewParts(d);
    ViewHas(d, Tmp(b));
    OwnIds(Names(d), b);
    LeadsIs(d, CloseTmp, Scene(map[tmp := ""], c, [], [b], [b], Written(b, "", ""), map[b := ("", "")], {}));
    CloseTmpDoes(View(d), b);
    hide View;
    hide Leads;
    hide BaseName;
    hide Do;
    hide Enabled;
    hide Target;
    hide Ids;
  }

  lemma OtherSubmits(c: map<string, Client>, a: string, b: string, tmp: string)
    requires a in c && c[a] == Ready && tmp != BaseName(Ret(a)) && tmp != BaseName(Lck(a))
    ensures Leads(Scene(map[tmp := ""], c, [], [b], [b], Written(b, "", ""), map[b := ("", "")], {}), Submit(a, ""),
                  Scene(map[tmp := "", a := ""], c[a := Waiting("")], [], [b], [b], Written(b, "", ""),
                        map[b := ("", "")], {a}))
  {
    var d := Scene(map[tmp := ""], c, [], [b], [b], Written(b, "", ""), map[b := ("", "")], {});
    var e := Scene(map[tmp := "", a := ""], c[a := Waiting("")], [], [b], [b], Written(b, "", ""),
                   map[b := ("", "")], {a});
    CmdName(a);
    ViewHas(d, Ret(a));
    ViewHas(d, Lck(a));
    ViewParts(d);
    LeadsIs(d, Submit(a, ""), e);
    hide BaseName;
    hide View;
    hide Leads;
    hide Ids;
    assert {} + {a} == {a};
    assert map[tmp := ""][a := ""] == map[tmp := "", a := ""];
  }

  lemma AnswerIsOpened(c: map<string, Client>, f: map<string, string>, a: string, b: string, ret: string)
    requires b in c && ret == BaseName(Ret(b))
    ensures Leads(Scene(f, c, [], [b], [b], Written(b, "", ""), map[b := ("", "")], {a}), OpenRet,
                  Scene(f[ret := ""], c, [], [b], [b], Copying(b, "", ""), map[b := ("", "")], {a}))
  {
  }

  lemma Extend(disks: seq<Disk>, steps: seq<Step>, st: Step, e: Disk) returns (ds: seq<Disk>, ss: seq<Step>)
    requires IsDiskRun(disks, steps) && |disks| == |steps| + 1 && Leads(disks[|steps|], st, e)
    ensures IsDiskRun(ds, ss) && |ds| == |ss| + 1 && ds[|ss|] == e && ds[0] == disks[0]
  {
    ds, ss := disks + [e], steps + [st];
    hide View;
    hide DiskDo;
    hide Allowed;
    assert forall i :: 0 <= i < |disks| ==> ds[i] == disks[i];
    assert forall i :: 0 <= i < |steps| ==> ss[i] == steps[i];
  }

  function OneWaits(names: set<string>, b: string): (c: map<string, Client>)
    ensures c.Keys == names && forall n :: n in names ==> c[n] == if n == b then Waiting("") else Ready
  {
    map n | n in names :: if n == b then Waiting("") else Ready
  }

  lemma Start(names: set<string>, b: string) returns (disks: seq<Disk>, steps: seq<Step>)
    requires b in names && Commands(names)
    ensures IsDiskRun(disks, steps) && steps == [] && |disks| == 1
    ensures disks[0] == Scene(map[b := ""], OneWaits(names, b), [], [], [], Idle, map[], {})
  {
    hide *;
    var d := Scene(map[b := ""], OneWaits(names, b), [], [], [], Idle, map[], {});
    disks, steps := [d], [];
    OneWaitsAtFirst(names, b);
    OneFileIsOwned(d, b);
    SceneNames(map[b := ""], OneWaits(names, b), [], [], [], Idle, map[], {});
    NoStepsYet(d);
  }

  lemma OneFileIsOwned(d: Disk, b: string)
    ensures d.files == map[b := ""] && b in Names(d) ==> Owned(d)
  {
  }

  lemma NoStepsYet(d: Disk)
    requires Init(View(d)) && d.state.files == map[] && Owned(d)
    ensures IsDiskRun([d], [])
  {
    hide Init;
    hide View;
    hide Owned;
  }

  lemma FirstView(names: set<string>, b: string, n: string)
    requires b in names && Commands(names)
    ensures var s := View(Scene(map[b := ""], OneWaits(names, b), [], [], [], Idle, map[], {}));
            && (Cmd(n) in s.files <==> n == b)
            && (n == b ==> s.files[Cmd(n)] == "" && Ret(n) !in s.files && Lck(n) !in s.files)
  {
    hide *;
    var d := Scene(map[b := ""], OneWaits(names, b), [], [], [], Idle, map[], {});
    SceneNames(map[b := ""], OneWaits(names, b), [], [], [], Idle, map[], {});
    CommandIs(names, b);
    OwnNames(b);
    CmdName(n);
    ViewHas(d, Cmd(n));
    ViewHas(d, Ret(n));
    ViewHas(d, Lck(n));
  }

  lemma CommandIs(names: set<string>, n: string)
    requires Commands(names) && n in names
    ensures CmdPart() <= n
  {
  }

  lemma OneWaitsAtFirst(names: set<string>, b: string)
    requires b in names && Commands(names)
    ensures var d := Scene(map[b := ""], OneWaits(names, b), [], [], [], Idle, map[], {});
            Init(View(d)) && d.state.files == map[]
  {
    var d := Scene(map[b := ""], OneWaits(names, b), [], [], [], Idle, map[], {});
    ViewParts(d);
    hide View;
    hide OneWaits;
    hide Commands;
    forall n ensures (Cmd(n) in View(d).files <==> n == b)
      && (n == b ==> View(d).files[Cmd(n)] == "" && Ret(n) !in View(d).files && Lck(n) !in View(d).files)
    {
      FirstView(names, b, n);
    }
  }

  lemma OwnNames(n: string)
    requires CmdPart() <= n
    ensures BaseName(Ret(n)) != n && BaseName(Lck(n)) != n
  {
    assert CmdPart()[3] == 'c' && RetPart()[3] == 'r';
  }

  /** Of two names that are not compatible, the answer to the one is taken for
      the lock of the other, which has no answer yet. */
  lemma LockBeforeAnswer(names: set<string>, a: string, b: string) returns (disks: seq<Disk>, steps: seq<Step>)
    requires Commands(names) && a in names && b in names && b == a + LockSuffix()
    ensures IsDiskRun(disks, steps) && |disks| == |steps| + 1 && Names(disks[0]) == names
    ensures var d := disks[|steps|];
            && a in Names(d) && d.state.clients[a] == Waiting("")
            && BaseName(Lck(a)) in d.files && BaseName(Ret(a)) !in d.files
  {
    hide *;
    var c := OneWaits(names, b);
    var none: map<string, string> := map[];
    var tmp := BaseName(Tmp(b));
    var made := map[b := ("", "")];
    var f := map[tmp := "", a := ""];
    Colliding(names, a, b);
    disks, steps := Start(names, b);
    SceneNames(map[b := ""], c, [], [], [], Idle, map[], {});
    ScanBegins(c, b);
    disks, steps := Extend(disks, steps, ScanBegin, Scene(map[b := ""], c, [], [], [], Scanning({}, {b}), map[], {}));
    ScanFinds(c, b);
    disks, steps := Extend(disks, steps, ScanEntry(b),
                           Scene(map[b := ""], c, [b], [b], [], Scanning({b}, {b}), map[], {}));
    ScanEnds(c, b);
    disks, steps := Extend(disks, steps, ScanEnd, Scene(map[b := ""], c, [b], [b], [], Idle, map[], {}));
    CommandIsTaken(c, b);
    CommandIsRead(c, b);
    CommandIsDeleted(c, b);
    disks, steps := Extend(disks, steps, Dequeue, Scene(map[b := ""], c, [], [b], [b], Loading(b), map[], {}));
    disks, steps := Extend(disks, steps, Load, Scene(map[b := ""], c, [], [b], [b], Loaded(b, ""), map[], {}));
    disks, steps := Extend(disks, steps, Delete, Scene(map[], c, [], [b], [b], Serving(b, ""), map[], {}));
    AnswerBegins(c, b, tmp);
    AnswerIsWritten(c, b, tmp);
    disks, steps := Extend(disks, steps, Respond(""),
                           Scene(map[tmp := ""], c, [], [b], [b], Writing(b, "", ""), made, {}));
    disks, steps := Extend(disks, steps, CloseTmp,
                           Scene(map[tmp := ""], c, [], [b], [b], Written(b, "", ""), made, {}));
    OtherSubmits(c, a, b, tmp);
    var c' := c[a := Waiting("")];
    disks, steps := Extend(disks, steps, Submit(a, ""), Scene(f, c', [], [b], [b], Written(b, "", ""), made, {a}));
    AnswerIsOpened(c', f, a, b, BaseName(Ret(b)));
    disks, steps := Extend(disks, steps, OpenRet,
                           Scene(f[BaseName(Ret(b)) := ""], c', [], [b], [b], Copying(b, "", ""), made, {a}));
    SceneNames(f[BaseName(Ret(b)) := ""], c', [], [b], [b], Copying(b, "", ""), made, {a});
  }

  lemma SceneNames(files: map<string, string>, clients: map<string, Client>, queue: seq<string>, entered: seq<string>,
                   left: seq<string>, pc: Pc, produced: map<string, (string, string)>, recent: set<string>)
    ensures var d := Scene(files, clients, queue, entered, left, pc, produced, recent);
            d.files == files && d.state.clients == clients && Names(d) == clients.Keys
  {
  }

  lemma Colliding(names: set<string>, a: string, b: string)
    requires Commands(names) && a in names && b in names && b == a + LockSuffix()
    ensures a != b && BaseName(Ret(b)) == BaseName(Lck(a)) && BaseName(Ret(a)) != BaseName(Lck(a))
    ensures BaseName(Tmp(b)) != BaseName(Ret(a)) && BaseName(Tmp(b)) != BaseName(Lck(a)) && BaseName(Ret(a)) != a
  {
    assert |b| != |a|;
    NamesOfOwnFiles(b, a);
    ThreeDistinctFiles(a);
    OwnNames(a);
  }

  /** The clients of a set of command names are safe in every run on the disk
      exactly if the names are compatible. */
  lemma ClientsAreSafeIff(names: set<string>)
    requires Commands(names)
    ensures AllCompatible(names) <==> AlwaysSafe(names)
  {
    if AllCompatible(names) {
      forall disks, steps, i: nat, n | IsRunOf(names, disks, steps) && i < |disks| && n in names
        ensures n in Names(disks[i]) && Safe(disks[i], n)
      {
        ClientsReadFromDisk(disks, steps, i, n);
      }
    } else {
      var a, b :| a in names && b in names && b == a + LockSuffix();
      var disks, steps := LockBeforeAnswer(names, a, b);
      assert IsRunOf(names, disks, steps) && !Safe(disks[|steps|], a);
    }
  }

  ghost predicate IsRunOf(names: set<string>, disks: seq<Disk>, steps: seq<Step>) {
    IsDiskRun(disks, steps) && Names(disks[0]) == names
  }

  ghost predicate AlwaysSafe(names: set<string>) {
    forall disks, steps, i: nat, n | IsRunOf(names, disks, steps) && i < |disks| && n in names ::
      n in Names(disks[i]) && Safe(disks[i], n)
  }
}
