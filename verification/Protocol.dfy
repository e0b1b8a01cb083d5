/** The spooler and its clients on one directory, as interleaved steps: scanning
    and events (src/filequeue.cc), reading and deleting a command
    (src/txtcollector.cc), and the files of the answer (src/main.cc). */
module Protocol {
  import opened FileNames
  import FileQueue
  type ScanType = FileQueue.ScanType

  /** A client that uses one command name, as README asks: it clears the old
      answer and lock, renames its finished command in, waits for the lock and
      then reads the answer, in pieces. */
  datatype Client = Ready | Waiting(cmd: string) | Reading(cmd: string, got: string) | Done(cmd: string, got: string)

  datatype Pc =
    | Idle
    | Scanning(seen: set<string>, must: set<string>)
    | Loading(name: string)
    | Loaded(name: string, cmd: string)
    | Serving(name: string, cmd: string)
    | Writing(name: string, cmd: string, text: string)
    | Written(name: string, cmd: string, text: string)
    | Copying(name: string, cmd: string, text: string)
    | Copied(name: string, cmd: string, text: string)
    | Unlinked(name: string, cmd: string, text: string)

  datatype State = State(
    files: map<FileId, string>,                // of the four kinds; drafts show up in events only
    queue: seq<string>,
    entered: seq<string>, left: seq<string>,   // history of the queue
    events: seq<FileId>,                       // announced by the kernel, not yet read
    mode: ScanType, watch: bool,
    pc: Pc,
    clients: map<string, Client>,
    produced: map<string, (string, string)>,   // history: last command and answer of a name
    recent: set<string>,                       // history: renamed in since the last scan began
    lost: set<string>                          // history: recent when the watch was installed
  )

  datatype Step =
    | ScanBegin | ScanEntry(n: string) | ScanEnd | Watch | Deliver(k: nat) | Dequeue
    | Load | Delete | Respond(text: string) | Write | CloseTmp | OpenRet | Copy | CloseRet | UnlinkTmp | MakeLock
    | Clear(n: string, answer: bool) | Submit(n: string, cmd: string) | MakeDraft(path: string)
    | StartRead(n: string) | ReadMore(n: string) | FinishRead(n: string)

  predicate Works(pc: Pc, n: string) {
    !pc.Idle? && !pc.Scanning? && pc.name == n
  }

  function Announce(s: State, id: FileId): seq<FileId> {
    if s.watch then s.events + [id] else s.events
  }

  /** What the prefix test lets through of a run of events. */
  function CommandNames(evs: seq<FileId>): seq<string> {
    if evs == [] then []
    else (if evs[0].Cmd? then [evs[0].name] else []) + CommandNames(evs[1..])
  }

  function PendingNames(s: State): set<string> {
    set n | n in s.clients && Cmd(n) in s.files
  }

  predicate Enabled(s: State, st: Step) {
    match st
    case ScanBegin => s.pc.Idle? && s.queue == [] && s.mode == FileQueue.DirScan
    case ScanEntry(n) => s.pc.Scanning? && Cmd(n) in s.files && n !in s.pc.seen
    case ScanEnd => s.pc.Scanning? && s.pc.must <= s.pc.seen
    case Watch => s.pc.Idle? && s.queue == [] && s.mode == FileQueue.EventScan && !s.watch
    case Deliver(k) => s.pc.Idle? && s.queue == [] && s.mode == FileQueue.EventScan && s.watch && 0 < k <= |s.events|
    case Dequeue => s.pc.Idle? && s.queue != []
    case Load => s.pc.Loading? && Cmd(s.pc.name) in s.files
    case Delete => s.pc.Loaded?
    case Respond(_) => s.pc.Serving?
    case Write => s.pc.Writing? && Tmp(s.pc.name) in s.files && |s.files[Tmp(s.pc.name)]| < |s.pc.text|
    case CloseTmp => s.pc.Writing? && Tmp(s.pc.name) in s.files && |s.files[Tmp(s.pc.name)]| == |s.pc.text|
    case OpenRet => s.pc.Written?
    case Copy =>
      && s.pc.Copying? && Tmp(s.pc.name) in s.files && Ret(s.pc.name) in s.files
      && |s.files[Ret(s.pc.name)]| < |s.files[Tmp(s.pc.name)]|
    case CloseRet =>
      && s.pc.Copying? && Tmp(s.pc.name) in s.files && Ret(s.pc.name) in s.files
      && |s.files[Ret(s.pc.name)]| == |s.files[Tmp(s.pc.name)]|
    case UnlinkTmp => s.pc.Copied?
    case MakeLock => s.pc.Unlinked?
    case Clear(n, _) => n in s.clients && (s.clients[n].Ready? || s.clients[n].Done?)
    case Submit(n, _) =>
      n in s.clients && (s.clients[n].Ready? || s.clients[n].Done?) && Ret(n) !in s.files && Lck(n) !in s.files
    case MakeDraft(_) => true
    case StartRead(n) => n in s.clients && s.clients[n].Waiting? && Lck(n) in s.files
    case ReadMore(n) =>
      n in s.clients && s.clients[n].Reading? && Ret(n) in s.files && |s.clients[n].got| < |s.files[Ret(n)]|
    case FinishRead(n) =>
      n in s.clients && s.clients[n].Reading? && Ret(n) in s.files && |s.clients[n].got| == |s.files[Ret(n)]|
  }

  function Do(s: State, st: Step): State
    requires Enabled(s, st)
  {
    match st
    case ScanBegin => s.(pc := Scanning({}, PendingNames(s)), recent := {})
    case ScanEntry(n) =>
      s.(pc := Scanning(s.pc.seen + {n}, s.pc.must), queue := s.queue + [n], entered := s.entered + [n])
    case ScanEnd => s.(pc := Idle, mode := if s.pc.seen == {} then FileQueue.EventScan else FileQueue.DirScan)
    case Watch => s.(watch := true, lost := s.recent)
    case Deliver(k) =>
      var names := CommandNames(s.events[..k]);
      s.(queue := s.queue + names, entered := s.entered + names, events := s.events[k..])
    case Dequeue => s.(pc := Loading(s.queue[0]), queue := s.queue[1..], left := s.left + [s.queue[0]])
    case Load => s.(pc := Loaded(s.pc.name, s.files[Cmd(s.pc.name)]))
    case Delete => s.(pc := Serving(s.pc.name, s.pc.cmd), files := s.files - {Cmd(s.pc.name)})
    case Respond(text) =>
      s.(pc := Writing(s.pc.name, s.pc.cmd, text), files := s.files[Tmp(s.pc.name) := ""],
         produced := s.produced[s.pc.name := (s.pc.cmd, text)])
    case Write =>
      var id := Tmp(s.pc.name);
      s.(files := s.files[id := s.files[id] + [s.pc.text[|s.files[id]|]]])
    case CloseTmp => s.(pc := Written(s.pc.name, s.pc.cmd, s.pc.text), events := Announce(s, Tmp(s.pc.name)))
    case OpenRet => s.(pc := Copying(s.pc.name, s.pc.cmd, s.pc.text), files := s.files[Ret(s.pc.name) := ""])
    case Copy =>
      var id := Ret(s.pc.name);
      s.(files := s.files[id := s.files[id] + [s.files[Tmp(s.pc.name)][|s.files[id]|]]])
    case CloseRet => s.(pc := Copied(s.pc.name, s.pc.cmd, s.pc.text), events := Announce(s, Ret(s.pc.name)))
    case UnlinkTmp => s.(pc := Unlinked(s.pc.name, s.pc.cmd, s.pc.text), files := s.files - {Tmp(s.pc.name)})
    case MakeLock => s.(pc := Idle, files := s.files[Lck(s.pc.name) := ""], events := Announce(s, Lck(s.pc.name)))
    case Clear(n, answer) => s.(files := s.files - {if answer then Ret(n) else Lck(n)})
    case Submit(n, cmd) =>
      s.(clients := s.clients[n := Waiting(cmd)], files := s.files[Cmd(n) := cmd],
         events := Announce(s, Cmd(n)), recent := s.recent + {n})
    case MakeDraft(path) => s.(events := Announce(s, Draft(path)))
    case StartRead(n) => s.(clients := s.clients[n := Reading(s.clients[n].cmd, "")])
    case ReadMore(n) =>
      var c := s.clients[n];
      s.(clients := s.clients[n := Reading(c.cmd, c.got + [s.files[Ret(n)][|c.got|]])])
    case FinishRead(n) => s.(clients := s.clients[n := Done(s.clients[n].cmd, s.clients[n].got)])
  }

  /** At the start some clients may already have renamed their command in, and
      old answers and locks may lie around. */
  ghost predicate Init(s: State) {
    && s.queue == [] && s.entered == [] && s.left == [] && s.events == []
    && s.mode == FileQueue.DirScan && !s.watch && s.pc == Idle && s.recent == {} && s.lost == {}
    && (forall n :: Cmd(n) in s.files ==> n in s.clients)
    && forall n :: n in s.clients ==>
         || (s.clients[n].Ready? && Cmd(n) !in s.files)
         || (s.clients[n].Waiting? && Cmd(n) in s.files && s.files[Cmd(n)] == s.clients[n].cmd
             && Ret(n) !in s.files && Lck(n) !in s.files)
  }

  /** A run of the whole system. */
  ghost predicate IsRun(states: seq<State>, steps: seq<Step>) {
    && |states| == |steps| + 1 && Init(states[0])
    && forall i :: 0 <= i < |steps| ==> Enabled(states[i], steps[i]) && states[i + 1] == Do(states[i], steps[i])
  }

  // ------------------------------------------------------------- invariant

  /** Nothing of the command is under way. */
  predicate Untouched(s: State, n: string) {
    n !in s.queue && Cmd(n) !in s.events && !Works(s.pc, n)
  }

  predicate ProducedIs(s: State, n: string, cmd: string, text: string) {
    n in s.produced && s.produced[n] == (cmd, text)
  }

  /** The answer to cmd is complete and locked. */
  predicate Answered(s: State, n: string, cmd: string) {
    && Untouched(s, n) && Cmd(n) !in s.files
    && Lck(n) in s.files && Ret(n) in s.files && ProducedIs(s, n, cmd, s.files[Ret(n)])
  }

  predicate HasFile(s: State, id: FileId, text: string) {
    id in s.files && s.files[id] == text
  }

  predicate HasPart(s: State, id: FileId, text: string) {
    id in s.files && s.files[id] <= text
  }

  /** What holds of the files of a command while the spooler works on it. */
  predicate WorkOk(s: State, n: string, cmd: string)
    requires Works(s.pc, n)
  {
    && n !in s.queue && Cmd(n) !in s.events && Lck(n) !in s.files
    && (Cmd(n) in s.files <==> s.pc.Loading? || s.pc.Loaded?)
    && (Ret(n) in s.files <==> s.pc.Copying? || s.pc.Copied? || s.pc.Unlinked?)
    && match s.pc
       case Loading(_) => s.files[Cmd(n)] == cmd
       case Loaded(_, c) => c == cmd
       case Serving(_, c) => c == cmd
       case Writing(_, c, text) => c == cmd && ProducedIs(s, n, cmd, text) && HasPart(s, Tmp(n), text)
       case Written(_, c, text) => c == cmd && ProducedIs(s, n, cmd, text) && HasFile(s, Tmp(n), text)
       case Copying(_, c, text) =>
         c == cmd && ProducedIs(s, n, cmd, text) && HasFile(s, Tmp(n), text) && HasPart(s, Ret(n), text)
       case Copied(_, c, text) => c == cmd && ProducedIs(s, n, cmd, text) && HasFile(s, Ret(n), text)
       case Unlinked(_, c, text) => c == cmd && ProducedIs(s, n, cmd, text) && HasFile(s, Ret(n), text)
  }

  predicate ClientOk(s: State, n: string)
    requires n in s.clients
  {
    match s.clients[n]
    case Ready => Untouched(s, n) && Cmd(n) !in s.files
    case Done(cmd, got) => Untouched(s, n) && Cmd(n) !in s.files && ProducedIs(s, n, cmd, got)
    case Reading(cmd, got) => Answered(s, n, cmd) && got <= s.files[Ret(n)]
    case Waiting(cmd) =>
      if Works(s.pc, n) then WorkOk(s, n, cmd)
      else if Cmd(n) in s.files then
        && s.files[Cmd(n)] == cmd && Lck(n) !in s.files && Ret(n) !in s.files
        && !(n in s.queue && Cmd(n) in s.events)
      else Answered(s, n, cmd)
  }

  predicate ClientsOk(s: State) {
    forall n :: n in s.clients ==> ClientOk(s, n)
  }

  predicate NoRepeat(q: seq<string>) {
    forall i, j :: 0 <= i < j < |q| ==> q[i] != q[j]
  }

  predicate NoRepeatedCommand(evs: seq<FileId>) {
    forall i, j :: 0 <= i < j < |evs| && evs[i].Cmd? ==> evs[i] != evs[j]
  }

  /** No command is queued or announced twice, and all of them have a client. */
  ghost predicate QueueOk(s: State) {
    && NoRepeat(s.queue) && NoRepeatedCommand(s.events)
    && (forall n :: n in s.queue ==> n in s.clients)
    && (forall n :: Cmd(n) in s.events ==> n in s.clients)
    && (forall n :: Cmd(n) in s.files ==> n in s.clients)
    && (!s.pc.Idle? && !s.pc.Scanning? ==> s.pc.name in s.clients)
    && s.entered == s.left + s.queue
  }

  /** In which of the three stages of watching the directory the spooler is, and
      which pending commands it knows of. */
  ghost predicate ScanOk(s: State) {
    && (s.watch ==> s.mode == FileQueue.EventScan)
    && (!s.watch ==> s.events == [] && s.lost == {})
    && (s.mode == FileQueue.EventScan ==> !s.pc.Scanning?)
    && (s.pc.Scanning? ==>
          && (forall n :: n in s.queue <==> n in s.pc.seen)
          && (forall n :: n in s.clients && Cmd(n) in s.files ==> n in s.queue || n in s.pc.must || n in s.recent)
          && (forall n :: n in s.recent ==> n in s.clients && Cmd(n) in s.files))
    && (s.mode == FileQueue.EventScan && !s.watch ==>
          && s.queue == [] && s.pc == Idle
          && forall n :: n in s.clients ==> (Cmd(n) in s.files <==> n in s.recent))
    && (s.watch ==>
          forall n :: n in s.clients ==>
            (n in s.lost <==> Cmd(n) in s.files && Untouched(s, n)))
  }

  ghost predicate Inv(s: State) {
    ClientsOk(s) && QueueOk(s) && ScanOk(s)
  }

  lemma InitInv(s: State)
    requires Init(s)
    ensures Inv(s)
  {
  }

  /** All that ClientOk and the bookkeeping look at, for one name. */
  predicate SameFor(s: State, t: State, n: string) {
    && n in s.clients && n in t.clients && s.clients[n] == t.clients[n]
    && (forall id :: id in {Cmd(n), Tmp(n), Ret(n), Lck(n)} ==>
          (id in s.files <==> id in t.files) && (id in s.files ==> s.files[id] == t.files[id]))
    && (n in s.queue <==> n in t.queue) && (Cmd(n) in s.events <==> Cmd(n) in t.events)
    && (Works(s.pc, n) <==> Works(t.pc, n)) && (Works(s.pc, n) ==> s.pc == t.pc)
    && (n in s.produced <==> n in t.produced) && (n in s.produced ==> s.produced[n] == t.produced[n])
  }

  lemma Frame(s: State, t: State, n: string)
    requires SameFor(s, t, n) && ClientOk(s, n)
    ensures ClientOk(t, n)
  {
    assert Cmd(n) in {Cmd(n), Tmp(n), Ret(n), Lck(n)} && Tmp(n) in {Cmd(n), Tmp(n), Ret(n), Lck(n)};
    assert Ret(n) in {Cmd(n), Tmp(n), Ret(n), Lck(n)} && Lck(n) in {Cmd(n), Tmp(n), Ret(n), Lck(n)};
  }

  lemma OthersKept(s: State, t: State, n: string)
    requires ClientsOk(s) && t.clients.Keys == s.clients.Keys
    requires forall m :: m in s.clients && m != n ==> SameFor(s, t, m)
    requires n in t.clients ==> ClientOk(t, n)
    ensures ClientsOk(t)
  {
    hide ClientOk;
    hide SameFor;
    forall m | m in t.clients ensures ClientOk(t, m) {
      if m != n { Frame(s, t, m); }
    }
  }

  // ------------------------------------------------------ the spooler's steps

  lemma Busy(s: State)
    requires QueueOk(s) && !s.pc.Idle? && !s.pc.Scanning?
    ensures s.pc.name in s.clients
  {
  }

  /** A step that moves no command leaves the bookkeeping in order. */
  lemma BooksKept(s: State, t: State)
    requires QueueOk(s) && ScanOk(s)
    requires !s.pc.Idle? && !s.pc.Scanning? && !t.pc.Idle? && !t.pc.Scanning? && t.pc.name == s.pc.name
    requires t.queue == s.queue && t.entered == s.entered && t.left == s.left && t.clients.Keys == s.clients.Keys
    requires t.mode == s.mode && t.watch == s.watch && t.recent == s.recent && t.lost == s.lost
    requires forall m :: Cmd(m) in t.files <==> Cmd(m) in s.files
    requires t.events == s.events || (s.watch && exists id: FileId :: !id.Cmd? && t.events == s.events + [id])
    ensures QueueOk(t) && ScanOk(t)
  {
    hide NoRepeat;
    assert forall m :: Cmd(m) in t.events <==> Cmd(m) in s.events;
  }

  /** The steps that serve one command. */
  predicate IsWork(st: Step) {
    match st
    case Load => true
    case Delete => true
    case Respond(_) => true
    case Write => true
    case CloseTmp => true
    case OpenRet => true
    case Copy => true
    case CloseRet => true
    case UnlinkTmp => true
    case MakeLock => true
    case _ => false
  }

  /** Serving one command changes nothing for another. */
  lemma WorkSparesOthers(s: State, st: Step, m: string)
    requires Enabled(s, st) && IsWork(st) && m in s.clients && m != s.pc.name
    ensures SameFor(s, Do(s, st), m)
  {
  }

  lemma LoadOwn(s: State)
    requires Enabled(s, Load) && s.pc.name in s.clients && ClientOk(s, s.pc.name)
    ensures ClientOk(Do(s, Load), s.pc.name)
  {
    hide Announce;
  }

  lemma DeleteOwn(s: State)
    requires Enabled(s, Delete) && s.pc.name in s.clients && ClientOk(s, s.pc.name)
    ensures ClientOk(Do(s, Delete), s.pc.name)
  {
    hide Announce;
  }

  lemma RespondOwn(s: State, text: string)
    requires Enabled(s, Respond(text)) && s.pc.name in s.clients && ClientOk(s, s.pc.name)
    ensures ClientOk(Do(s, Respond(text)), s.pc.name)
  {
    hide Announce;
  }

  lemma WriteOwn(s: State)
    requires Enabled(s, Write) && s.pc.name in s.clients && ClientOk(s, s.pc.name)
    ensures ClientOk(Do(s, Write), s.pc.name)
  {
    hide Announce;
  }

  lemma CloseTmpOwn(s: State)
    requires Enabled(s, CloseTmp) && s.pc.name in s.clients && ClientOk(s, s.pc.name)
    ensures ClientOk(Do(s, CloseTmp), s.pc.name)
  {
  }

  lemma OpenRetOwn(s: State)
    requires Enabled(s, OpenRet) && s.pc.name in s.clients && ClientOk(s, s.pc.name)
    ensures ClientOk(Do(s, OpenRet), s.pc.name)
  {
    hide Announce;
  }

  lemma CopyOwn(s: State)
    requires Enabled(s, Copy) && s.pc.name in s.clients && ClientOk(s, s.pc.name)
    ensures ClientOk(Do(s, Copy), s.pc.name)
  {
    hide Announce;
  }

  lemma CloseRetOwn(s: State)
    requires Enabled(s, CloseRet) && s.pc.name in s.clients && ClientOk(s, s.pc.name)
    ensures ClientOk(Do(s, CloseRet), s.pc.name)
  {
  }

  lemma UnlinkTmpOwn(s: State)
    requires Enabled(s, UnlinkTmp) && s.pc.name in s.clients && ClientOk(s, s.pc.name)
    ensures ClientOk(Do(s, UnlinkTmp), s.pc.name)
  {
    hide Announce;
  }

  lemma MakeLockOwn(s: State)
    requires Enabled(s, MakeLock) && s.pc.name in s.clients && ClientOk(s, s.pc.name)
    ensures ClientOk(Do(s, MakeLock), s.pc.name)
  {
  }

  lemma WorkOwn(s: State, st: Step)
    requires Enabled(s, st) && IsWork(st) && s.pc.name in s.clients && ClientOk(s, s.pc.name)
    ensures ClientOk(Do(s, st), s.pc.name)
  {
    hide ClientOk;
    hide Enabled;
    hide Do;
    match st
    case Load => LoadOwn(s);
    case Delete => DeleteOwn(s);
    case Respond(text) => RespondOwn(s, text);
    case Write => WriteOwn(s);
    case CloseTmp => CloseTmpOwn(s);
    case OpenRet => OpenRetOwn(s);
    case Copy => CopyOwn(s);
    case CloseRet => CloseRetOwn(s);
    case UnlinkTmp => UnlinkTmpOwn(s);
    case MakeLock => MakeLockOwn(s);
  }

  lemma WorkBooks(s: State, st: Step)
    requires Inv(s) && Enabled(s, st) && IsWork(st)
    ensures QueueOk(Do(s, st)) && ScanOk(Do(s, st))
  {
    if st == Delete {
      DeleteBooks(s);
    } else if st == MakeLock {
      MakeLockBooks(s);
    } else {
      hide QueueOk;
      hide ScanOk;
      hide ClientsOk;
      BooksKept(s, Do(s, st));
    }
  }

  lemma DeleteBooks(s: State)
    requires Inv(s) && Enabled(s, Delete)
    ensures QueueOk(Do(s, Delete)) && ScanOk(Do(s, Delete))
  {
    assert ClientOk(s, s.pc.name);
    hide ClientsOk;
    hide NoRepeat;
    hide NoRepeatedCommand;
  }

  lemma MakeLockBooks(s: State)
    requires Inv(s) && Enabled(s, MakeLock)
    ensures QueueOk(Do(s, MakeLock)) && ScanOk(Do(s, MakeLock))
  {
    assert ClientOk(s, s.pc.name);
    hide ClientsOk;
    hide NoRepeat;
  }

  lemma ClientOkIs(s: State, n: string)
    requires ClientsOk(s) && n in s.clients
    ensures ClientOk(s, n)
  {
  }

  lemma WorkIsBusy(s: State, st: Step)
    requires Enabled(s, st) && IsWork(st)
    ensures !s.pc.Idle? && !s.pc.Scanning?
  {
  }

  lemma WorkKeeps(s: State, st: Step)
    requires Inv(s) && Enabled(s, st) && IsWork(st)
    ensures Inv(Do(s, st))
  {
    hide *;
    var t := Do(s, st);
    InvIs(s);
    InvIs(t);
    WorkIsBusy(s, st);
    Busy(s);
    ClientOkIs(s, s.pc.name);
    WorkOwn(s, st);
    WorkBooks(s, st);
    WorkKeepsClients(s, st);
    forall m | m in s.clients && m != s.pc.name ensures SameFor(s, t, m) {
      WorkSparesOthers(s, st, m);
    }
    OthersKept(s, t, s.pc.name);
  }

  lemma WorkKeepsClients(s: State, st: Step)
    requires Enabled(s, st) && IsWork(st)
    ensures Do(s, st).clients == s.clients
  {
  }

  // ------------------------------------------------------------- scanning

  lemma ScanBeginKeeps(s: State)
    requires Inv(s) && Enabled(s, ScanBegin)
    ensures Inv(Do(s, ScanBegin))
  {
    var t := Do(s, ScanBegin);
    forall m | m in s.clients ensures ClientOk(t, m) { Frame(s, t, m); }
  }

  lemma ScanEntryKeeps(s: State, n: string)
    requires Inv(s) && Enabled(s, ScanEntry(n))
    ensures Inv(Do(s, ScanEntry(n)))
  {
    var t := Do(s, ScanEntry(n));
    assert ClientOk(s, n);
    OthersKept(s, t, n);
  }

  lemma ScanEndKeeps(s: State)
    requires Inv(s) && Enabled(s, ScanEnd)
    ensures Inv(Do(s, ScanEnd))
  {
    var t := Do(s, ScanEnd);
    forall m | m in s.clients ensures ClientOk(t, m) { Frame(s, t, m); }
    assert |s.queue| > 0 ==> s.queue[0] in s.queue;
  }

  lemma WatchKeeps(s: State)
    requires Inv(s) && Enabled(s, Watch)
    ensures Inv(Do(s, Watch))
  {
    var t := Do(s, Watch);
    forall m | m in s.clients ensures ClientOk(t, m) { Frame(s, t, m); }
  }

  lemma {:induction false} CommandNamesAre(evs: seq<FileId>)
    requires NoRepeatedCommand(evs)
    ensures forall n :: n in CommandNames(evs) <==> Cmd(n) in evs
    ensures NoRepeat(CommandNames(evs))
  {
    if evs != [] {
      var rest := evs[1..];
      CommandNamesAre(rest);
      assert evs == [evs[0]] + rest;
      assert evs[0].Cmd? ==> evs[0] !in rest;
    }
  }

  /** Splitting the announced events loses none and doubles none. */
  lemma EventsSplit(evs: seq<FileId>, k: nat)
    requires k <= |evs| && NoRepeatedCommand(evs)
    ensures forall m :: Cmd(m) in evs <==> Cmd(m) in evs[..k] || Cmd(m) in evs[k..]
    ensures forall m :: !(Cmd(m) in evs[..k] && Cmd(m) in evs[k..])
    ensures NoRepeatedCommand(evs[..k]) && NoRepeatedCommand(evs[k..])
  {
    assert evs == evs[..k] + evs[k..];
  }

  function Delivered(s: State, k: nat): State
    requires k <= |s.events|
  {
    var names := CommandNames(s.events[..k]);
    s.(queue := names, entered := s.entered + names, events := s.events[k..])
  }

  lemma DeliverQueue(s: State, k: nat)
    requires QueueOk(s) && s.queue == [] && k <= |s.events|
    ensures var t := Delivered(s, k);
            && QueueOk(t)
            && (forall m :: Cmd(m) in s.events <==> m in t.queue || Cmd(m) in t.events)
            && (forall m :: !(m in t.queue && Cmd(m) in t.events))
  {
    EventsSplit(s.events, k);
    CommandNamesAre(s.events[..k]);
    hide CommandNames;
    hide NoRepeat;
    hide NoRepeatedCommand;
    assert s.left + [] == s.left;
  }

  lemma DeliverKeeps(s: State, k: nat)
    requires Inv(s) && Enabled(s, Deliver(k))
    ensures Inv(Do(s, Deliver(k)))
  {
    hide QueueOk;
    hide ClientsOk;
    hide ScanOk;
    hide CommandNames;
    var names := CommandNames(s.events[..k]);
    assert [] + names == names;
    assert Do(s, Deliver(k)) == Delivered(s, k);
    DeliverQueue(s, k);
    DeliverClients(s, Delivered(s, k));
    DeliverScan(s, Delivered(s, k));
  }

  lemma DeliverScan(s: State, t: State)
    requires ScanOk(s) && s.queue == [] && s.watch && s.pc.Idle?
    requires t == s.(queue := t.queue, entered := t.entered, events := t.events)
    requires forall m :: Cmd(m) in s.events <==> m in t.queue || Cmd(m) in t.events
    ensures ScanOk(t)
  {
  }

  /** Commands move from the announced ones to the queue. */
  lemma DeliverClients(s: State, t: State)
    requires ClientsOk(s) && s.queue == []
    requires t == s.(queue := t.queue, entered := t.entered, events := t.events)
    requires forall m :: Cmd(m) in s.events <==> m in t.queue || Cmd(m) in t.events
    requires forall m :: !(m in t.queue && Cmd(m) in t.events)
    ensures ClientsOk(t)
  {
    forall m | m in s.clients ensures ClientOk(t, m) {
      assert ClientOk(s, m);
    }
  }

  lemma DequeueKeeps(s: State)
    requires Inv(s) && Enabled(s, Dequeue)
    ensures Inv(Do(s, Dequeue))
  {
    hide *;
    InvIs(s);
    DequeueClients(s);
    DequeueBooks(s);
    InvIs(s);
    InvIs(Do(s, Dequeue));
  }

  lemma InvIs(s: State)
    ensures Inv(s) <==> ClientsOk(s) && QueueOk(s) && ScanOk(s)
  {
  }

  lemma DequeueClients(s: State)
    requires Inv(s) && Enabled(s, Dequeue)
    ensures ClientsOk(Do(s, Dequeue))
  {
    var n, t := s.queue[0], Do(s, Dequeue);
    assert s.queue == [n] + t.queue;
    assert ClientOk(s, n);
    hide ScanOk;
    hide NoRepeatedCommand;
    OthersKept(s, t, n);
  }

  lemma DequeueBooks(s: State)
    requires QueueOk(s) && ScanOk(s) && Enabled(s, Dequeue)
    ensures QueueOk(Do(s, Dequeue)) && ScanOk(Do(s, Dequeue))
  {
    var n, t := s.queue[0], Do(s, Dequeue);
    assert s.queue == [n] + t.queue;
    assert t.entered == t.left + t.queue;
  }

  // ------------------------------------------------------------ the clients

  lemma ClearKeeps(s: State, n: string, answer: bool)
    requires Inv(s) && Enabled(s, Clear(n, answer))
    ensures Inv(Do(s, Clear(n, answer)))
  {
    var t := Do(s, Clear(n, answer));
    assert ClientOk(s, n);
    OthersKept(s, t, n);
  }

  lemma SubmitClients(s: State, n: string, cmd: string)
    requires ClientsOk(s) && Enabled(s, Submit(n, cmd))
    ensures Untouched(s, n) && Cmd(n) !in s.files
    ensures ClientsOk(Do(s, Submit(n, cmd)))
  {
    var t := Do(s, Submit(n, cmd));
    assert ClientOk(s, n);
    assert ClientOk(t, n);
    hide ClientOk;
    OthersKept(s, t, n);
  }

  lemma SubmitQueue(s: State, n: string, cmd: string)
    requires QueueOk(s) && Enabled(s, Submit(n, cmd)) && Untouched(s, n)
    ensures QueueOk(Do(s, Submit(n, cmd)))
  {
  }

  lemma SubmitScan(s: State, n: string, cmd: string)
    requires ScanOk(s) && Enabled(s, Submit(n, cmd)) && Untouched(s, n) && Cmd(n) !in s.files
    ensures ScanOk(Do(s, Submit(n, cmd)))
  {
  }

  lemma SubmitKeeps(s: State, n: string, cmd: string)
    requires Inv(s) && Enabled(s, Submit(n, cmd))
    ensures Inv(Do(s, Submit(n, cmd)))
  {
    hide ClientsOk;
    hide QueueOk;
    hide ScanOk;
    hide Do;
    SubmitClients(s, n, cmd);
    SubmitQueue(s, n, cmd);
    SubmitScan(s, n, cmd);
  }

  lemma MakeDraftKeeps(s: State, path: string)
    requires Inv(s) && Enabled(s, MakeDraft(path))
    ensures Inv(Do(s, MakeDraft(path)))
  {
    var t := Do(s, MakeDraft(path));
    forall m | m in s.clients ensures ClientOk(t, m) { Frame(s, t, m); }
  }

  lemma PrefixGrows(got: string, whole: string)
    requires got <= whole
    ensures |got| < |whole| ==> got + [whole[|got|]] <= whole
    ensures |got| == |whole| ==> got == whole
  {
  }

  lemma ReadingKeeps(s: State, st: Step)
    requires Inv(s) && Enabled(s, st) && (st.StartRead? || st.ReadMore? || st.FinishRead?)
    ensures Inv(Do(s, st))
  {
    hide *;
    InvIs(s);
    ReadingClients(s, st);
    ReadingBooks(s, st);
    InvIs(Do(s, st));
  }

  lemma ReadingClients(s: State, st: Step)
    requires ClientsOk(s) && Enabled(s, st) && (st.StartRead? || st.ReadMore? || st.FinishRead?)
    ensures ClientsOk(Do(s, st))
  {
    var t := Do(s, st);
    assert ClientOk(s, st.n);
    if !st.StartRead? {
      PrefixGrows(s.clients[st.n].got, s.files[Ret(st.n)]);
    }
    hide Announce;
    hide CommandNames;
    hide PendingNames;
    OthersKept(s, t, st.n);
  }

  lemma ReadingBooks(s: State, st: Step)
    requires QueueOk(s) && ScanOk(s) && Enabled(s, st) && (st.StartRead? || st.ReadMore? || st.FinishRead?)
    ensures QueueOk(Do(s, st)) && ScanOk(Do(s, st))
  {
    hide QueueOk;
    hide ScanOk;
    var clients := Do(s, st).clients;
    assert Do(s, st) == s.(clients := clients) && clients.Keys == s.clients.Keys;
    hide Do;
    BooksNameClients(s, clients);
  }

  /** The bookkeeping depends on who the clients are, not on what they do. */
  lemma BooksNameClients(s: State, clients: map<string, Client>)
    requires QueueOk(s) && ScanOk(s) && clients.Keys == s.clients.Keys
    ensures QueueOk(s.(clients := clients)) && ScanOk(s.(clients := clients))
  {
    hide NoRepeat;
    hide NoRepeatedCommand;
    assert forall n :: n in clients <==> n in s.clients;
  }

  lemma WorkIs(st: Step)
    ensures IsWork(st) <==>
      || st == Load || st == Delete || st.Respond? || st == Write || st == CloseTmp || st == OpenRet
      || st == Copy || st == CloseRet || st == UnlinkTmp || st == MakeLock
  {
  }

  lemma StepKeepsInv(s: State, st: Step)
    requires Inv(s) && Enabled(s, st)
    ensures Inv(Do(s, st))
  {
    hide *;
    WorkIs(st);
    match st
    case ScanBegin => ScanBeginKeeps(s);
    case ScanEntry(n) => ScanEntryKeeps(s, n);
    case ScanEnd => ScanEndKeeps(s);
    case Watch => WatchKeeps(s);
    case Deliver(k) => DeliverKeeps(s, k);
    case Dequeue => DequeueKeeps(s);
    case Load => WorkKeeps(s, st);
    case Delete => WorkKeeps(s, st);
    case Respond(_) => WorkKeeps(s, st);
    case Write => WorkKeeps(s, st);
    case CloseTmp => WorkKeeps(s, st);
    case OpenRet => WorkKeeps(s, st);
    case Copy => WorkKeeps(s, st);
    case CloseRet => WorkKeeps(s, st);
    case UnlinkTmp => WorkKeeps(s, st);
    case MakeLock => WorkKeeps(s, st);
    case Clear(n, answer) => ClearKeeps(s, n, answer);
    case Submit(n, cmd) => SubmitKeeps(s, n, cmd);
    case MakeDraft(path) => MakeDraftKeeps(s, path);
    case StartRead(_) => ReadingKeeps(s, st);
    case ReadMore(_) => ReadingKeeps(s, st);
    case FinishRead(_) => ReadingKeeps(s, st);
  }

  lemma RunTakesStep(states: seq<State>, steps: seq<Step>, i: nat)
    requires IsRun(states, steps) && i + 1 < |states|
    ensures |steps| == |states| - 1 && Enabled(states[i], steps[i]) && states[i + 1] == Do(states[i], steps[i])
  {
    hide Enabled;
    hide Do;
    hide Init;
  }

  lemma {:induction false} RunKeepsInv(states: seq<State>, steps: seq<Step>, i: nat)
    requires IsRun(states, steps) && i < |states|
    ensures Inv(states[i])
  {
    hide Enabled;
    hide Do;
    if i == 0 {
      InitInv(states[0]);
    } else {
      RunKeepsInv(states, steps, i - 1);
      hide Inv;
      StepKeepsInv(states[i - 1], steps[i - 1]);
    }
  }

  // --------------------------------------------------------- main results

  /** In every interleaving a client that sees its lock finds the complete
      answer to its own command, and what it has read when it is done is that. */
  lemma ClientsReadTheirOwnAnswer(states: seq<State>, steps: seq<Step>, i: nat, n: string)
    requires IsRun(states, steps) && i < |states| && n in states[i].clients
    ensures var s := states[i];
      match s.clients[n]
      case Ready => true
      case Waiting(cmd) => Lck(n) in s.files ==> Ret(n) in s.files && ProducedIs(s, n, cmd, s.files[Ret(n)])
      case Reading(cmd, got) =>
        Ret(n) in s.files && ProducedIs(s, n, cmd, s.files[Ret(n)]) && got <= s.files[Ret(n)]
      case Done(cmd, got) => ProducedIs(s, n, cmd, got)
  {
    RunKeepsInv(states, steps, i);
    assert ClientOk(states[i], n);
    hide IsRun;
  }

  /** Names leave the queue in the order they entered it. */
  lemma QueueIsFifo(states: seq<State>, steps: seq<Step>, i: nat)
    requires IsRun(states, steps) && i < |states|
    ensures states[i].entered == states[i].left + states[i].queue
  {
    RunKeepsInv(states, steps, i);
    hide IsRun;
  }

  /** A command that is there but has not entered the queue. */
  function Unseen(s: State, n: string): nat {
    if Cmd(n) in s.files && n !in s.queue && !Works(s.pc, n) then 1 else 0
  }

  function IsSubmit(st: Step, n: string): nat {
    if st.Submit? && st.n == n then 1 else 0
  }

  function Submissions(steps: seq<Step>, n: string): nat {
    if steps == [] then 0 else Submissions(steps[..|steps| - 1], n) + IsSubmit(steps[|steps| - 1], n)
  }

  function Entries(q: seq<string>, n: string): nat {
    multiset(q)[n]
  }

  lemma OneEntry(q: seq<string>, n: string)
    requires NoRepeat(q)
    ensures Entries(q, n) == if n in q then 1 else 0
  {
    if n in q {
      var i :| 0 <= i < |q| && q[i] == n;
      assert q == q[..i] + [n] + q[i + 1..];
      assert n !in q[..i] && n !in q[i + 1..];
    }
  }

  lemma EntriesAppend(a: seq<string>, b: seq<string>, n: string)
    ensures Entries(a + b, n) == Entries(a, n) + Entries(b, n)
  {
  }

  lemma DequeueConserves(s: State, n: string)
    requires Inv(s) && Enabled(s, Dequeue)
    ensures Do(s, Dequeue).entered == s.entered && Unseen(Do(s, Dequeue), n) == Unseen(s, n)
  {
    assert s.queue == [s.queue[0]] + s.queue[1..];
    hide ScanOk;
    hide ClientsOk;
    hide NoRepeatedCommand;
  }

  lemma MakeLockConserves(s: State, n: string)
    requires Inv(s) && Enabled(s, MakeLock)
    ensures Do(s, MakeLock).entered == s.entered && Unseen(Do(s, MakeLock), n) == Unseen(s, n)
  {
    assert ClientOk(s, s.pc.name);
    hide ScanOk;
    hide ClientsOk;
    hide NoRepeat;
    hide NoRepeatedCommand;
  }

  lemma QuietStepConserves(s: State, st: Step, n: string)
    requires Inv(s) && Enabled(s, st)
    requires !st.ScanEntry? && !st.Deliver? && !st.Submit?
    ensures Do(s, st).entered == s.entered
    ensures Unseen(Do(s, st), n) == Unseen(s, n)
  {
    if st.Dequeue? {
      DequeueConserves(s, n);
    } else if st.MakeLock? {
      MakeLockConserves(s, n);
    } else {
      hide Inv;
      hide Announce;
      hide CommandNames;
      hide PendingNames;
    }
  }

  lemma ScanEntryConserves(s: State, m: string, n: string)
    requires Inv(s) && Enabled(s, ScanEntry(m))
    ensures var t := Do(s, ScanEntry(m)); Entries(t.entered, n) + Unseen(t, n) == Entries(s.entered, n) + Unseen(s, n)
  {
    EntriesAppend(s.entered, [m], n);
    hide ClientsOk;
    hide QueueOk;
  }

  lemma DeliveredConserves(s: State, k: nat, n: string)
    requires QueueOk(s) && ClientsOk(s) && s.queue == [] && s.pc.Idle? && k <= |s.events|
    ensures var t := Delivered(s, k); Entries(t.entered, n) + Unseen(t, n) == Entries(s.entered, n) + Unseen(s, n)
  {
    DeliverQueue(s, k);
    var t := Delivered(s, k);
    EntriesAppend(s.entered, t.queue, n);
    OneEntry(t.queue, n);
    hide CommandNames;
    hide NoRepeat;
    hide NoRepeatedCommand;
    hide Entries;
    if Cmd(n) in s.events { assert ClientOk(s, n); }
    hide ClientsOk;
    hide ClientOk;
  }

  lemma DeliverConserves(s: State, k: nat, n: string)
    requires Inv(s) && Enabled(s, Deliver(k))
    ensures var t := Do(s, Deliver(k)); Entries(t.entered, n) + Unseen(t, n) == Entries(s.entered, n) + Unseen(s, n)
  {
    DeliveredConserves(s, k, n);
    var names := CommandNames(s.events[..k]);
    assert [] + names == names;
    hide Unseen;
    hide Entries;
    hide CommandNames;
    assert Do(s, Deliver(k)) == Delivered(s, k);
  }

  lemma SubmitConserves(s: State, m: string, cmd: string, n: string)
    requires Inv(s) && Enabled(s, Submit(m, cmd))
    ensures var t := Do(s, Submit(m, cmd));
            Entries(t.entered, n) + Unseen(t, n)
            == Entries(s.entered, n) + Unseen(s, n) + IsSubmit(Submit(m, cmd), n)
  {
    assert ClientOk(s, m);
    hide ScanOk;
    hide QueueOk;
  }

  lemma StepConserves(s: State, st: Step, n: string)
    requires Inv(s) && Enabled(s, st)
    ensures Entries(Do(s, st).entered, n) + Unseen(Do(s, st), n)
         == Entries(s.entered, n) + Unseen(s, n) + IsSubmit(st, n)
  {
    hide Inv;
    hide Do;
    hide Enabled;
    hide Unseen;
    hide Entries;
    if st.ScanEntry? {
      ScanEntryConserves(s, st.n, n);
    } else if st.Deliver? {
      DeliverConserves(s, st.k, n);
    } else if st.Submit? {
      SubmitConserves(s, st.n, st.cmd, n);
    } else {
      QuietStepConserves(s, st, n);
    }
  }

  /** Every command renamed in, before the start or during the run, has entered
      the queue exactly once or is still there and has not entered it. */
  lemma {:induction false} EachCommandEntersOnce(states: seq<State>, steps: seq<Step>, i: nat, n: string)
    requires IsRun(states, steps) && i < |states|
    ensures Entries(states[i].entered, n) + Unseen(states[i], n) == Submissions(steps[..i], n) + Unseen(states[0], n)
  {
    hide Enabled;
    hide Do;
    hide Unseen;
    if i == 0 {
      assert steps[..0] == [];
    } else {
      EachCommandEntersOnce(states, steps, i - 1, n);
      RunKeepsInv(states, steps, i - 1);
      hide Inv;
      hide Entries;
      StepConserves(states[i - 1], steps[i - 1], n);
      assert steps[..i][..i - 1] == steps[..i - 1];
    }
  }

  /** Once the watch is there, a command that has not entered the queue has been
      announced and will be read, unless it is one of the lost ones; and these
      are never announced. */
  lemma UnseenIsAnnouncedOrLost(states: seq<State>, steps: seq<Step>, i: nat, n: string)
    requires IsRun(states, steps) && i < |states| && states[i].watch
    ensures Unseen(states[i], n) == 1 ==> (Cmd(n) in states[i].events <==> n !in states[i].lost)
    ensures n in states[i].clients && n in states[i].lost ==> Unseen(states[i], n) == 1
  {
    RunKeepsInv(states, steps, i);
    hide IsRun;
    hide ClientsOk;
  }

  /** Renamed in at step j, with no scan begun from then to before step i. */
  ghost predicate SinceScan(steps: seq<Step>, j: nat, i: nat, n: string) {
    j < i <= |steps| && IsSubmit(steps[j], n) == 1 && forall k :: j < k < i ==> steps[k] != ScanBegin
  }

  lemma HistoryStep(s: State, st: Step, n: string)
    requires Enabled(s, st)
    ensures n in Do(s, st).recent ==> (n in s.recent && st != ScanBegin) || IsSubmit(st, n) == 1
    ensures n in Do(s, st).lost ==> n in s.lost || (st == Watch && n in s.recent)
    ensures IsSubmit(st, n) == 1 || (n in s.recent && st != ScanBegin) ==> n in Do(s, st).recent
    ensures st == Watch ==> !s.watch && Do(s, st).watch && Do(s, st).lost == s.recent
    ensures st != Watch ==> Do(s, st).lost == s.lost
    ensures Do(s, st).clients.Keys == s.clients.Keys
    ensures IsSubmit(st, n) == 1 ==> n in s.clients && (s.clients[n].Ready? || s.clients[n].Done?)
  {
    hide CommandNames;
  }

  lemma SinceScanStep(steps: seq<Step>, j: nat, i: nat, n: string)
    requires i < |steps|
    requires (SinceScan(steps, j, i, n) && steps[i] != ScanBegin) || (j == i && IsSubmit(steps[i], n) == 1)
    ensures SinceScan(steps, j, i + 1, n)
  {
  }

  /** The recent names are those renamed in since the last scan began. */
  lemma {:induction false} RecentSinceScan(states: seq<State>, steps: seq<Step>, i: nat, n: string)
    requires IsRun(states, steps) && i < |states|
    ensures n in states[i].recent <==> exists j: nat :: SinceScan(steps, j, i, n)
  {
    hide *;
    if i == 0 {
      NothingSince(steps, n);
      NothingRecent(states, steps, n);
    } else {
      RunTakesStep(states, steps, i - 1);
      var s, st := states[i - 1], steps[i - 1];
      RecentSinceScan(states, steps, i - 1, n);
      HistoryStep(s, st, n);
      if n in states[i].recent {
        if n in s.recent && st != ScanBegin {
          var j: nat :| SinceScan(steps, j, i - 1, n);
          SinceScanStep(steps, j, i - 1, n);
        } else {
          SinceScanStep(steps, i - 1, i - 1, n);
        }
      }
      forall j: nat | SinceScan(steps, j, i, n) ensures n in states[i].recent {
        SinceScanBack(steps, j, i, n);
      }
    }
  }

  lemma NothingSince(steps: seq<Step>, n: string)
    ensures forall j: nat :: !SinceScan(steps, j, 0, n)
  {
  }

  lemma NothingRecent(states: seq<State>, steps: seq<Step>, n: string)
    requires IsRun(states, steps)
    ensures states != [] && n !in states[0].recent && n !in states[0].lost
  {
  }

  lemma SinceScanBack(steps: seq<Step>, j: nat, i: nat, n: string)
    requires i > 0 && SinceScan(steps, j, i, n)
    ensures || (j == i - 1 && IsSubmit(steps[i - 1], n) == 1)
            || (SinceScan(steps, j, i - 1, n) && steps[i - 1] != ScanBegin)
  {
  }

  /** Step k installed the watch, and n was renamed in at step j after the last
      scan before that. */
  ghost predicate InGap(steps: seq<Step>, j: nat, k: nat, n: string) {
    k < |steps| && steps[k] == Watch && SinceScan(steps, j, k, n)
  }

  /** The commands lost up to state i are exactly those renamed in after the last
      scan began and before the watch was installed. */
  lemma {:induction false} LostExactlyInTheGap(states: seq<State>, steps: seq<Step>, i: nat, n: string)
    requires IsRun(states, steps) && i < |states|
    ensures n in states[i].lost <==> exists j: nat, k: nat :: InGap(steps, j, k, n) && k < i
  {
    hide *;
    NothingRecent(states, steps, n);
    if i > 0 {
      RunTakesStep(states, steps, i - 1);
      var s, st := states[i - 1], steps[i - 1];
      LostExactlyInTheGap(states, steps, i - 1, n);
      RecentSinceScan(states, steps, i - 1, n);
      HistoryStep(s, st, n);
      if n in states[i].lost && st == Watch {
        var j: nat :| SinceScan(steps, j, i - 1, n);
        InGapIs(steps, j, i - 1, n);
      }
      forall j: nat, k: nat | InGap(steps, j, k, n) && k < i ensures n in states[i].lost {
        InGapIs(steps, j, k, n);
        if k < i - 1 {
          RunTakesStep(states, steps, k);
          HistoryStep(states[k], steps[k], n);
          ModeNeverReturns(states, steps, k + 1, i - 1);
        }
      }
    }
  }

  lemma InGapIs(steps: seq<Step>, j: nat, k: nat, n: string)
    ensures InGap(steps, j, k, n) <==> k < |steps| && steps[k] == Watch && SinceScan(steps, j, k, n)
  {
  }

  lemma UnseenWaits(s: State, n: string)
    requires Inv(s) && n in s.clients && Unseen(s, n) == 1
    ensures s.clients[n].Waiting? && Cmd(n) in s.files
  {
    assert ClientOk(s, n);
    hide QueueOk;
    hide ScanOk;
  }

  /** Such a command is there for ever and never enters the queue: in every later
      state its client waits and the name has not entered once more. */
  lemma {:induction false} GapCommandsNeverEnter(states: seq<State>, steps: seq<Step>,
                                                 i: nat, j: nat, k: nat, n: string)
    requires IsRun(states, steps) && InGap(steps, j, k, n) && k < i < |states|
    ensures Unseen(states[i], n) == 1 && Cmd(n) in states[i].files
    ensures n in states[i].clients && states[i].clients[n].Waiting?
    ensures Entries(states[i].entered, n) == Entries(states[k + 1].entered, n)
  {
    hide *;
    InGapIs(steps, j, k, n);
    LostExactlyInTheGap(states, steps, i, n);
    RunTakesStep(states, steps, k);
    HistoryStep(states[k], steps[k], n);
    ModeNeverReturns(states, steps, k + 1, i);
    LostHasClient(states, steps, i, n);
    RunKeepsInv(states, steps, i);
    UnseenIsAnnouncedOrLost(states, steps, i, n);
    UnseenWaits(states[i], n);
    if i > k + 1 {
      GapCommandsNeverEnter(states, steps, i - 1, j, k, n);
      RunKeepsInv(states, steps, i - 1);
      RunTakesStep(states, steps, i - 1);
      StepConserves(states[i - 1], steps[i - 1], n);
      SubmitOrNot(steps[i - 1], n);
      HistoryStep(states[i - 1], steps[i - 1], n);
    }
  }

  lemma SubmitOrNot(st: Step, n: string)
    ensures IsSubmit(st, n) == 0 || IsSubmit(st, n) == 1
  {
  }

  lemma {:induction false} LostHasClient(states: seq<State>, steps: seq<Step>, i: nat, n: string)
    requires IsRun(states, steps) && i < |states| && n in states[i].lost + states[i].recent
    ensures n in states[i].clients
  {
    hide *;
    NothingRecent(states, steps, n);
    if i > 0 {
      RunTakesStep(states, steps, i - 1);
      HistoryStep(states[i - 1], steps[i - 1], n);
      if n in states[i - 1].lost + states[i - 1].recent {
        LostHasClient(states, steps, i - 1, n);
      }
    }
  }

  /** Once the watch is there a command that has not entered the queue will be
      read exactly if it was not renamed in in the gap. */
  lemma AnnouncedUnlessInTheGap(states: seq<State>, steps: seq<Step>, i: nat, n: string)
    requires IsRun(states, steps) && i < |states| && states[i].watch && Unseen(states[i], n) == 1
    ensures Cmd(n) in states[i].events <==> !exists j: nat, k: nat :: InGap(steps, j, k, n) && k < i
  {
    hide *;
    UnseenIsAnnouncedOrLost(states, steps, i, n);
    LostExactlyInTheGap(states, steps, i, n);
  }

  /** One client, one command at most, and a spooler that has taken none. */
  function Quiet(n: string, pc: Pc, mode: ScanType, watch: bool, files: map<FileId, string>,
                 client: Client, recent: set<string>, lost: set<string>): State {
    State(files, [], [], [], [], mode, watch, pc, map[n := client], map[], recent, lost)
  }

  lemma EmptyScan(n: string)
    ensures var s := Quiet(n, Idle, FileQueue.DirScan, false, map[], Ready, {}, {});
            Init(s) && Enabled(s, ScanBegin)
            && Do(s, ScanBegin) == Quiet(n, Scanning({}, {}), FileQueue.DirScan, false, map[], Ready, {}, {})
    ensures var s := Quiet(n, Scanning({}, {}), FileQueue.DirScan, false, map[], Ready, {}, {});
            Enabled(s, ScanEnd) && Do(s, ScanEnd) == Quiet(n, Idle, FileQueue.EventScan, false, map[], Ready, {}, {})
  {
    assert PendingNames(Quiet(n, Idle, FileQueue.DirScan, false, map[], Ready, {}, {})) == {};
    hide PendingNames;
  }

  lemma RenameInTheGap(n: string, cmd: string)
    ensures var s := Quiet(n, Idle, FileQueue.EventScan, false, map[], Ready, {}, {});
            Enabled(s, Submit(n, cmd))
            && Do(s, Submit(n, cmd))
               == Quiet(n, Idle, FileQueue.EventScan, false, map[Cmd(n) := cmd], Waiting(cmd), {n}, {})
  {
    assert map[n := Ready][n := Waiting(cmd)] == map[n := Waiting(cmd)];
    assert {} + {n} == {n};
  }

  lemma WatchTooLate(n: string, cmd: string)
    ensures var s := Quiet(n, Idle, FileQueue.EventScan, false, map[Cmd(n) := cmd], Waiting(cmd), {n}, {});
            var t := Quiet(n, Idle, FileQueue.EventScan, true, map[Cmd(n) := cmd], Waiting(cmd), {n}, {n});
            Enabled(s, Watch) && Do(s, Watch) == t && n in t.lost && Unseen(t, n) == 1 && t.events == []
  {
  }

  ghost predicate Loses(states: seq<State>, steps: seq<Step>, n: string) {
    IsRun(states, steps) && n in states[|steps|].lost && Unseen(states[|steps|], n) == 1 && states[|steps|].events == []
  }

  /** There is a run that loses a command: it is renamed in between the empty scan
      and the installation of the watch. */
  lemma GapRun(n: string, cmd: string)
    ensures exists states :: Loses(states, [ScanBegin, ScanEnd, Submit(n, cmd), Watch], n)
  {
    EmptyScan(n);
    RenameInTheGap(n, cmd);
    WatchTooLate(n, cmd);
    hide Quiet;
    hide Init;
    hide Enabled;
    hide Do;
    hide Unseen;
    var states := [
      Quiet(n, Idle, FileQueue.DirScan, false, map[], Ready, {}, {}),
      Quiet(n, Scanning({}, {}), FileQueue.DirScan, false, map[], Ready, {}, {}),
      Quiet(n, Idle, FileQueue.EventScan, false, map[], Ready, {}, {}),
      Quiet(n, Idle, FileQueue.EventScan, false, map[Cmd(n) := cmd], Waiting(cmd), {n}, {}),
      Quiet(n, Idle, FileQueue.EventScan, true, map[Cmd(n) := cmd], Waiting(cmd), {n}, {n})];
    assert Loses(states, [ScanBegin, ScanEnd, Submit(n, cmd), Watch], n);
  }

  lemma ModeStep(s: State, st: Step)
    requires Inv(s) && Enabled(s, st)
    ensures s.mode == FileQueue.EventScan ==> Do(s, st).mode == FileQueue.EventScan
    ensures s.watch ==> Do(s, st).watch
  {
    hide ClientsOk;
    hide QueueOk;
    hide CommandNames;
  }

  /** The directory is scanned first and watched afterwards, never the other way
      round. */
  lemma {:induction false} ModeNeverReturns(states: seq<State>, steps: seq<Step>, i: nat, j: nat)
    requires IsRun(states, steps) && i <= j < |states|
    ensures states[i].mode == FileQueue.EventScan ==> states[j].mode == FileQueue.EventScan
    ensures states[i].watch ==> states[j].watch
  {
    hide *;
    if i < j {
      ModeNeverReturns(states, steps, i, j - 1);
      RunKeepsInv(states, steps, j - 1);
      RunTakesStep(states, steps, j - 1);
      ModeStep(states[j - 1], steps[j - 1]);
    }
  }

  function BaseNames(ids: seq<FileId>): seq<string> {
    if ids == [] then [] else [BaseName(ids[0])] + BaseNames(ids[1..])
  }

  /** The file queue's prefix test picks just the command files out of the events
      of the protocol, when commands carry the prefix and drafts do not. */
  lemma {:induction false} PrefixTestFindsCommands(ids: seq<FileId>, prefix: string)
    requires GoodPrefix(prefix)
    requires forall i :: 0 <= i < |ids| && !ids[i].Draft? ==> CmdPart() <= ids[i].name
    requires forall i :: 0 <= i < |ids| && ids[i].Cmd? ==> prefix <= ids[i].name
    requires forall i :: 0 <= i < |ids| && ids[i].Draft? ==> !(prefix <= ids[i].path)
    ensures FileQueue.Matching(BaseNames(ids), prefix) == CommandNames(ids)
  {
    if ids != [] {
      PrefixTestFindsCommands(ids[1..], prefix);
      if !ids[0].Draft? { OwnFilesAreNoCommands(ids[0], prefix); }
      assert BaseNames(ids)[1..] == BaseNames(ids[1..]);
      hide GoodPrefix;
      hide CmdPart;
      hide RetPart;
      hide TmpPart;
    }
  }
}
