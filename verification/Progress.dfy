/** The spooler gets on with its work: left to itself it comes to rest after
    finitely many steps, in whatever order it takes them, and by then every
    command has been answered except those it cannot see (src/filequeue.cc,
    src/txtcollector.cc, src/main.cc). */
module Progress {
  import opened FileNames
  import opened Protocol
  import FileQueue

  predicate BySpooler(st: Step) {
    !(st.Clear? || st.Submit? || st.MakeDraft? || st.StartRead? || st.ReadMore? || st.FinishRead?)
  }

  /** The spooler waits for an event, and none is there. */
  predicate Settled(s: State) {
    s.pc.Idle? && s.queue == [] && s.events == [] && s.watch
  }

  // ------------------------------------------------------------- the measure

  /** Commands not yet deleted, stages of watching to come, the place in the round
      of work, and how much of it is left at that place. */
  datatype Measure = Measure(pending: nat, modes: nat, rank: nat, rest: nat)

  predicate Less(a: Measure, b: Measure) {
    || a.pending < b.pending
    || (a.pending == b.pending && a.modes < b.modes)
    || (a.pending == b.pending && a.modes == b.modes && a.rank < b.rank)
    || (a.pending == b.pending && a.modes == b.modes && a.rank == b.rank && a.rest < b.rest)
  }

  function Modes(s: State): nat {
    if s.watch then 0 else if s.mode == FileQueue.EventScan then 1 else 2
  }

  function Rank(s: State): nat {
    match s.pc
    case Serving(_, _) => 12
    case Writing(_, _, _) => 11
    case Written(_, _, _) => 10
    case Copying(_, _, _) => 9
    case Copied(_, _, _) => 8
    case Unlinked(_, _, _) => 7
    case Idle => if s.queue == [] then 6 else 4
    case Scanning(_, _) => 5
    case Loading(_) => 3
    case Loaded(_, _) => 2
  }

  function Length(s: State, id: FileId): nat {
    if id in s.files then |s.files[id]| else 0
  }

  function Rest(s: State): nat {
    match s.pc
    case Writing(n, _, text) => if Length(s, Tmp(n)) <= |text| then |text| - Length(s, Tmp(n)) else 0
    case Copying(n, _, _) =>
      if Length(s, Ret(n)) <= Length(s, Tmp(n)) then Length(s, Tmp(n)) - Length(s, Ret(n)) else 0
    case Scanning(seen, _) => |PendingNames(s) - seen|
    case Idle => |s.events|
    case _ => 0
  }

  function MeasureOf(s: State): Measure {
    Measure(|PendingNames(s)|, Modes(s), Rank(s), Rest(s))
  }

  // ------------------------------------------------------- every step gets on

  lemma SmallerSet(a: set<string>, b: set<string>, n: string)
    requires n in b && a == b - {n}
    ensures |a| < |b|
  {
  }

  /** No step of the spooler but the deletion changes which commands pend. */
  lemma PendingStays(s: State, st: Step)
    requires Enabled(s, st) && BySpooler(st) && st != Delete
    ensures PendingNames(Do(s, st)) == PendingNames(s)
  {
    hide Announce;
    hide CommandNames;
  }

  lemma DeletionTakesOne(s: State)
    requires Inv(s) && Enabled(s, Delete)
    ensures |PendingNames(Do(s, Delete))| < |PendingNames(s)|
  {
    var n := s.pc.name;
    InvIs(s);
    Busy(s);
    ClientOkIs(s, n);
    assert Cmd(n) in s.files;
    SmallerSet(PendingNames(Do(s, Delete)), PendingNames(s), n);
  }

  lemma WorkGetsOn(s: State, st: Step)
    requires Inv(s) && Enabled(s, st) && IsWork(st) && st != Delete
    ensures Modes(Do(s, st)) == Modes(s)
    ensures Rank(Do(s, st)) < Rank(s) || (Rank(Do(s, st)) == Rank(s) && Rest(Do(s, st)) < Rest(s))
  {
    hide Inv;
    hide Announce;
    hide PendingNames;
  }

  lemma ScanGetsOn(s: State, n: string)
    requires Inv(s) && Enabled(s, ScanEntry(n))
    ensures var t := Do(s, ScanEntry(n)); Modes(t) == Modes(s) && Rank(t) == Rank(s) && Rest(t) < Rest(s)
  {
    var t := Do(s, ScanEntry(n));
    PendingStays(s, ScanEntry(n));
    InvIs(s);
    CommandHasClient(s, n);
    assert n in PendingNames(s) - s.pc.seen;
    hide PendingNames;
    assert PendingNames(t) - t.pc.seen == (PendingNames(s) - s.pc.seen) - {n};
    SmallerSet(PendingNames(t) - t.pc.seen, PendingNames(s) - s.pc.seen, n);
  }

  lemma CommandHasClient(s: State, n: string)
    requires QueueOk(s) && Cmd(n) in s.files
    ensures n in s.clients
  {
  }

  lemma WaitGetsOn(s: State, st: Step)
    requires Inv(s) && Enabled(s, st)
    requires st == ScanBegin || st == ScanEnd || st == Watch || st.Deliver? || st == Dequeue
    ensures var t := Do(s, st);
            || Modes(t) < Modes(s)
            || (Modes(t) == Modes(s) && Rank(t) < Rank(s))
            || (Modes(t) == Modes(s) && Rank(t) == Rank(s) && Rest(t) < Rest(s))
  {
    hide PendingNames;
    hide CommandNames;
    hide ClientsOk;
    hide NoRepeat;
    hide NoRepeatedCommand;
    if st == ScanEnd && s.pc.seen != {} {
      var n :| n in s.pc.seen;
      assert n in s.queue;
    }
  }

  /** Every step of the spooler brings it nearer to rest. */
  lemma EveryStepGetsOn(s: State, st: Step)
    requires Inv(s) && Enabled(s, st) && BySpooler(st)
    ensures Less(MeasureOf(Do(s, st)), MeasureOf(s))
  {
    hide *;
    StepKinds(st);
    MeasureIs(s);
    MeasureIs(Do(s, st));
    if st == Delete {
      DeletionTakesOne(s);
      LessIs(MeasureOf(Do(s, st)), MeasureOf(s));
    } else {
      PendingStays(s, st);
      LessIs(MeasureOf(Do(s, st)), MeasureOf(s));
      if IsWork(st) {
        WorkGetsOn(s, st);
      } else if st.ScanEntry? {
        ScanGetsOn(s, st.n);
      } else {
        WaitGetsOn(s, st);
      }
    }
  }

  lemma StepKinds(st: Step)
    ensures BySpooler(st) <==>
      IsWork(st) || st.ScanEntry? || st == ScanBegin || st == ScanEnd || st == Watch || st.Deliver? || st == Dequeue
    ensures IsWork(Delete)
  {
  }

  lemma MeasureIs(s: State)
    ensures MeasureOf(s) == Measure(|PendingNames(s)|, Modes(s), Rank(s), Rest(s))
  {
  }

  lemma LessIs(a: Measure, b: Measure)
    ensures Less(a, b) <==>
      || a.pending < b.pending
      || (a.pending == b.pending && a.modes < b.modes)
      || (a.pending == b.pending && a.modes == b.modes && a.rank < b.rank)
      || (a.pending == b.pending && a.modes == b.modes && a.rank == b.rank && a.rest < b.rest)
  {
  }

  // ------------------------------------------------ some step can be taken

  /** A scan is to meet only files that are there. */
  predicate MustPends(s: State) {
    s.pc.Scanning? ==> s.pc.must <= PendingNames(s)
  }

  lemma StepKeepsMust(s: State, st: Step)
    requires Enabled(s, st) && MustPends(s)
    ensures MustPends(Do(s, st))
  {
    hide Announce;
    hide CommandNames;
  }

  lemma {:induction false} RunKeepsMust(states: seq<State>, steps: seq<Step>, i: nat)
    requires IsRun(states, steps) && i < |states|
    ensures MustPends(states[i])
  {
    if i == 0 {
      NoScanAtFirst(states, steps);
    } else {
      hide *;
      RunTakesStep(states, steps, i - 1);
      RunKeepsMust(states, steps, i - 1);
      StepKeepsMust(states[i - 1], steps[i - 1]);
    }
  }

  lemma NoScanAtFirst(states: seq<State>, steps: seq<Step>)
    requires IsRun(states, steps)
    ensures MustPends(states[0])
  {
    hide Enabled;
    hide Do;
  }

  /** The command at work is some client's, and its files are as its place asks. */
  lemma WorkIsInOrder(s: State)
    requires Inv(s) && !s.pc.Idle? && !s.pc.Scanning?
    ensures s.pc.name in s.clients && s.clients[s.pc.name].Waiting?
    ensures Works(s.pc, s.pc.name) && WorkOk(s, s.pc.name, s.clients[s.pc.name].cmd)
  {
    InvIs(s);
    Busy(s);
    ClientOkIs(s, s.pc.name);
    hide Inv;
    hide ClientsOk;
    hide QueueOk;
    hide ScanOk;
    hide WorkOk;
  }

  lemma WorkCanGoOn(s: State) returns (st: Step)
    requires Inv(s) && !s.pc.Idle? && !s.pc.Scanning?
    ensures Enabled(s, st) && BySpooler(st)
  {
    WorkIsInOrder(s);
    st := NextWork(s, s.pc.name, s.clients[s.pc.name].cmd);
  }

  lemma NextWork(s: State, n: string, cmd: string) returns (st: Step)
    requires !s.pc.Idle? && !s.pc.Scanning? && s.pc.name == n && Works(s.pc, n) && WorkOk(s, n, cmd)
    ensures Enabled(s, st) && BySpooler(st)
  {
    match s.pc
    case Loading(_) => st := Load;
    case Loaded(_, _) => st := Delete;
    case Serving(_, _) => st := Respond("");
    case Writing(_, _, text) => st := if |s.files[Tmp(n)]| < |text| then Write else CloseTmp;
    case Written(_, _, _) => st := OpenRet;
    case Copying(_, _, _) => st := if |s.files[Ret(n)]| < |s.files[Tmp(n)]| then Copy else CloseRet;
    case Copied(_, _, _) => st := UnlinkTmp;
    case Unlinked(_, _, _) => st := MakeLock;
  }

  lemma WaitCanGoOn(s: State) returns (st: Step)
    requires Inv(s) && MustPends(s) && (s.pc.Idle? || s.pc.Scanning?) && !Settled(s)
    ensures Enabled(s, st) && BySpooler(st)
  {
    hide ClientsOk;
    hide QueueOk;
    if s.pc.Idle? {
      if s.queue != [] {
        st := Dequeue;
      } else if s.watch {
        st := Deliver(|s.events|);
      } else if s.mode == FileQueue.EventScan {
        st := Watch;
      } else {
        st := ScanBegin;
      }
    } else if s.pc.must <= s.pc.seen {
      st := ScanEnd;
    } else {
      var n :| n in s.pc.must && n !in s.pc.seen;
      st := ScanEntry(n);
    }
  }

  // --------------------------------------------------------- what is left then

  /** At rest a waiting client has its answer, unless its command is lost. */
  lemma SettledServes(s: State, n: string)
    requires Inv(s) && Settled(s) && n in s.clients && s.clients[n].Waiting?
    ensures Answered(s, n, s.clients[n].cmd) <==> n !in s.lost
  {
    InvIs(s);
    ClientOkIs(s, n);
    hide ClientsOk;
    hide QueueOk;
  }

  /** The measure of a run's last state. */
  function EndMeasure(states: seq<State>): Measure {
    if states == [] then Measure(0, 0, 0, 0) else MeasureOf(states[|states| - 1])
  }

  lemma EndMeasureIs(states: seq<State>, s: State)
    ensures EndMeasure(states + [s]) == MeasureOf(s)
  {
  }

  /** From every reachable state the spooler alone reaches rest. */
  lemma {:induction false} SpoolerSettles(states: seq<State>, steps: seq<Step>)
    returns (states': seq<State>, steps': seq<Step>)
    requires IsRun(states, steps)
    ensures IsRun(states', steps') && |states'| == |steps'| + 1 && |states| == |steps| + 1
    ensures steps <= steps' && states <= states' && forall k :: |steps| <= k < |steps'| ==> BySpooler(steps'[k])
    ensures Settled(states'[|steps'|])
    decreases EndMeasure(states).pending, EndMeasure(states).modes, EndMeasure(states).rank, EndMeasure(states).rest
  {
    hide *;
    RunHasEnd(states, steps);
    var s := states[|steps|];
    RunKeepsInv(states, steps, |steps|);
    RunKeepsMust(states, steps, |steps|);
    if Settled(s) {
      states', steps' := states, steps;
    } else {
      var st;
      if s.pc.Idle? || s.pc.Scanning? {
        st := WaitCanGoOn(s);
      } else {
        st := WorkCanGoOn(s);
      }
      EveryStepGetsOn(s, st);
      LessIs(MeasureOf(Do(s, st)), MeasureOf(s));
      RunGoesOn(states, steps, st);
      assert states[..|steps|] + [s] == states;
      EndMeasureIs(states[..|steps|], s);
      EndMeasureIs(states, Do(s, st));
      states', steps' := SpoolerSettles(states + [Do(s, st)], steps + [st]);
      assert steps'[|steps|] == (steps + [st])[|steps|];
    }
  }

  lemma RunHasEnd(states: seq<State>, steps: seq<Step>)
    requires IsRun(states, steps)
    ensures |states| == |steps| + 1
  {
  }

  lemma RunGoesOn(states: seq<State>, steps: seq<Step>, st: Step)
    requires IsRun(states, steps) && |states| == |steps| + 1 && Enabled(states[|steps|], st)
    ensures IsRun(states + [Do(states[|steps|], st)], steps + [st])
  {
    hide Init;
    hide Enabled;
    hide Do;
    var ss, ts := states + [Do(states[|steps|], st)], steps + [st];
    assert forall i :: 0 <= i < |states| ==> ss[i] == states[i];
    assert forall i :: 0 <= i < |steps| ==> ts[i] == steps[i];
  }

  /** A run goes on as another one, by steps of the spooler only, to a rest. */
  ghost predicate ComesToRest(states: seq<State>, steps: seq<Step>, states': seq<State>, steps': seq<Step>) {
    && IsRun(states', steps') && |states'| == |steps'| + 1 && steps <= steps' && states <= states'
    && (forall k :: |steps| <= k < |steps'| ==> BySpooler(steps'[k]))
    && Settled(states'[|steps'|])
  }

  /** Whatever has happened, the spooler can come to rest, and where it does a
      waiting client has the whole answer to its command exactly if that was not
      renamed in in the gap between the last scan and the watch. */
  lemma CommandsAreAnswered(states: seq<State>, steps: seq<Step>)
    requires IsRun(states, steps)
    ensures exists states', steps' :: ComesToRest(states, steps, states', steps')
    ensures forall states', steps', n | ComesToRest(states, steps, states', steps') ::
      WaitsRightly(states', steps', n)
  {
    hide *;
    var ss, ts := SpoolerSettles(states, steps);
    ComesToRestIs(states, steps, ss, ts);
    forall states', steps', n | ComesToRest(states, steps, states', steps')
      ensures WaitsRightly(states', steps', n)
    {
      ComesToRestIs(states, steps, states', steps');
      RestedClientsWaitRightly(states', steps', n);
    }
  }

  /** In the last state of a run. */
  ghost predicate WaitsRightly(states: seq<State>, steps: seq<Step>, n: string) {
    |states| == |steps| + 1 &&
    var s := states[|steps|];
    n in s.clients && s.clients[n].Waiting? ==>
      (Answered(s, n, s.clients[n].cmd) <==> !exists j: nat, k: nat :: InGap(steps, j, k, n) && k < |steps|)
  }

  lemma RestedClientsWaitRightly(states: seq<State>, steps: seq<Step>, n: string)
    requires IsRun(states, steps) && |states| == |steps| + 1 && Settled(states[|steps|])
    ensures WaitsRightly(states, steps, n)
  {
    RunKeepsInv(states, steps, |steps|);
    LostExactlyInTheGap(states, steps, |steps|, n);
    var s := states[|steps|];
    hide IsRun;
    hide Inv;
    hide InGap;
    hide Answered;
    hide Settled;
    if n in s.clients && s.clients[n].Waiting? {
      SettledServes(s, n);
    }
  }

  lemma ComesToRestIs(states: seq<State>, steps: seq<Step>, states': seq<State>, steps': seq<Step>)
    ensures ComesToRest(states, steps, states', steps') <==>
      && IsRun(states', steps') && |states'| == |steps'| + 1 && steps <= steps' && states <= states'
      && (forall k :: |steps| <= k < |steps'| ==> BySpooler(steps'[k]))
      && Settled(states'[|steps'|])
  {
    hide IsRun;
    hide BySpooler;
    hide Settled;
  }
}
