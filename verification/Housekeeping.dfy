/** When the spooler gives up scanning the directory, and what becomes of its
    temporary files, over whole runs (src/filequeue.cc, src/main.cc). */
module Housekeeping {
  import opened FileNames
  import opened Protocol
  import FileQueue

  // ------------------------------------------------- the last directory scan

  predicate EndsOrBegins(st: Step) {
    st == ScanBegin || st == ScanEnd
  }

  /** A scan began at step b and is still going on before step i. */
  predicate OpenScan(steps: seq<Step>, b: nat, i: nat) {
    b < i <= |steps| && steps[b] == ScanBegin && forall k :: b < k < i ==> !EndsOrBegins(steps[k])
  }

  /** It met nothing so far. */
  predicate NothingMet(steps: seq<Step>, b: nat, i: nat) {
    forall k :: b < k < i && k < |steps| ==> !steps[k].ScanEntry?
  }

  /** A scan from step b to step e that met nothing. */
  predicate EmptyScan(steps: seq<Step>, b: nat, e: nat) {
    e < |steps| && steps[e] == ScanEnd && OpenScan(steps, b, e) && NothingMet(steps, b, e)
  }

  lemma ScanStep(s: State, st: Step)
    requires Enabled(s, st)
    ensures st == ScanBegin ==> !s.pc.Scanning? && Do(s, st).pc.Scanning? && Do(s, st).pc.seen == {}
    ensures st == ScanEnd ==> s.pc.Scanning? && !Do(s, st).pc.Scanning?
    ensures st == ScanEnd ==> (Do(s, st).mode == FileQueue.EventScan <==> s.pc.seen == {})
    ensures st != ScanEnd ==> Do(s, st).mode == s.mode
    ensures st.ScanEntry? ==> s.pc.Scanning? && Do(s, st).pc.Scanning? && Do(s, st).pc.seen != {}
    ensures !EndsOrBegins(st) && !st.ScanEntry? ==>
      (Do(s, st).pc.Scanning? <==> s.pc.Scanning?) && (s.pc.Scanning? ==> Do(s, st).pc == s.pc)
  {
    hide CommandNames;
    hide Announce;
    if st.ScanEntry? {
      assert st.n in Do(s, st).pc.seen;
    }
  }

  lemma OpenScanBack(steps: seq<Step>, b: nat, i: nat)
    requires 0 < i <= |steps|
    ensures OpenScan(steps, b, i)
       <==> (b == i - 1 && steps[b] == ScanBegin) || (OpenScan(steps, b, i - 1) && !EndsOrBegins(steps[i - 1]))
    ensures NothingMet(steps, b, i) <==> b >= i - 1 || (NothingMet(steps, b, i - 1) && !steps[i - 1].ScanEntry?)
  {
  }

  /** The spooler scans exactly while a scan is open, and has seen something
      exactly if the scan has met something. */
  lemma {:induction false} ScanningIff(states: seq<State>, steps: seq<Step>, i: nat)
    requires IsRun(states, steps) && i < |states|
    ensures states[i].pc.Scanning? <==> exists b: nat :: OpenScan(steps, b, i)
    ensures forall b: nat :: OpenScan(steps, b, i) && states[i].pc.Scanning? ==>
      (states[i].pc.seen == {} <==> NothingMet(steps, b, i))
  {
    hide *;
    RunBegins(states, steps);
    if i == 0 {
      NoScanYet(steps);
    } else {
      RunTakesStep(states, steps, i - 1);
      var s, st := states[i - 1], steps[i - 1];
      ScanningIff(states, steps, i - 1);
      ScanStep(s, st);
      Kinds(st);
      forall b: nat
        ensures OpenScan(steps, b, i) <==> (b == i - 1 && st == ScanBegin)
                                           || (OpenScan(steps, b, i - 1) && !EndsOrBegins(st))
        ensures NothingMet(steps, b, i) <==> b >= i - 1 || (NothingMet(steps, b, i - 1) && !st.ScanEntry?)
        ensures OpenScan(steps, b, i - 1) ==> b < i - 1
      {
        OpenScanBack(steps, b, i);
        OpenScanStarts(steps, b, i - 1);
      }
      if st == ScanBegin {
        assert OpenScan(steps, i - 1, i);
      } else if s.pc.Scanning? && st != ScanEnd {
        var b: nat :| OpenScan(steps, b, i - 1);
        assert OpenScan(steps, b, i);
      }
    }
  }

  lemma OpenScanStarts(steps: seq<Step>, b: nat, i: nat)
    ensures OpenScan(steps, b, i) ==> b < i
  {
  }

  lemma Kinds(st: Step)
    ensures EndsOrBegins(st) <==> st == ScanBegin || st == ScanEnd
  {
  }

  lemma NoScanYet(steps: seq<Step>)
    ensures forall b: nat :: !OpenScan(steps, b, 0)
  {
  }

  lemma RunBegins(states: seq<State>, steps: seq<Step>)
    requires IsRun(states, steps)
    ensures |states| == |steps| + 1 && states[0].pc == Idle && states[0].mode == FileQueue.DirScan
  {
  }

  /** Events are awaited exactly if some scan before met nothing, from its begin to
      its end: a scan that meets a command is followed by another one. */
  lemma {:induction false} EventsAfterEmptyScan(states: seq<State>, steps: seq<Step>, i: nat)
    requires IsRun(states, steps) && i < |states|
    ensures states[i].mode == FileQueue.EventScan <==> exists b: nat, e: nat :: EmptyScan(steps, b, e) && e < i
  {
    hide *;
    RunBegins(states, steps);
    if i > 0 {
      RunTakesStep(states, steps, i - 1);
      var s, st := states[i - 1], steps[i - 1];
      EventsAfterEmptyScan(states, steps, i - 1);
      ScanningIff(states, steps, i - 1);
      ScanStep(s, st);
      forall b: nat, e: nat | EmptyScan(steps, b, e) && e < i ensures states[i].mode == FileQueue.EventScan {
        EmptyScanIs(steps, b, e);
        if e < i - 1 {
          assert s.mode == FileQueue.EventScan;
          ModeNeverReturns(states, steps, i - 1, i);
        }
      }
      if st == ScanEnd && s.pc.seen == {} {
        var b: nat :| OpenScan(steps, b, i - 1);
        EmptyScanIs(steps, b, i - 1);
      }
    }
  }

  lemma EmptyScanIs(steps: seq<Step>, b: nat, e: nat)
    ensures EmptyScan(steps, b, e)
       <==> e < |steps| && steps[e] == ScanEnd && OpenScan(steps, b, e) && NothingMet(steps, b, e)
  {
  }

  // ---------------------------------------------------------- temporary files

  /** The temporary file of the command is between its making and its removal. */
  predicate InHand(s: State, n: string) {
    (s.pc.Writing? || s.pc.Written? || s.pc.Copying? || s.pc.Copied?) && s.pc.name == n
  }

  lemma TemporaryStep(s: State, st: Step, n: string)
    requires Enabled(s, st) && (Tmp(n) in s.files <==> InHand(s, n))
    ensures Tmp(n) in Do(s, st).files <==> InHand(Do(s, st), n)
  {
    hide CommandNames;
    hide Announce;
    hide PendingNames;
  }

  /** A temporary file is there exactly while its command is written and copied, in
      every run that began without it. */
  lemma {:induction false} TemporaryFilesGo(states: seq<State>, steps: seq<Step>, i: nat, n: string)
    requires IsRun(states, steps) && i < |states| && Tmp(n) !in states[0].files
    ensures Tmp(n) in states[i].files <==> InHand(states[i], n)
  {
    hide *;
    RunBegins(states, steps);
    if i == 0 {
      IdleHoldsNone(states[0], n);
    } else {
      RunTakesStep(states, steps, i - 1);
      TemporaryFilesGo(states, steps, i - 1, n);
      TemporaryStep(states[i - 1], steps[i - 1], n);
    }
  }

  lemma IdleHoldsNone(s: State, n: string)
    requires s.pc == Idle
    ensures !InHand(s, n)
  {
  }
}
