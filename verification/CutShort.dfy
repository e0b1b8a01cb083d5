/** Which lines the reader rejects, and what a file that stops early leaves behind
    (src/txtreader.cc), told from the language alone. */
module CutShort {
  import opened Text
  import opened Packets
  import opened Tags
  import opened Reader
  import opened Grammar

  /** Some lines could follow and make a request of it. */
  ghost predicate Viable(lines: seq<string>) {
    exists more, c :: more != [] && InLanguage(lines + more, c)
  }

  // ----------------------------------------------------------- more lines

  /** What is read of some lines does not depend on those behind them: an error
      and an end stay, and otherwise reading goes on from where it was. */
  lemma {:induction false} RunOver(st: ReadState, lines: seq<string>, more: seq<string>)
    requires lines != [] && more != [] && !st.stop
    ensures var r, q := Run(st, lines), Run(st, lines + more);
            && (r.error.Some? ==> q == ReadResult(r.st, r.error, false))
            && (r.error.None? && r.st.stop ==> q == ReadResult(r.st, None, false))
            && (r.error.None? && !r.st.stop ==> q == Run(r.st, more))
    decreases |lines|
  {
    hide *;
    RunUnfolds(st, lines);
    RunUnfolds(st, lines + more);
    assert (lines + more)[0] == lines[0] && (lines + more)[1..] == lines[1..] + more;
    if |lines| == 1 {
      assert lines[1..] + more == more;
    } else {
      var s := Step(st, lines[0]);
      if s.Go? && !s.st.stop {
        RunOver(s.st, lines[1..], more);
      }
    }
  }

  // ---------------------------------------------------------- completions

  /** The shortest lines that make a request of what has been read. */
  function Finish(st: ReadState): seq<string> {
    match st.prc
    case InIdle => [BeginTag(), RequestTag(PacketType.Reset), EndTag()]
    case InRequest => [RequestTag(PacketType.Reset), EndTag()]
    case InSsid => [SessionTag() + ""] + if st.pkt.tp == EndSession then [EndTag()] else [CommandTag() + "", EndTag()]
    case InCmdid => [CommandTag() + "", EndTag()]
    case InText => ["}", EndTag()]
    case _ => [EndTag()]
  }

  lemma ClosingBrace()
    ensures TagFree("}") && Contains("}", "}") && !Contains("}", ":") && !Contains("}", MessageTag())
  {
    ContainsChar("}", '}');
    ContainsChar("}", ':');
    if IsRequestTag("}") { RequestTagStartsWithE("}"); }
  }

  lemma FinishAfterType(st: ReadState)
    requires Sound(st) && !st.stop && st.prc in {InSsid, InCmdid, InParam, InText, InStop}
    ensures Complete(Run(st, Finish(st)))
  {
    FinishIs(st);
    SoundIs(st);
    hide *;
    if st.prc == InText {
      ClosingBrace();
      StepClose(st, "}");
      RunStep(st, "}", [EndTag()]);
      RunEnd(Step(st, "}").st, [EndTag()]);
    } else if st.prc == InSsid {
      StepIdentifiers(st, "");
      var s := Step(st, SessionTag() + "").st;
      if st.pkt.tp == EndSession {
        RunStep(st, SessionTag() + "", [EndTag()]);
        RunEnd(s, [EndTag()]);
      } else {
        StepIdentifiers(s, "");
        RunStep(st, SessionTag() + "", [CommandTag() + "", EndTag()]);
        RunStep(s, CommandTag() + "", [EndTag()]);
        RunEnd(Step(s, CommandTag() + "").st, [EndTag()]);
      }
    } else if st.prc == InCmdid {
      StepIdentifiers(st, "");
      RunStep(st, CommandTag() + "", [EndTag()]);
      RunEnd(Step(st, CommandTag() + "").st, [EndTag()]);
    } else {
      RunEnd(st, [EndTag()]);
    }
  }

  lemma FinishIs(st: ReadState)
    ensures st.prc == InIdle ==> Finish(st) == [BeginTag()] + [RequestTag(PacketType.Reset), EndTag()]
    ensures st.prc == InRequest ==> Finish(st) == [RequestTag(PacketType.Reset)] + [EndTag()]
    ensures st.prc == InSsid && st.pkt.tp == EndSession ==> Finish(st) == [SessionTag() + ""] + [EndTag()]
    ensures st.prc == InSsid && st.pkt.tp != EndSession ==>
      Finish(st) == [SessionTag() + ""] + [CommandTag() + "", EndTag()]
    ensures st.prc == InCmdid ==> Finish(st) == [CommandTag() + ""] + [EndTag()]
    ensures [CommandTag() + "", EndTag()] == [CommandTag() + ""] + [EndTag()]
    ensures [RequestTag(PacketType.Reset), EndTag()] == [RequestTag(PacketType.Reset)] + [EndTag()]
    ensures st.prc == InText ==> Finish(st) == ["}"] + [EndTag()]
    ensures st.prc == InParam || st.prc == InStop ==> Finish(st) == [EndTag()]
    ensures Finish(st) != []
  {
    hide BeginTag;
    hide RequestTag;
    hide SessionTag;
    hide CommandTag;
    hide EndTag;
  }

  lemma SoundIs(st: ReadState)
    requires Sound(st)
    ensures st.dfl == (if st.prc == InText then InText else InUnknown)
    ensures st.prc in {InIdle, InStop, InRequest, InSsid, InCmdid, InParam, InText}
  {
  }

  /** From every sound state some lines complete the request. */
  lemma FinishCompletes(st: ReadState)
    requires Sound(st) && !st.stop
    ensures Finish(st) != [] && Complete(Run(st, Finish(st)))
  {
    FinishIs(st);
    SoundIs(st);
    hide *;
    if st.prc == InIdle || st.prc == InRequest {
      var s := st.(prc := InRequest);
      var reset := RequestTag(PacketType.Reset);
      if st.prc == InIdle {
        StepBegin(st);
        RunStep(st, BeginTag(), [reset, EndTag()]);
      } else {
        assert st == s;
      }
      StepRequestTag(s, PacketType.Reset);
      RunStep(s, reset, [EndTag()]);
      RunEnd(Step(s, reset).st, [EndTag()]);
    } else {
      FinishAfterType(st);
    }
  }

  // ------------------------------------------------------- what is rejected

  lemma InLanguageGoesOn(lines: seq<string>, c: Command, more: seq<string>)
    requires InLanguage(lines, c)
    ensures InLanguage(lines + more, c)
  {
    var cuts, rest: seq<string> :| AllCuts(cuts) && lines == cuts + Print(c) + rest;
    hide Print;
    hide WellFormed;
    hide AllCuts;
    assert lines + more == cuts + Print(c) + (rest + more);
  }

  lemma ViableByMore(lines: seq<string>, more: seq<string>, c: Command)
    requires more != [] && InLanguage(lines + more, c)
    ensures Viable(lines)
  {
    hide InLanguage;
  }

  /** The reader raises an exception exactly if no lines that follow could make a
      request of what it has read: never too early, never too late. */
  lemma NoErrorIffViable(garbage: PacketType, lines: seq<string>)
    requires lines != []
    ensures Run(Init(New(garbage)), lines).error == None <==> Viable(lines)
  {
    var st := Init(New(garbage));
    var r := Run(st, lines);
    StartIs(garbage);
    InitIsSound(garbage);
    RunKeepsSound(st, lines);
    if Viable(lines) {
      var more, c :| more != [] && InLanguage(lines + more, c);
      ReaderAcceptsLanguage(garbage, lines + more);
      hide *;
      CompleteIs(Run(st, lines + more));
      RunOver(st, lines, more);
    }
    if r.error == None {
      hide *;
      if r.st.stop {
        CompleteIs(r);
        ReaderAcceptsLanguage(garbage, lines);
        var c :| InLanguage(lines, c);
        InLanguageGoesOn(lines, c, [""]);
        ViableByMore(lines, [""], c);
      } else {
        FinishCompletes(r.st);
        RunOver(st, lines, Finish(r.st));
        ReaderAcceptsLanguage(garbage, lines + Finish(r.st));
        var c :| InLanguage(lines + Finish(r.st), c);
        ViableByMore(lines, Finish(r.st), c);
      }
    }
  }

  lemma CompleteIs(r: ReadResult)
    ensures Complete(r) <==> r.error == None && r.st.stop
  {
  }

  /** Reading fails before the end of the file exactly if the lines but the last
      are the beginning of no request. */
  lemma RejectedIff(garbage: PacketType, lines: seq<string>)
    requires lines != []
    ensures var r := Run(Init(New(garbage)), lines);
            r.error.Some? && !r.atEof <==> |lines| > 1 && !Viable(lines[..|lines| - 1])
  {
    var st, n := Init(New(garbage)), |lines| - 1;
    StartIs(garbage);
    hide *;
    RunUnfolds(st, lines);
    if n > 0 {
      var before := lines[..n];
      assert lines == before + [lines[n]];
      NoErrorIffViable(garbage, before);
      RunOver(st, before, [lines[n]]);
      RunUnfolds(Run(st, before).st, [lines[n]]);
    }
  }

  /** A line that would have been in place where an exception was raised. */
  function Fitting(e: ReadError): string {
    match e
    case ExpectedStart => "<ecf_sgi_begin>"
    case ExpectedRequest => "ecf_reset_request"
    case ExpectedSsid => "session_id:"
    case ExpectedCmdid => "command_id:"
    case UnexpectedToken => "mensagem{"
    case MessageMalformed => "}"
    case _ => "<ecf_sgi_end>"
  }

  /** An exception names what is missing: the line that it asks for could have
      stood in the place of the one that was rejected. */
  lemma ErrorTellsWhatFits(garbage: PacketType, before: seq<string>, line: string)
    requires before == [] || Run(Init(New(garbage)), before).error == None
    requires Run(Init(New(garbage)), before + [line]).error.Some?
    ensures Viable(before + [Fitting(Run(Init(New(garbage)), before + [line]).error.value)])
  {
    var st := Init(New(garbage));
    var r := Run(st, before + [line]);
    var fit := Fitting(r.error.value);
    StartIs(garbage);
    InitIsSound(garbage);
    hide *;
    var s := st;
    if before == [] {
      assert before + [line] == [line] && before + [fit] == [fit];
    } else {
      RunKeepsSound(st, before);
      RunOver(st, before, [line]);
      RunOver(st, before, [fit]);
      s := Run(st, before).st;
    }
    RunUnfolds(s, [line]);
    RunUnfolds(s, [fit]);
    FittingGoes(s, line);
    NoErrorIffViable(garbage, before + [fit]);
  }

  lemma FittingGoes(st: ReadState, line: string)
    requires Sound(st) && !st.stop && Step(st, line).Bad?
    ensures Step(st, Fitting(Step(st, line).error)).Go?
  {
    SoundIs(st);
    ErrorOfPhase(st, line);
    TagTexts();
    FittingIs();
    ClosingBrace();
    MessageTagIsOpener();
    hide *;
    assert SessionTag() + "" == SessionTag() && CommandTag() + "" == CommandTag();
    match st.prc {
      case InIdle => StepBegin(st);
      case InRequest => StepRequestTag(st, PacketType.Reset);
      case InSsid => StepIdentifiers(st, "");
      case InCmdid => StepIdentifiers(st, "");
      case InParam => StepOpen(st, "mensagem{");
      case InText => StepClose(st, "}");
      case _ => StepEnd(st);
    }
  }

  lemma FittingIs()
    ensures Fitting(ExpectedStart) == "<ecf_sgi_begin>" && Fitting(ExpectedRequest) == "ecf_reset_request"
    ensures Fitting(ExpectedSsid) == "session_id:" && Fitting(ExpectedCmdid) == "command_id:"
    ensures Fitting(UnexpectedToken) == "mensagem{" && Fitting(MessageMalformed) == "}"
    ensures Fitting(ExpectedStop) == "<ecf_sgi_end>" && MessageTag() == "mensagem{"
  {
  }

  lemma ErrorOfPhase(st: ReadState, line: string)
    requires Sound(st) && Step(st, line).Bad?
    ensures st.prc == InIdle ==> Step(st, line).error == ExpectedStart
    ensures st.prc == InRequest ==> Step(st, line).error == ExpectedRequest
    ensures st.prc == InSsid ==> Step(st, line).error == ExpectedSsid
    ensures st.prc == InCmdid ==> Step(st, line).error == ExpectedCmdid
    ensures st.prc == InParam ==> Step(st, line).error == UnexpectedToken
    ensures st.prc == InText ==> Step(st, line).error == MessageMalformed
    ensures st.prc == InStop ==> Step(st, line).error == ExpectedStop
  {
    StepKeepsSound(st, line);
    hide Qualify;
    hide Contains;
    hide IEquals;
    hide Drop;
    hide CutLine;
  }

  // ----------------------------------------------- what an early end leaves

  lemma LastLine(st: ReadState, line: string)
    requires !st.stop
    ensures Complete(Run(st, [line])) ==> Run(st, [line]).st.pkt == st.pkt
  {
    hide Qualify;
    hide IEquals;
    hide Contains;
    hide Drop;
  }

  /** A file that stops before its end tag leaves what the request would denote if
      the end tag stood there. */
  lemma EndTagMissing(garbage: PacketType, lines: seq<string>, c: Command)
    requires lines != [] && !Complete(Run(Init(New(garbage)), lines)) && InLanguage(lines + [EndTag()], c)
    ensures var r := Run(Init(New(garbage)), lines); r.error == None && r.st.pkt == Denote(c)
  {
    var st, end := Init(New(garbage)), EndTag();
    StartIs(garbage);
    hide *;
    CompleteIs(Run(st, lines));
    CompleteIs(Run(st, lines + [end]));
    ReaderAcceptsLanguage(garbage, lines + [end]);
    RunOver(st, lines, [end]);
    LastLine(Run(st, lines).st, end);
  }

  /** One that stops inside a message leaves what it would denote if the message
      were closed there, but for the message itself. */
  lemma MessageUnclosed(garbage: PacketType, lines: seq<string>, c: Command)
    requires lines != [] && !Complete(Run(Init(New(garbage)), lines)) && InLanguage(lines + ["}", EndTag()], c)
    ensures var r, ps := Run(Init(New(garbage)), lines), Denote(c).params;
            r.error == None && ps != [] && r.st.pkt == Denote(c).(params := ps[..|ps| - 1])
  {
    var st, end := Init(New(garbage)), EndTag();
    StartIs(garbage);
    InitIsSound(garbage);
    RunKeepsSound(st, lines);
    hide *;
    var s := Run(st, lines).st;
    CompleteIs(Run(st, lines));
    CompleteIs(Run(st, lines + ["}", end]));
    ReaderAcceptsLanguage(garbage, lines + ["}", end]);
    RunOver(st, lines, ["}", end]);
    RunUnfolds(s, ["}", end]);
    assert ["}", end][1..] == [end];
    BraceCloses(s);
    LastLine(Step(s, "}").st, end);
  }

  lemma BraceCloses(st: ReadState)
    requires Sound(st) && !st.stop
    ensures Step(st, "}").Go? ==>
      !Step(st, "}").st.stop && Step(st, "}").st.pkt == st.pkt.(params := st.pkt.params + [st.text])
  {
    ClosingBrace();
    if st.prc == InText {
      StepClose(st, "}");
      hide *;
    } else {
      BraceElsewhere(st);
    }
  }

  lemma BraceElsewhere(st: ReadState)
    requires Sound(st) && st.prc != InText
    ensures Step(st, "}").Bad?
  {
    BraceIsNothing();
    SoundIs(st);
    BraceIsNoCut();
    hide *;
    NothingIsBad(st, "}");
  }

  lemma NothingIsBad(st: ReadState, line: string)
    requires st.prc != InText && Qualify(line, st.dfl) == InUnknown && !IEquals(line, CutLine())
    ensures Step(st, line).Bad?
  {
    NothingStarts(st, line);
    hide Qualify;
    hide IEquals;
    hide StepRequest;
    hide StepParam;
    hide Drop;
    hide CutLine;
    hide Contains;
  }

  lemma BraceIsNothing()
    ensures Qualify("}", InUnknown) == InUnknown
  {
    ClosingBrace();
    QualifyTagFree("}", InUnknown);
    hide *;
  }

  lemma NothingStarts(st: ReadState, line: string)
    ensures StepRequest(st, line, InUnknown).Bad? && StepParam(st, line, InUnknown).Bad?
  {
  }

  lemma BraceIsNoCut()
    ensures !IEquals("}", CutLine())
  {
    CutLineFold();
    var s := "}";
    assert |s| == 1 && s[0] == '}' && '}' as int == 125 && '\r' as int == 13;
    FoldOfWord(s);
    IEqualsIsFoldEquality(s, CutLine());
  }
}
