/** The request reader (src/txtreader.cc): a phase machine fed line by line. */
module Reader {
  import opened Text
  import opened Packets
  import opened Tags

  datatype ReadError =
    | ExpectedStart | ExpectedStop | ExpectedRequest | RequestNotFound | ExpectedSsid | ExpectedCmdid
    | UnexpectedToken | ParamMalformed | MessageMalformed | UnknownToken | CutPaper

  /** The local variables of read_packet and the packet it fills. */
  datatype ReadState = ReadState(prc: Phase, dfl: Phase, stop: bool, text: Param, pkt: Request)

  datatype StepResult = Go(st: ReadState) | Bad(st: ReadState, error: ReadError)

  function CutLine(): string { "cortar_papel_ecf" }

  function MessageName(): string { "mensagem" }

  ghost function TypeOfTag(tag: string): PacketType {
    if exists tp: PacketType :: tp != NotTyped && tag == TypeTag(tp)
    then var tp: PacketType :| tp != NotTyped && tag == TypeTag(tp); tp
    else NotTyped
  }

  /** One turn of the phase machine on a line. */
  ghost function Step(st: ReadState, line: string): StepResult {
    var q := Qualify(line, st.dfl);
    match st.prc
    case InIdle =>
      if q == InStart then Go(st.(prc := InRequest))
      else if IEquals(line, CutLine()) then Go(st)
      else Bad(st, ExpectedStart)
    case InStop =>
      if q == InStop then Go(st.(stop := true)) else Bad(st, ExpectedStop)
    case InRequest => StepRequest(st, line, q)
    case InSsid =>
      if q != InSsid then Bad(st, ExpectedSsid)
      else Go(st.(pkt := st.pkt.(session := Drop(line, |SessionTag()|)),
                  prc := if st.pkt.tp == EndSession then InStop else InCmdid))
    case InCmdid =>
      if q != InCmdid then Bad(st, ExpectedCmdid)
      else Go(st.(pkt := st.pkt.(id := Drop(line, |CommandTag()|)), prc := InParam))
    case InParam => StepParam(st, line, q)
    case InText =>
      if q != InText then Bad(st, MessageMalformed)
      else if Contains(line, "}") then
        Go(st.(dfl := InUnknown, prc := InParam, pkt := st.pkt.(params := st.pkt.params + [st.text])))
      else Go(st.(text := st.text.(values := st.text.values + [line])))
    case _ => Bad(st, UnknownToken)
  }

  ghost function StepRequest(st: ReadState, line: string, q: Phase): StepResult {
    if q != InRequest then Bad(st, ExpectedRequest)
    else
      var pos := RFind(line, RequestSuffix());
      if pos < 0 then Bad(st, RequestNotFound)
      else
        var tp := TypeOfTag(line[..pos]);
        Go(st.(pkt := st.pkt.(tp := tp),
               prc := if tp in {BeginSession, Reset, Status} then InStop else InSsid))
  }

  ghost function StepParam(st: ReadState, line: string, q: Phase): StepResult {
    if q == InStop then Go(st.(prc := InStop, stop := true))
    else if q == InParam then
      var pos := Find(line, ":");
      if pos < 0 then Bad(st, ParamMalformed)
      else Go(st.(pkt := st.pkt.(params := st.pkt.params + [Param(line[..pos], [line[pos + 1..]])])))
    else if q == InText then
      Go(st.(text := st.text.(name := MessageName()), dfl := InText, prc := InText))
    else Bad(st, UnexpectedToken)
  }

  /** What a whole call leaves behind: the state, the exception if any, and
      whether the stream had reached its end by then. */
  datatype ReadResult = ReadResult(st: ReadState, error: Option<ReadError>, atEof: bool)

  ghost function Run(st: ReadState, lines: seq<string>): ReadResult
    requires lines != []
    decreases |lines|
  {
    match Step(st, lines[0])
    case Bad(s, e) => ReadResult(s, Some(e), |lines| == 1)
    case Go(s) =>
      if s.stop || |lines| == 1 then ReadResult(s, None, |lines| == 1) else Run(s, lines[1..])
  }

  /** A new packet read by a call that has just begun. */
  function Init(pkt: Request): ReadState {
    ReadState(InIdle, InUnknown, false, Param("", []), pkt)
  }

  // ------------------------------------------------------------ the reader

  class Stream {
    const data: string
    var pos: nat
    var eof: bool

    constructor (data: string)
      ensures Rest() == data && this.data == data
    {
      this.data, pos, eof := data, 0, false;
    }

    function Rest(): string
      reads this
    {
      if pos <= |data| then data[pos..] else ""
    }

    /** std::getline: up to the next newline, which it drops, or up to the end
        of the file, which it flags. */
    method GetLine() returns (line: string)
      modifies this
      ensures line == Lines(old(Rest()))[0]
      ensures eof <==> |Lines(old(Rest()))| == 1
      ensures !eof ==> Lines(Rest()) == Lines(old(Rest()))[1..]
    {
      ghost var rest := Rest();
      line := "";
      eof := false;
      var from := if pos <= |data| then pos else |data|;
      var i := from;
      while i < |data| && data[i] != '\n'
        invariant from <= i <= |data| && line == data[from..i] && '\n' !in line
      {
        line := line + [data[i]];
        i := i + 1;
      }
      assert rest == data[from..] && rest[..i - from] == line;
      NextLine(rest, i - from);
      hide Lines;
      if i < |data| {
        pos := i + 1;
        assert rest[i - from + 1..] == data[pos..];
      } else {
        pos := i;
        eof := true;
      }
    }
  }

  lemma NextLine(s: string, k: nat)
    requires k <= |s| && '\n' !in s[..k] && (k < |s| ==> s[k] == '\n')
    ensures Lines(s)[0] == s[..k] && (|Lines(s)| == 1 <==> k == |s|)
    ensures k < |s| ==> Lines(s)[1..] == Lines(s[k + 1..])
  {
    hide Pieces;
    FirstPiece(s, '\n', k);
  }

  ghost predicate Describes(st: ReadState, prc: Phase, dfl: Phase, stop: bool, text: PktParam, pkt: Packet)
    reads text, pkt
  {
    st == ReadState(prc, dfl, stop, text.View(), pkt.View())
  }

  method HandleRequest(line: string, q: Phase, pkt: Packet, ghost st: ReadState)
    returns (prc: Phase, error: Option<ReadError>)
    requires st.pkt == pkt.View()
    modifies pkt`tp
    ensures match StepRequest(st, line, q)
            case Bad(s, e) => error == Some(e) && pkt.View() == s.pkt
            case Go(s) => error == None && s == st.(prc := prc, pkt := pkt.View())
  {
    prc, error := InRequest, None;
    if q != InRequest {
      return prc, Some(ExpectedRequest);
    }
    var pos := RFind(line, RequestSuffix());
    if pos != -1 {
      var tag := line[..pos];
      pkt.tp := TypeFromString(tag);
      if tag != TypeTag(BeginSession) && tag != TypeTag(Reset) && tag != TypeTag(Status) {
        prc := InSsid;
      } else {
        prc := InStop;
      }
      TypeOfTagIs(tag, pkt.tp);
    } else {
      return prc, Some(RequestNotFound);
    }
  }

  lemma TypeOfTagIs(tag: string, tp: PacketType)
    requires tp != NotTyped ==> tag == TypeTag(tp)
    requires tp == NotTyped ==> forall t: PacketType :: t != NotTyped ==> tag != TypeTag(t)
    ensures TypeOfTag(tag) == tp
    ensures forall t :: t in {BeginSession, Reset, Status} ==> (tag == TypeTag(t) <==> tp == t)
  {
    forall t: PacketType | t != NotTyped && tag == TypeTag(t) ensures t == tp {
      if tp != NotTyped { TypeTagsDiffer(t, tp); }
    }
  }

  method HandleParam(line: string, q: Phase, text: PktParam, pkt: Packet, ghost st: ReadState)
    returns (prc: Phase, dfl: Phase, stop: bool, error: Option<ReadError>)
    requires Describes(st, InParam, st.dfl, st.stop, text, pkt)
    modifies text`name, pkt`params, pkt`idx
    ensures match StepParam(st, line, q)
            case Bad(s, e) => error == Some(e) && pkt.View() == s.pkt
            case Go(s) => error == None && s.stop == (st.stop || stop)
                          && s.dfl == (if prc == InText then dfl else st.dfl)
                          && s.prc == prc && s.text == text.View() && s.pkt == pkt.View()
  {
    prc, dfl, stop, error := InParam, InUnknown, false, None;
    if q != InParam && q != InStop && q != InText {
      error := Some(UnexpectedToken);
    } else if q == InStop {
      prc := InStop;
      stop := true;
    } else if q == InParam {
      var pos := Find(line, ":");
      if pos != -1 {
        var paramId := line[..pos];
        var paramVal := line[pos + 1..];
        pkt.AddPair(paramId, paramVal);
      } else {
        error := Some(ParamMalformed);
      }
    } else if q == InText {
      text.name := MessageName();
      dfl := InText;
      prc := InText;
    }
  }

  method HandleText(line: string, q: Phase, text: PktParam, pkt: Packet, ghost st: ReadState)
    returns (prc: Phase, dfl: Phase, error: Option<ReadError>)
    requires Describes(st, InText, st.dfl, st.stop, text, pkt)
    requires q == Qualify(line, st.dfl)
    modifies text`vals, text`idx, pkt`params, pkt`idx
    ensures match Step(st, line)
            case Bad(s, e) => error == Some(e) && pkt.View() == s.pkt
            case Go(s) => error == None && s.stop == st.stop
                          && s.dfl == (if prc == InParam then dfl else st.dfl)
                          && s.prc == prc && s.text == text.View() && s.pkt == pkt.View()
  {
    prc, dfl, error := InText, InText, None;
    hide Qualify;
    if q != InText {
      error := Some(MessageMalformed);
    } else if Find(line, "}") != -1 {
      dfl := InUnknown;
      prc := InParam;
      pkt.AddParam(text);
    } else {
      text.AddValue(line);
    }
  }

  /** The switch of read_packet. */
  method HandleLine(line: string, prc: Phase, dfl: Phase, stop: bool, text: PktParam, pkt: Packet, ghost st: ReadState)
    returns (prc': Phase, dfl': Phase, stop': bool, error: Option<ReadError>)
    requires Describes(st, prc, dfl, stop, text, pkt)
    modifies text, pkt
    ensures match Step(st, line)
            case Bad(s, e) => error == Some(e) && pkt.View() == s.pkt
            case Go(s) => error == None && Describes(s, prc', dfl', stop', text, pkt)
    ensures error != Some(CutPaper)
  {
    prc', dfl', stop', error := prc, dfl, stop, None;
    var q := QualifyToken(line, dfl);
    hide Qualify;
    match prc {
      case InIdle =>
        if q != InStart {
          if !IEquals(line, CutLine()) {
            if IEquals(line, CutLine()) {
              error := Some(CutPaper);
            } else {
              error := Some(ExpectedStart);
            }
          }
        } else {
          prc' := InRequest;
        }
      case InStop =>
        if q != InStop {
          error := Some(ExpectedStop);
        } else {
          stop' := true;
        }
      case InRequest =>
        prc', error := HandleRequest(line, q, pkt, st);
      case InSsid =>
        if q != InSsid {
          error := Some(ExpectedSsid);
        } else {
          pkt.session := Drop(line, |SessionTag()|);
          prc' := if pkt.tp == EndSession then InStop else InCmdid;
        }
      case InCmdid =>
        if q != InCmdid {
          error := Some(ExpectedCmdid);
        } else {
          pkt.id := Drop(line, |CommandTag()|);
          prc' := InParam;
        }
      case InParam =>
        var d, s;
        prc', d, s, error := HandleParam(line, q, text, pkt, st);
        dfl' := if prc' == InText then d else dfl;
        stop' := stop || s;
      case InText =>
        var d;
        prc', d, error := HandleText(line, q, text, pkt, st);
        dfl' := if prc' == InParam then d else dfl;
      case InUnknown => error := Some(UnknownToken);
      case InStart => error := Some(UnknownToken);
    }
  }

  /** read_packet fills the packet as Run says, and never signals a paper cut. */
  method ReadPacket(input: Stream, pkt: Packet) returns (error: Option<ReadError>)
    modifies input, pkt
    ensures var r := Run(Init(old(pkt.View())), Lines(old(input.Rest())));
            error == r.error && pkt.View() == r.st.pkt && input.eof == r.atEof
    ensures error != Some(CutPaper)
  {
    var prc, dfl, hasStop := InIdle, InUnknown, false;
    var text := new PktParam("", []);
    ghost var st := Init(pkt.View());
    ghost var lines := Lines(input.Rest());
    var again := true;
    while again
      invariant again ==> Lines(input.Rest()) == lines && Describes(st, prc, dfl, hasStop, text, pkt)
      invariant again ==> Run(st, lines) == Run(Init(old(pkt.View())), Lines(old(input.Rest())))
      invariant !again ==> ReadResult(st, None, input.eof) == Run(Init(old(pkt.View())), Lines(old(input.Rest())))
      invariant !again ==> pkt.View() == st.pkt
      decreases if again then |lines| + 1 else 0
    {
      var line := input.GetLine();
      prc, dfl, hasStop, error := HandleLine(line, prc, dfl, hasStop, text, pkt, st);
      if error != None {
        return;
      }
      again := !input.eof && !hasStop;
      st := Step(st, line).st;
      lines := if again then lines[1..] else lines;
    }
    error := None;
  }
}
