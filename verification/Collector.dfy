/** Sessions and the collector (src/session.cc, src/txtcollector.cc): one
    command file in, one answer out. */
module Collector {
  import opened Text
  import opened Packets
  import opened Reader
  import opened Writer
  import opened Grammar
  import opened EscapingCommands
  import opened CutShort
  import Rates

  class Session {
    var sessionId: string

    constructor ()
      ensures sessionId == ""
    {
      sessionId := "";
    }

    predicate Created()
      reads this
    {
      sessionId != ""
    }

    /** str_iequals against the open session. */
    predicate Match(ssid: string)
      reads this
    {
      IEquals(ssid, sessionId)
    }

    method Reset()
      modifies this
      ensures sessionId == ""
    {
      sessionId := "";
    }

    /** raw is the formatted random number, after shuffling. An open session
        keeps its identifier. */
    method Generate(raw: string) returns (id: string)
      modifies this
      ensures id == sessionId && Created()
      ensures old(Created()) ==> sessionId == old(sessionId)
      ensures !old(Created()) ==> sessionId == "sgi_id_" + ZeroFilled(raw)
    {
      if !Created() {
        var buff := "";
        var i := 0;
        while i < |raw|
          invariant 0 <= i <= |raw| && buff == ZeroFilled(raw[..i])
        {
          assert raw[..i + 1][..i] == raw[..i];
          buff := buff + [if IsSpace(raw[i]) then '0' else raw[i]];
          i := i + 1;
        }
        assert raw[..|raw|] == raw;
        sessionId := "sgi_id_" + buff;
      }
      id := sessionId;
    }
  }

  function ZeroFilled(s: string): (r: string)
    ensures |r| == |s| && forall i :: 0 <= i < |s| ==> r[i] == if IsSpace(s[i]) then '0' else s[i]
  {
    if s == "" then "" else ZeroFilled(s[..|s| - 1]) + [if IsSpace(s[|s| - 1]) then '0' else s[|s| - 1]]
  }

  // -------------------------------------------------------------- history

  /** How a command file was taken: its reading failed, or it held a packet. */
  datatype Kind = Failed | Typed(tp: PacketType)

  /** One command and its answer: the session the request names, the code
      answered and the session the answer carries. */
  datatype Entry = Entry(kind: Kind, asked: string, code: int, given: string)

  ghost predicate Opens(e: Entry) {
    e.kind == Typed(BeginSession) && e.code == 0
  }

  ghost predicate Releases(e: Entry) {
    e.kind == Typed(PacketType.Reset) || (e.kind == Typed(EndSession) && e.code == 0)
  }

  /** The session open after one more entry. */
  ghost function After(holder: string, e: Entry): string {
    if Opens(e) then e.given else if Releases(e) then "" else holder
  }

  /** The session open after a history. */
  ghost function Holder(log: seq<Entry>): string {
    if log == [] then "" else After(Holder(log[..|log| - 1]), log[|log| - 1])
  }

  /** The code and the session each command is answered, given the session open
      before it. The code of an execute request is the broker's. */
  ghost predicate RightAnswer(holder: string, e: Entry) {
    match e.kind
    case Failed => e.code == 1 && e.given == holder
    case Typed(BeginSession) =>
      if holder == "" then e.code == 0 && e.given != "" else e.code == -1 && e.given == ""
    case Typed(EndSession) =>
      && e.code == (if holder == "" then -4 else if IEquals(e.asked, holder) then 0 else -2)
      && e.given == e.asked
    case Typed(Status) => e.code == (if holder == "" then 501 else 500) && e.given == holder
    case Typed(Reset) => e.code == 0 && e.given == e.asked
    case Typed(NotTyped) => e.code == 1 && e.given == ""
    case Typed(Execut) => e.given == e.asked && (e.code == 0 || e.code == 1)
  }

  ghost predicate Conforms(log: seq<Entry>) {
    forall i :: 0 <= i < |log| ==> RightAnswer(Holder(log[..i]), log[i])
  }

  // ------------------------------------------------------------ the broker

  class Broker {
    ghost var calls: seq<Request>

    constructor ()
      ensures calls == []
    {
      calls := [];
    }

    /** trade. An exception of the program becomes the answer 1; another one is
        not caught, and as trade must not let any out it ends the process. What
        else a command answers is the printer's affair. */
    method Trade(input: Packet, out: ResponsePacket) returns (ended: bool)
      requires out.base != input
      modifies this, input`idx, out, out.base
      ensures calls == old(calls) + [old(input.View())]
      ensures ended <==> Escapes(old(input.View()))
      ensures out.base.tp == input.tp && out.base.id == input.id && out.base.session == old(out.base.session)
      ensures old(SingleValued(out.base.params)) ==> SingleValued(out.base.params)
      ensures out.code == 0 || out.code == 1
    {
      ghost var req := input.View();
      calls := calls + [input.View()];
      out.base.tp := input.tp;
      out.base.id := input.id;
      out.code := 0;
      var v := Dispatch(input);
      ended := v == Escaped;
      AddAnswers(out.base);
      if v == Refused {
        out.code := 1;
        var what: string := *;
        out.base.AddPair("msg", what);
      }
    }

    /** The switch over the commands. */
    method Dispatch(input: Packet) returns (v: Verdict)
      modifies input`idx
      ensures v == Escaped <==> Escapes(input.View())
    {
      hide RateEscapes;
      hide SaleEscapes;
      hide ReadingEscapes;
      if input.id == "set_aliquota" {
        v := SetAliquota(input);
      } else if input.id == "snd_vende_item" {
        v := VendeItem(input);
      } else if input.id == "memoria_fiscal" {
        v := MemoriaFiscal(input);
      } else {
        var ok: bool := *;
        v := if ok then Accepted else Refused;
      }
    }

    /** The parameters a command answers with. */
    method AddAnswers(base: Packet)
      modifies base`params, base`idx
      ensures old(SingleValued(base.params)) ==> SingleValued(base.params)
    {
      var pairs: nat := *;
      while pairs > 0
        invariant old(SingleValued(base.params)) ==> SingleValued(base.params)
      {
        var key: string, val: string := *, *;
        base.AddPair(key, val);
        pairs := pairs - 1;
      }
    }
  }

  datatype CollectorCode = Running | Abort | Ended

  class TxtCollector {
    const workDir: string
    const broker: Broker
    const session: Session
    var failure: bool
    var mute: bool
    var cmdfile: string
    var packet: Packet
    ghost var log: seq<Entry>
    ghost var written: seq<(string, Answer)>

    ghost predicate Valid()
      reads this, session
    {
      session.sessionId == Holder(log) && Conforms(log)
    }

    constructor (workDir: string)
      ensures Valid() && log == [] && written == [] && broker.calls == []
      ensures fresh(broker) && fresh(session) && this.workDir == workDir
    {
      this.workDir := workDir;
      broker := new Broker();
      session := new Session();
      failure, mute, cmdfile := false, false, "";
      packet := new Packet(NotTyped);
      log, written := [], [];
    }

    /** The session part of callback. */
    method Answer(pkt: ResponsePacket, raw: string)
      requires !failure && pkt.code == 0 && pkt.base.session == "" && packet.tp != Execut && pkt.base != packet
      modifies pkt, pkt.base, session
      ensures RightAnswer(old(session.sessionId), Entry(Typed(packet.tp), packet.session, pkt.code, pkt.base.session))
      ensures session.sessionId
           == After(old(session.sessionId), Entry(Typed(packet.tp), packet.session, pkt.code, pkt.base.session))
      ensures pkt.base.tp == old(pkt.base.tp)
      ensures old(SingleValued(pkt.base.params)) ==> SingleValued(pkt.base.params)
    {
      match packet.tp {
        case Execut =>
        case BeginSession =>
          if !session.Created() {
            pkt.base.session := session.Generate(raw);
            pkt.code := 0;
          } else {
            pkt.code := -1;
            pkt.base.AddPair("msg", "ECF ja esta em uso");
          }
        case EndSession =>
          pkt.base.session := packet.session;
          if !session.Created() {
            pkt.code := -4;
            pkt.base.AddPair("msg", "Nao ha uma sessao aberta");
          } else {
            if session.Match(packet.session) {
              session.Reset();
              pkt.code := 0;
            } else {
              pkt.code := -2;
              pkt.base.AddPair("msg", "Identificador de sessao invalido");
            }
          }
        case Status =>
          if session.Created() {
            pkt.base.session := session.sessionId;
            pkt.code := 500;
            pkt.base.AddPair("msg", "Sessao ja esta aberta");
          } else {
            pkt.code := 501;
            pkt.base.AddPair("msg", "Nao ha uma sessao aberta");
          }
        case Reset =>
          session.Reset();
          pkt.base.session := packet.session;
          pkt.code := 0;
        case NotTyped =>
          pkt.code := 1;
          pkt.base.AddPair("msg", "Tipo de pacote invalido!");
      }
    }

    /** Whether the packet that was read ends the process. */
    ghost predicate Ends()
      reads this, packet
    {
      !failure && packet.tp == Execut && Escapes(packet.View())
    }

    /** The response to the packet that was read, unless that ends the process.
        raw feeds a new session identifier. */
    method Respond(raw: string) returns (pkt: ResponsePacket, ended: bool)
      modifies session, broker, packet`idx
      ensures ended <==> Ends()
      ensures ended ==> session.sessionId == old(session.sessionId)
      ensures pkt.base.tp == packet.tp && SingleValued(pkt.base.params)
      ensures !ended ==> RightAnswer(old(session.sessionId), EntryOf(pkt))
      ensures !ended ==> session.sessionId == After(old(session.sessionId), EntryOf(pkt))
      ensures broker.calls
           == old(broker.calls) + if !failure && packet.tp == Execut then [packet.View()] else []
    {
      hide Escapes;
      pkt := new ResponsePacket();
      ended := false;
      pkt.base.tp := packet.tp;
      if !failure {
        if packet.tp == Execut {
          pkt.base.session := packet.session;
          pkt.base.id := packet.id;
          ended := broker.Trade(packet, pkt);
        } else {
          Answer(pkt, raw);
        }
      } else {
        pkt.base.session := session.sessionId;
        pkt.code := 1;
        pkt.base.AddPair("msg", "Erro ao processar pacote de comando.");
      }
    }

    ghost function EntryOf(pkt: ResponsePacket): Entry
      reads this, packet, pkt, pkt.base
    {
      Entry(if failure then Failed else Typed(packet.tp), packet.session, pkt.code, pkt.base.session)
    }

    /** One answer, and one writer call unless the collector is muted; or the end
        of the process, and neither. */
    method Callback(raw: string) returns (code: CollectorCode)
      requires Valid()
      modifies `log, `written, session, broker, packet`idx
      ensures Valid()
      ensures code == Ended <==> Ends()
      ensures code == Ended ==> log == old(log) && written == old(written)
      ensures code != Ended ==>
        && |log| == |old(log)| + 1 && log[..|old(log)|] == old(log)
        && log[|old(log)|].kind == (if failure then Failed else Typed(packet.tp))
        && log[|old(log)|].asked == packet.session
      ensures mute ==> written == old(written)
      ensures code != Ended && !mute ==>
        && |written| == |old(written)| + 1 && written[..|old(written)|] == old(written)
        && Writes(written[|old(written)|], cmdfile, packet.tp, log[|old(log)|])
      ensures broker.calls
           == old(broker.calls) + if !failure && packet.tp == Execut then [packet.View()] else []
    {
      hide Conforms;
      hide Holder;
      hide RightAnswer;
      hide After;
      hide Escapes;
      code := Running;
      var pkt, ended := Respond(raw);
      if ended {
        return Ended;
      }
      ghost var e := EntryOf(pkt);
      HistoryGrows(log, e);
      log := log + [e];
      if !mute {
        written := written + [(cmdfile, pkt.View())];
        var ok: bool := *;
        if !ok {
          code := Abort;
        }
      }
    }

    /** Reading the command file. */
    method Load(fpath: string, data: string) returns (ghost r: ReadResult)
      modifies `failure, `mute, `cmdfile, `packet
      ensures exists garbage :: r == Run(Init(New(garbage)), Lines(data))
      ensures fresh(packet) && packet.View() == r.st.pkt
      ensures !mute && cmdfile == fpath
      ensures failure <==> r.error.Some? && !r.atEof
    {
      hide Run;
      var failed, muted := false, false;
      var stream := new Stream(data);
      var garbage: PacketType := *;
      packet := new Packet(garbage);
      r := Run(Init(New(garbage)), Lines(data));
      var error := ReadPacket(stream, packet);
      if error == None {
        cmdfile := fpath;
      } else if error == Some(CutPaper) {
        failed := true;
        muted := true;
      } else {
        var fim := stream.eof;
        cmdfile := fpath;
        if !fim {
          failed := true;
        }
      }
      failure, mute := failed, muted;
    }

    /** accept, for a command file that is there and can be deleted. It is never
        muted. It answers once, unless the file holds a request that ends the
        process: then there is no answer, and the file is gone. The answer reports
        a failed reading exactly when the reader rejected a line that ended in a
        newline: an error at the very end of the file is passed over and what was
        read is carried out. */
    method Accept(name: string, data: string, raw: string) returns (code: CollectorCode, ghost r: ReadResult)
      requires Valid()
      modifies this, session, broker
      ensures Valid()
      ensures exists garbage :: r == Run(Init(New(garbage)), Lines(data))
      ensures code == Ended <==> KindOf(r) == Typed(Execut) && Escapes(r.st.pkt)
      ensures code == Ended ==> log == old(log) && written == old(written)
      ensures code != Ended ==>
        && |log| == |old(log)| + 1 && log[..|old(log)|] == old(log)
        && log[|old(log)|].kind == KindOf(r) && log[|old(log)|].asked == r.st.pkt.session
        && |written| == |old(written)| + 1 && written[..|old(written)|] == old(written)
        && Writes(written[|old(written)|], workDir + name, r.st.pkt.tp, log[|old(log)|])
      ensures broker.calls
           == old(broker.calls) + if KindOf(r) == Typed(Execut) then [r.st.pkt] else []
    {
      hide Run;
      hide Conforms;
      hide Holder;
      hide Escapes;
      r := Load(workDir + name, data);
      code := Callback(raw);
      cmdfile := "";
    }
  }

  /** A writer call for an entry of the history: it goes to the path, with the
      type, code and session of the answer and parameters of one value each. */
  ghost predicate Writes(call: (string, Answer), path: string, tp: PacketType, e: Entry) {
    && call.0 == path && call.1.tp == tp && call.1.code == e.code && call.1.session == e.given
    && SingleValued(call.1.params)
  }

  lemma HistoryGrows(log: seq<Entry>, e: Entry)
    requires Conforms(log) && RightAnswer(Holder(log), e)
    ensures Conforms(log + [e]) && Holder(log + [e]) == After(Holder(log), e)
  {
    var l := log + [e];
    assert l[..|l| - 1] == log;
    forall i | 0 <= i < |l| ensures RightAnswer(Holder(l[..i]), l[i]) {
      if i < |log| { assert l[..i] == log[..i]; }
    }
  }

  lemma {:induction false} HeldUntilReleased(log: seq<Entry>, i: nat, m: nat)
    requires Conforms(log) && i < m <= |log| && Opens(log[i])
    requires forall k :: i < k < m ==> !Releases(log[k])
    ensures Holder(log[..m]) != ""
  {
    hide *;
    HolderStep(log, m - 1);
    if m > i + 1 {
      HeldUntilReleased(log, i, m - 1);
    }
    StaysHeld(Holder(log[..m - 1]), log[m - 1]);
  }

  lemma StaysHeld(holder: string, e: Entry)
    requires RightAnswer(holder, e) && (Opens(e) || (holder != "" && !Releases(e)))
    ensures After(holder, e) != ""
  {
    hide IEquals;
  }

  /** The session lock: between two openings that were both answered 0 some
      entry released the session, an end answered 0 or a reset. */
  lemma SessionLock(log: seq<Entry>, i: nat, j: nat)
    requires Conforms(log) && i < j < |log| && Opens(log[i]) && Opens(log[j])
    ensures exists k :: i < k < j && Releases(log[k])
  {
    assert RightAnswer(Holder(log[..j]), log[j]);
    if forall k :: i < k < j ==> !Releases(log[k]) {
      HeldUntilReleased(log, i, j);
    }
  }

  /** Entry i opened a session and up to j no entry opened or released one. */
  ghost predicate OpenSince(log: seq<Entry>, i: nat, j: nat) {
    i < j <= |log| && Opens(log[i]) && forall k :: i < k < j ==> !Opens(log[k]) && !Releases(log[k])
  }

  /** An end is answered 0 exactly when some session was opened, is the one the
      request names and has not been released or replaced since. */
  lemma EndNeedsItsSession(log: seq<Entry>, j: nat)
    requires Conforms(log) && j < |log| && log[j].kind == Typed(EndSession)
    ensures log[j].code == 0 <==> exists i: nat :: OpenSince(log, i, j) && IEquals(log[j].asked, log[i].given)
  {
    assert RightAnswer(Holder(log[..j]), log[j]);
    hide IEquals;
    hide OpenSince;
    LastOpening(log, j);
    forall i: nat, i': nat | OpenSince(log, i, j) && OpenSince(log, i', j) ensures i == i' {
      OnlyOneOpening(log, i, i', j);
    }
  }

  lemma OnlyOneOpening(log: seq<Entry>, i: nat, i': nat, j: nat)
    requires OpenSince(log, i, j) && OpenSince(log, i', j)
    ensures i == i'
  {
    hide Opens;
  }

  lemma OpenSinceStep(log: seq<Entry>, i: nat, j: nat)
    requires j < |log|
    ensures OpenSince(log, i, j + 1) <==>
            (i == j && Opens(log[j])) || (OpenSince(log, i, j) && !Opens(log[j]) && !Releases(log[j]))
  {
    hide Opens;
    hide Releases;
  }

  lemma HolderStep(log: seq<Entry>, j: nat)
    requires Conforms(log) && j < |log|
    ensures RightAnswer(Holder(log[..j]), log[j])
    ensures Holder(log[..j + 1]) == After(Holder(log[..j]), log[j])
  {
    hide RightAnswer;
    hide After;
    assert log[..j + 1][..j] == log[..j];
  }

  lemma {:induction false} LastOpening(log: seq<Entry>, j: nat)
    requires Conforms(log) && j <= |log|
    ensures Holder(log[..j]) != "" ==> exists i: nat :: OpenSince(log, i, j) && Holder(log[..j]) == log[i].given
    ensures Holder(log[..j]) == "" ==> forall i: nat :: !OpenSince(log, i, j)
  {
    hide RightAnswer;
    hide Conforms;
    hide Releases;
    hide Opens;
    if j > 0 {
      LastOpening(log, j - 1);
      HolderStep(log, j - 1);
      hide Holder;
      forall i: nat
        ensures OpenSince(log, i, j) <==>
                || (i == j - 1 && Opens(log[j - 1]))
                || (OpenSince(log, i, j - 1) && !Opens(log[j - 1]) && !Releases(log[j - 1]))
      {
        OpenSinceStep(log, i, j - 1);
      }
      hide OpenSince;
      if Opens(log[j - 1]) {
        OpeningGives(log, j - 1);
        assert OpenSince(log, j - 1, j);
      } else if !Releases(log[j - 1]) && Holder(log[..j]) != "" {
        var i: nat :| OpenSince(log, i, j - 1) && Holder(log[..j - 1]) == log[i].given;
        assert OpenSince(log, i, j);
      }
    }
  }

  /** Some session has been opened and not released since. */
  ghost predicate SessionOpen(log: seq<Entry>, j: nat) {
    exists i: nat :: OpenSince(log, i, j)
  }

  lemma HolderIsOpen(log: seq<Entry>, j: nat)
    requires Conforms(log) && j <= |log|
    ensures Holder(log[..j]) != "" <==> SessionOpen(log, j)
    ensures forall i: nat :: OpenSince(log, i, j) ==> Holder(log[..j]) == log[i].given
  {
    LastOpening(log, j);
    hide OpenSince;
    hide Holder;
    forall i: nat, i': nat | OpenSince(log, i, j) && OpenSince(log, i', j) ensures i == i' {
      OnlyOneOpening(log, i, i', j);
    }
  }

  /** What each kind of command is answered, told from the openings and releases
      before it: a begin is refused, and a status is 500, exactly while a session is
      open; an end is -4 without one, and with one -2 exactly if it names another. */
  lemma AnswersFollowHistory(log: seq<Entry>, j: nat)
    requires Conforms(log) && j < |log|
    ensures var e, open := log[j], exists i: nat :: OpenSince(log, i, j);
            && (e.kind == Typed(Status) ==> e.code == if open then 500 else 501)
            && (e.kind == Typed(BeginSession) ==> e.code == (if open then -1 else 0) && (e.given == "" <==> open))
            && (e.kind == Typed(EndSession) ==> (e.code == -4 <==> !open) && e.given == e.asked)
            && (e.kind == Typed(PacketType.Reset) ==> e.code == 0 && e.given == e.asked)
            && (e.kind == Typed(NotTyped) ==> e.code == 1 && e.given == "")
            && (e.kind == Failed ==> e.code == 1)
            && (e.kind == Typed(Status) || e.kind == Failed ==> (e.given == "" <==> !open))
    ensures forall i: nat :: OpenSince(log, i, j) ==>
      var e, open := log[j], log[i].given;
      && (e.kind == Typed(EndSession) ==>
            e.code == if Upper(Trim(e.asked)) == Upper(Trim(open)) then 0 else -2)
      && (e.kind == Typed(Status) || e.kind == Failed ==> e.given == open)
  {
    HolderIsOpen(log, j);
    HolderStep(log, j);
    IEqualsIsFoldEquality(log[j].asked, Holder(log[..j]));
    hide OpenSince;
    hide Holder;
    hide Conforms;
    hide IEquals;
    hide Trim;
    hide After;
  }

  lemma OpeningGives(log: seq<Entry>, i: nat)
    requires Conforms(log) && i < |log| && Opens(log[i])
    ensures log[i].given != ""
  {
    assert RightAnswer(Holder(log[..i]), log[i]);
  }

  /** An answered command changes the open session exactly if it is a begin while
      none is open, an end that names the open one, or a reset of an open one. */
  lemma OnlySessionRequestsMoveIt(log: seq<Entry>, e: Entry)
    requires Conforms(log + [e])
    ensures var h := Holder(log);
            Holder(log + [e]) != h <==>
              || (e.kind == Typed(BeginSession) && h == "")
              || (e.kind == Typed(EndSession) && h != "" && IEquals(e.asked, h))
              || (e.kind == Typed(PacketType.Reset) && h != "")
  {
    var l := log + [e];
    assert l[..|log|] == log && l[|log|] == e;
    assert RightAnswer(Holder(l[..|log|]), l[|log|]);
    hide IEquals;
  }

  lemma SameStep(h: string, a: Entry, b: Entry)
    requires RightAnswer(h, a) && RightAnswer(h, b) && a.kind == b.kind && a.asked == b.asked
    requires a.kind == Typed(Execut) ==> a.code == b.code
    requires Opens(a) && Opens(b) ==> a.given == b.given
    ensures a == b && After(h, a) == After(h, b)
  {
    hide IEquals;
  }

  /** Histories with the same requests, the same broker codes and the same fresh
      identifiers are the same: the history determines every answer. */
  lemma {:induction false} HistoryDeterminesCodes(a: seq<Entry>, b: seq<Entry>, n: nat)
    requires Conforms(a) && Conforms(b) && n <= |a| == |b|
    requires forall i :: 0 <= i < |a| ==> a[i].kind == b[i].kind && a[i].asked == b[i].asked
    requires forall i :: 0 <= i < |a| && a[i].kind == Typed(Execut) ==> a[i].code == b[i].code
    requires forall i :: 0 <= i < |a| && Opens(a[i]) && Opens(b[i]) ==> a[i].given == b[i].given
    ensures Holder(a[..n]) == Holder(b[..n])
    ensures forall i :: 0 <= i < n ==> a[i] == b[i]
  {
    hide Conforms;
    hide RightAnswer;
    hide After;
    hide Opens;
    if n == 0 {
      assert a[..n] == [] && b[..n] == [];
    } else {
      HistoryDeterminesCodes(a, b, n - 1);
      HolderStep(a, n - 1);
      HolderStep(b, n - 1);
      hide Holder;
      SameStep(Holder(a[..n - 1]), a[n - 1], b[n - 1]);
    }
  }

  // --------------------------------------------- files that end before their type

  /** How a file counts, given how reading it ended. */
  ghost function KindOf(r: ReadResult): Kind {
    if r.error.Some? && !r.atEof then Failed else Typed(r.st.pkt.tp)
  }

  ghost function KindFrom(garbage: PacketType, lines: seq<string>): Kind
    requires lines != []
  {
    KindOf(Run(Init(New(garbage)), lines))
  }

  lemma KindIsDeterminedByReading(lines: seq<string>)
    requires lines != []
    ensures (forall a, b :: KindFrom(a, lines) == KindFrom(b, lines)) <==>
            var r := Run(Init(New(NotTyped)), lines); TypeRead(r.st) || (r.error.Some? && !r.atEof)
  {
    hide Run;
    forall a: PacketType, b: PacketType
      ensures var r, q := Run(Init(New(a)), lines), Run(Init(New(b)), lines);
              && r.error == q.error && r.atEof == q.atEof && Twins(r.st, q.st)
              && (!TypeRead(r.st) ==> r.st.pkt.tp == a && q.st.pkt.tp == b)
    {
      StartsAreTwins(a, b);
      StartsAreTwins(b, a);
      RunOfTwins(Init(New(a)), Init(New(b)), lines);
    }
    var r := Run(Init(New(NotTyped)), lines);
    if !TypeRead(r.st) && !(r.error.Some? && !r.atEof) {
      assert KindFrom(NotTyped, lines) != KindFrom(PacketType.Reset, lines);
    }
  }

  /** How a file counts does not depend on what the memory of the new packet held
      exactly if its first lines settle it: cut lines, a begin line and a request
      tag, or a line that is rejected before the last. */
  lemma KindIsDeterminedIff(lines: seq<string>)
    requires lines != []
    ensures (forall a, b :: KindFrom(a, lines) == KindFrom(b, lines)) <==> SettlesType(lines)
  {
    hide *;
    StartIs(NotTyped);
    KindIsDeterminedByReading(lines);
    FirstLinesDecide(Init(New(NotTyped)), lines);
  }

  /** A file is answered as a failed one exactly if its lines but the last are the
      beginning of no request. */
  lemma FailsIff(garbage: PacketType, lines: seq<string>)
    requires lines != []
    ensures KindFrom(garbage, lines) == Failed <==> |lines| > 1 && !Viable(lines[..|lines| - 1])
  {
    RejectedIff(garbage, lines);
    hide Run;
    hide Viable;
  }

  /** An empty command file counts as whatever the memory held: it may reset the
      session or reach the broker. */
  lemma EmptyFileIsAnything(garbage: PacketType)
    ensures KindFrom(garbage, Lines("")) == Typed(garbage)
  {
    hide *;
    OneEmptyLine();
    StartIs(garbage);
    EmptyLineFails(Init(New(garbage)));
    RunUnfolds(Init(New(garbage)), [""]);
    KindOfFailure(garbage);
  }

  lemma OneEmptyLine()
    ensures Lines("") == [""]
  {
    PiecesCons("", '\n', "");
  }

  lemma KindOfFailure(garbage: PacketType)
    ensures KindFrom(garbage, [""]) == KindOf(Run(Init(New(garbage)), [""]))
    ensures forall st, e :: KindOf(ReadResult(st, Some(e), true)) == Typed(st.pkt.tp)
  {
    hide Run;
  }

  // ------------------------------------------------------ files without an answer

  function RateCommand(session: string, value: string): Command {
    Command(Execut, session, "set_aliquota", [Item.Pair("aliquota", value)])
  }

  lemma RateParam(session: string, value: string)
    ensures Denote(RateCommand(session, value))
         == Request(Execut, session, "set_aliquota", [Param("aliquota", [value])])
  {
    DenoteFirst([], [Item.Pair("aliquota", value)], []);
  }

  lemma RateIsFound(value: string)
    ensures Lookup([Param("aliquota", [value])], "aliquota") == Some(Param("aliquota", [value]))
  {
    IEqualsIsFoldEquality("aliquota", "aliquota");
    LookupReturnsFirstMatch([Param("aliquota", [value])], "aliquota", 0);
  }

  lemma RateEscapesIff(session: string, value: string)
    ensures Escapes(Request(Execut, session, "set_aliquota", [Param("aliquota", [value])])) <==> RunsOff(value)
  {
    RateIsFound(value);
    hide Lookup;
    hide RunsOff;
  }

  /** A command file that programs a rate is a request that is carried out, and it
      is left without an answer exactly if the text of the rate runs off. */
  lemma RateFileIsAnsweredIff(garbage: PacketType, cuts: seq<string>, session: string, value: string, tail: string)
    requires var c := RateCommand(session, value);
             WellFormed(c) && AllCuts(cuts) && NewlineFree(cuts + Print(c))
    ensures var r := Run(Init(New(garbage)), Lines(Unlines(cuts + Print(RateCommand(session, value))) + tail));
            KindOf(r) == Typed(Execut) && (Escapes(r.st.pkt) <==> Rates.Parsed(value) == Rates.Bad(Rates.OutOfRange))
  {
    hide *;
    var c := RateCommand(session, value);
    TextRoundTrip(garbage, cuts, c, tail);
    RateParam(session, value);
    RateEscapesIff(session, value);
    RunsOffIff(value);
    CompleteIsTyped(Run(Init(New(garbage)), Lines(Unlines(cuts + Print(c)) + tail)));
  }

  lemma CompleteIsTyped(r: ReadResult)
    ensures Complete(r) ==> KindOf(r) == Typed(r.st.pkt.tp)
  {
  }

  /** Two such texts. */
  lemma TextsThatRunOff()
    ensures RunsOff("T:00:1") && RunsOff(":00:1700") && !RunsOff("T:00:1700")
  {
    var short, blank := "T:00:1", ":00:1700";
    assert short[1] == ':' && short[4] == ':' && short[4..][0] == ':';
    assert blank[0] == ':' && blank[3] == ':';
    assert "T:00:1700"[7..] == "00";
  }
}
