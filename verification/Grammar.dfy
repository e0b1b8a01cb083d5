/** The language of requests, written down apart from the reader, and the proof
    that the reader accepts exactly that language and yields what it denotes. */
module Grammar {
  import opened Text
  import opened Packets
  import opened Tags
  import opened Reader

  /** A parameter of an execute request: key:value, or a message block with the
      lines that open and close it. */
  datatype Item = Pair(key: string, value: string) | Block(open: string, body: seq<string>, close: string)

  datatype Command = Command(tp: PacketType, session: string, id: string, items: seq<Item>)

  ghost predicate WellFormedItem(it: Item) {
    match it
    case Pair(key, value) => ':' !in key && key != "session_id" && key != "command_id"
    case Block(open, body, close) =>
      && TagFree(open) && !Contains(open, ":") && Contains(open, MessageTag())
      && (forall i :: 0 <= i < |body| ==> TagFree(body[i]) && !Contains(body[i], "}"))
      && TagFree(close) && Contains(close, "}")
  }

  ghost predicate WellFormed(c: Command) {
    && c.tp != NotTyped
    && (c.tp != Execut ==> c.id == "" && c.items == [])
    && (c.tp != Execut && c.tp != EndSession ==> c.session == "")
    && (forall i :: 0 <= i < |c.items| ==> WellFormedItem(c.items[i]))
  }

  function PrintItem(it: Item): seq<string> {
    match it
    case Pair(key, value) => [key + ":" + value]
    case Block(open, body, close) => [open] + body + [close]
  }

  function PrintItems(items: seq<Item>): seq<string> {
    if items == [] then [] else PrintItem(items[0]) + PrintItems(items[1..])
  }

  /** The lines of a request. */
  function Print(c: Command): seq<string> {
    [BeginTag(), RequestTag(c.tp)]
    + (if c.tp == Execut || c.tp == EndSession then [SessionTag() + c.session] else [])
    + (if c.tp == Execut then [CommandTag() + c.id] + PrintItems(c.items) else [])
    + [EndTag()]
  }

  /** The parameters a list of items stands for. Message lines pile up: a block
      yields the bodies of all blocks so far, acc being those before. */
  function DenoteItems(items: seq<Item>, acc: seq<string>): seq<Param> {
    if items == [] then []
    else match items[0]
      case Pair(key, value) => [Param(key, [value])] + DenoteItems(items[1..], acc)
      case Block(_, body, _) => [Param(MessageName(), acc + body)] + DenoteItems(items[1..], acc + body)
  }

  function Denote(c: Command): Request {
    Request(c.tp, c.session, c.id, DenoteItems(c.items, []))
  }

  predicate AllCuts(ls: seq<string>) {
    forall i :: 0 <= i < |ls| ==> IEquals(ls[i], CutLine())
  }

  /** The five requests, as they stand in a file. */
  lemma RequestTexts(s: string, id: string, key: string, value: string)
    ensures Print(Command(BeginSession, "", "", []))
         == ["<ecf_sgi_begin>", "ecf_begin_session_request", "<ecf_sgi_end>"]
    ensures Print(Command(EndSession, s, "", []))
         == ["<ecf_sgi_begin>", "ecf_end_session_request", "session_id:" + s, "<ecf_sgi_end>"]
    ensures Print(Command(Status, "", "", [])) == ["<ecf_sgi_begin>", "ecf_status_request", "<ecf_sgi_end>"]
    ensures Print(Command(PacketType.Reset, "", "", [])) == ["<ecf_sgi_begin>", "ecf_reset_request", "<ecf_sgi_end>"]
    ensures Print(Command(Execut, s, id, [Pair(key, value)]))
         == ["<ecf_sgi_begin>", "ecf_execute_request", "session_id:" + s, "command_id:" + id, key + ":" + value,
             "<ecf_sgi_end>"]
  {
    assert [Pair(key, value)][1..] == [];
    assert PrintItems([Pair(key, value)]) == [key + ":" + value] + PrintItems([]);
    TagTexts();
    hide TypeTag;
    hide RequestTag;
    hide RequestSuffix;
    hide BeginTag;
    hide EndTag;
  }

  lemma TagTexts()
    ensures RequestTag(BeginSession) == "ecf_begin_session_request" && RequestTag(Execut) == "ecf_execute_request"
    ensures RequestTag(EndSession) == "ecf_end_session_request" && RequestTag(Status) == "ecf_status_request"
    ensures RequestTag(PacketType.Reset) == "ecf_reset_request"
    ensures BeginTag() == "<ecf_sgi_begin>" && EndTag() == "<ecf_sgi_end>"
    ensures SessionTag() == "session_id:" && CommandTag() == "command_id:"
  {
  }

  /** A request that came through its end tag without an exception. */
  predicate Complete(r: ReadResult) {
    r.error == None && r.st.stop
  }

  function New(garbage: PacketType): Request {
    Request(garbage, "", "", [])
  }

  // --------------------------------------------- the reader reads what is printed

  lemma QualifyTagFree(line: string, dfl: Phase)
    requires TagFree(line)
    ensures Qualify(line, dfl) ==
            if Contains(line, ":") then (if dfl != InText then InParam else dfl)
            else if Contains(line, MessageTag()) then InText else dfl
  {
  }

  lemma RunStep(st: ReadState, line: string, rest: seq<string>)
    requires Step(st, line).Go? && !Step(st, line).st.stop && rest != []
    ensures Run(st, [line] + rest) == Run(Step(st, line).st, rest)
  {
    hide Step;
    var ls := [line] + rest;
    assert ls[0] == line && ls[1..] == rest;
  }

  lemma {:induction false} RunBody(st: ReadState, body: seq<string>, rest: seq<string>)
    requires st.prc == InText && st.dfl == InText && !st.stop && rest != []
    requires forall i :: 0 <= i < |body| ==> TagFree(body[i]) && !Contains(body[i], "}")
    ensures Run(st, body + rest) == Run(st.(text := st.text.(values := st.text.values + body)), rest)
    decreases |body|
  {
    hide *;
    if body == [] {
      assert body + rest == rest && st.text.values + body == st.text.values;
    } else {
      var line := body[0];
      var s := st.(text := st.text.(values := st.text.values + [line]));
      StepLine(st, line);
      RunStep(st, line, body[1..] + rest);
      RunBody(s, body[1..], rest);
      assert body + rest == [line] + (body[1..] + rest);
      assert st.text.values + body == s.text.values + body[1..];
    }
  }

  lemma StepLine(st: ReadState, line: string)
    requires st.prc == InText && st.dfl == InText && TagFree(line) && !Contains(line, "}")
    ensures Step(st, line) == Go(st.(text := st.text.(values := st.text.values + [line])))
  {
    QualifyTagFree(line, InText);
    hide Qualify;
    hide Contains;
    hide TagFree;
  }

  lemma StepPair(st: ReadState, key: string, value: string)
    requires st.prc == InParam && st.dfl == InUnknown
    requires WellFormedItem(Pair(key, value))
    ensures Step(st, key + ":" + value) == Go(st.(pkt := st.pkt.(params := st.pkt.params + [Param(key, [value])])))
  {
    var line := key + ":" + value;
    QualifyPair(key, value);
    QualifyTagFree(line, InUnknown);
    hide Qualify;
    assert line[..|key|] == key && line[|key| + 1..] == value;
  }

  lemma StepOpen(st: ReadState, open: string)
    requires st.prc == InParam && st.dfl == InUnknown
    requires TagFree(open) && !Contains(open, ":") && Contains(open, MessageTag())
    ensures Step(st, open) == Go(st.(text := st.text.(name := MessageName()), dfl := InText, prc := InText))
  {
    QualifyTagFree(open, InUnknown);
    hide Qualify;
  }

  lemma StepClose(st: ReadState, close: string)
    requires st.prc == InText && st.dfl == InText
    requires TagFree(close) && Contains(close, "}")
    ensures Step(st, close)
         == Go(st.(dfl := InUnknown, prc := InParam, pkt := st.pkt.(params := st.pkt.params + [st.text])))
  {
    QualifyTagFree(close, InText);
    hide Qualify;
  }

  lemma StepEnd(st: ReadState)
    requires st.prc == InParam || st.prc == InStop
    ensures Step(st, EndTag()) == Go(st.(prc := InStop, stop := true))
  {
    QualifyTags(Reset, "", st.dfl);
    hide Qualify;
    hide EndTag;
  }

  function AfterBlock(st: ReadState, body: seq<string>): ReadState {
    var text := Param(MessageName(), st.text.values + body);
    st.(text := text, pkt := st.pkt.(params := st.pkt.params + [text]))
  }

  function AfterItems(st: ReadState, items: seq<Item>): (r: ReadState)
    ensures r.prc == st.prc && r.dfl == st.dfl && r.stop == st.stop
    ensures r.pkt == st.pkt.(params := st.pkt.params + DenoteItems(items, st.text.values))
    decreases |items|
  {
    if items == [] then
      assert st.pkt.params + DenoteItems(items, st.text.values) == st.pkt.params;
      st
    else match items[0]
      case Pair(key, value) =>
        DenoteFirst(st.pkt.params, items, st.text.values);
        AfterItems(st.(pkt := st.pkt.(params := st.pkt.params + [Param(key, [value])])), items[1..])
      case Block(_, body, _) =>
        DenoteFirst(st.pkt.params, items, st.text.values);
        AfterItems(AfterBlock(st, body), items[1..])
  }

  lemma DenoteFirst(ps: seq<Param>, items: seq<Item>, acc: seq<string>)
    requires items != []
    ensures var it := items[0];
            ps + DenoteItems(items, acc)
            == if it.Pair? then ps + [Param(it.key, [it.value])] + DenoteItems(items[1..], acc)
               else ps + [Param(MessageName(), acc + it.body)] + DenoteItems(items[1..], acc + it.body)
  {
    match items[0]
    case Pair(key, value) =>
      Associates(ps, [Param(key, [value])], DenoteItems(items[1..], acc));
    case Block(_, body, _) =>
      Associates(ps, [Param(MessageName(), acc + body)], DenoteItems(items[1..], acc + body));
  }

  lemma {:induction false} RunItems(st: ReadState, items: seq<Item>, rest: seq<string>)
    requires st.prc == InParam && st.dfl == InUnknown && !st.stop && rest != []
    requires forall i :: 0 <= i < |items| ==> WellFormedItem(items[i])
    ensures Run(st, PrintItems(items) + rest) == Run(AfterItems(st, items), rest)
    decreases |items|
  {
    hide *;
    PrintedItems(items, rest);
    ItemsStep(st, items);
    if items != [] {
      var tail := PrintItems(items[1..]) + rest;
      match items[0]
      case Pair(key, value) =>
        var line := key + ":" + value;
        StepPair(st, key, value);
        RunStep(st, line, tail);
        RunItems(Step(st, line).st, items[1..], rest);
      case Block(open, body, close) =>
        RunBlock(st, open, body, close, tail);
        AfterBlockIs(st, body);
        RunItems(AfterBlock(st, body), items[1..], rest);
    }
  }

  lemma PrintedItems(items: seq<Item>, rest: seq<string>)
    ensures items == [] ==> PrintItems(items) + rest == rest
    ensures items != [] && items[0].Pair? ==>
      PrintItems(items) + rest == [items[0].key + ":" + items[0].value] + (PrintItems(items[1..]) + rest)
    ensures items != [] && items[0].Block? ==>
      PrintItems(items) + rest == [items[0].open] + items[0].body + [items[0].close] + (PrintItems(items[1..]) + rest)
  {
    if items != [] {
      var first, tail := PrintItem(items[0]), PrintItems(items[1..]);
      assert PrintItems(items) == first + tail;
      hide PrintItems;
      Associates(first, tail, rest);
    }
  }

  lemma ItemsStep(st: ReadState, items: seq<Item>)
    ensures items == [] ==> AfterItems(st, items) == st
    ensures items != [] && items[0].Pair? ==>
      AfterItems(st, items)
      == AfterItems(st.(pkt := st.pkt.(params := st.pkt.params + [Param(items[0].key, [items[0].value])])), items[1..])
    ensures items != [] && items[0].Block? ==>
      AfterItems(st, items) == AfterItems(AfterBlock(st, items[0].body), items[1..])
  {
    hide AfterBlock;
    hide DenoteItems;
  }

  lemma AfterBlockIs(st: ReadState, body: seq<string>)
    ensures var s := AfterBlock(st, body); s.prc == st.prc && s.dfl == st.dfl && s.stop == st.stop
  {
  }

  lemma RunBlock(st: ReadState, open: string, body: seq<string>, close: string, rest: seq<string>)
    requires st.prc == InParam && st.dfl == InUnknown && !st.stop && rest != []
    requires WellFormedItem(Block(open, body, close))
    ensures Run(st, [open] + body + [close] + rest) == Run(AfterBlock(st, body), rest)
  {
    StepOpen(st, open);
    var s1 := Step(st, open).st;
    hide Contains;
    hide TagFree;
    hide Qualify;
    hide Run;
    var s2 := s1.(text := s1.text.(values := s1.text.values + body));
    RunBody(s1, body, [close] + rest);
    StepClose(s2, close);
    hide Step;
    RunStep(st, open, body + ([close] + rest));
    RunStep(s2, close, rest);
    assert [open] + body + [close] + rest == [open] + (body + ([close] + rest));
  }

  lemma {:induction false} RunCuts(st: ReadState, cuts: seq<string>, rest: seq<string>)
    requires st.prc == InIdle && st.dfl == InUnknown && !st.stop && AllCuts(cuts) && rest != []
    ensures Run(st, cuts + rest) == Run(st, rest)
    decreases |cuts|
  {
    hide IEquals;
    hide Step;
    if cuts == [] {
      assert cuts + rest == rest;
    } else {
      StepCut(st, cuts[0]);
      RunStep(st, cuts[0], cuts[1..] + rest);
      RunCuts(st, cuts[1..], rest);
      assert cuts + rest == [cuts[0]] + (cuts[1..] + rest);
    }
  }

  lemma StepCut(st: ReadState, line: string)
    requires st.prc == InIdle && st.dfl == InUnknown && IEquals(line, CutLine())
    ensures Step(st, line) == Go(st)
  {
    CutIsNotBegin(line);
    hide IEquals;
    hide Qualify;
    hide BeginTag;
    assert Qualify(line, st.dfl) != InStart by { QualifyStart(line, st.dfl); }
  }

  lemma QualifyStart(line: string, dfl: Phase)
    requires dfl != InStart
    ensures Qualify(line, dfl) == InStart <==> line == BeginTag()
  {
  }

  lemma BeginTagFold()
    ensures |Fold(BeginTag())| == 15
  {
    var s := BeginTag();
    assert |s| == 15 && s[0] == '<' && s[14] == '>';
    hide BeginTag;
    FoldOfWord(s);
  }

  lemma CutLineFold()
    ensures |Fold(CutLine())| == 16
  {
    var s := CutLine();
    assert |s| == 16 && s[0] == 'c' && s[15] == 'f';
    hide CutLine;
    FoldOfWord(s);
  }

  lemma CutIsNotBegin(line: string)
    requires IEquals(line, CutLine())
    ensures line != BeginTag()
  {
    BeginTagFold();
    CutLineFold();
    hide BeginTag;
    hide CutLine;
    IEqualsIsFoldEquality(line, CutLine());
  }

  lemma StepRequestTag(st: ReadState, tp: PacketType)
    requires st.prc == InRequest && tp != NotTyped
    ensures Step(st, RequestTag(tp))
         == Go(st.(pkt := st.pkt.(tp := tp), prc := if tp == Execut || tp == EndSession then InSsid else InStop))
  {
    var line := RequestTag(tp);
    var n := |TypeTag(tp)|;
    QualifyTags(tp, "", st.dfl);
    assert line[..n] == TypeTag(tp) && OccursAt(line, RequestSuffix(), n);
    hide TypeTag;
    hide Qualify;
    assert RFind(line, RequestSuffix()) == n;
    TypeTagsAreTyped(tp);
  }

  lemma TypeTagsAreTyped(tp: PacketType)
    requires tp != NotTyped
    ensures TypeOfTag(TypeTag(tp)) == tp
  {
    forall t: PacketType | TypeTag(t) == TypeTag(tp) ensures t == tp { TypeTagsDiffer(t, tp); }
  }

  lemma StepIdentifiers(st: ReadState, s: string)
    ensures st.prc == InSsid ==>
      Step(st, SessionTag() + s)
      == Go(st.(pkt := st.pkt.(session := s), prc := if st.pkt.tp == EndSession then InStop else InCmdid))
    ensures st.prc == InCmdid ==>
      Step(st, CommandTag() + s) == Go(st.(pkt := st.pkt.(id := s), prc := InParam))
  {
    QualifyTags(Reset, s, st.dfl);
    hide Qualify;
    assert (SessionTag() + s)[11..] == s && (CommandTag() + s)[11..] == s;
  }

  lemma StepBegin(st: ReadState)
    requires st.prc == InIdle
    ensures Step(st, BeginTag()) == Go(st.(prc := InRequest))
  {
    QualifyTags(Reset, "", st.dfl);
    hide Qualify;
  }

  function Typed(c: Command): Request {
    Request(c.tp, "", "", [])
  }

  /** Every well-formed request, with stray paper-cut lines before it and
      anything at all after it, is read as the packet it denotes. */
  lemma ReadPrinted(garbage: PacketType, cuts: seq<string>, c: Command, rest: seq<string>)
    requires WellFormed(c) && AllCuts(cuts)
    ensures var r := Run(Init(New(garbage)), cuts + Print(c) + rest);
            Complete(r) && r.st.pkt == Denote(c)
  {
    hide *;
    var st := Init(New(garbage));
    StartIs(garbage);
    DenoteIs(c);
    PrintTail(c, rest);
    var s1 := st.(prc := InRequest);
    var s2 := s1.(pkt := Typed(c), prc := if c.tp == Execut || c.tp == EndSession then InSsid else InStop);
    var tail := Print(c)[2..] + rest;
    Associates(cuts, Print(c), rest);
    assert [BeginTag(), RequestTag(c.tp)] + tail == [BeginTag()] + ([RequestTag(c.tp)] + tail);
    RunCuts(st, cuts, [BeginTag()] + ([RequestTag(c.tp)] + tail));
    StepBegin(st);
    RunStep(st, BeginTag(), [RequestTag(c.tp)] + tail);
    StepRequestTag(s1, c.tp);
    RunStep(s1, RequestTag(c.tp), tail);
    ReadBody(s2, c, rest, tail);
  }

  lemma StartIs(garbage: PacketType)
    ensures Init(New(garbage)) == ReadState(InIdle, InUnknown, false, Param("", []), Request(garbage, "", "", []))
  {
  }

  lemma PrintTail(c: Command, rest: seq<string>)
    requires WellFormed(c)
    ensures var tail := Print(c)[2..] + rest; var end := [EndTag()] + rest;
            && Print(c) + rest == [BeginTag(), RequestTag(c.tp)] + tail && tail != []
            && (c.tp != Execut && c.tp != EndSession ==> tail == end)
            && (c.tp == EndSession ==> tail == [SessionTag() + c.session] + end)
            && (c.tp == Execut ==>
                  tail == [SessionTag() + c.session] + ([CommandTag() + c.id] + (PrintItems(c.items) + end)))
  {
    hide EndTag;
    hide BeginTag;
    hide SessionTag;
    hide CommandTag;
    hide RequestTag;
    hide PrintItems;
    hide WellFormedItem;
  }

  lemma DenoteIs(c: Command)
    requires WellFormed(c)
    ensures Typed(c) == Request(c.tp, "", "", [])
    ensures c.tp != NotTyped && (c.tp != Execut && c.tp != EndSession ==> Denote(c) == Typed(c))
    ensures c.tp == EndSession ==> Denote(c) == Request(c.tp, c.session, "", [])
    ensures Denote(c) == Request(c.tp, c.session, c.id, [] + DenoteItems(c.items, []))
    ensures forall i :: 0 <= i < |c.items| ==> WellFormedItem(c.items[i])
  {
    hide WellFormedItem;
  }

  lemma ReadBody(st: ReadState, c: Command, rest: seq<string>, tail: seq<string>)
    requires WellFormed(c) && tail == Print(c)[2..] + rest
    requires st == ReadState(if c.tp == Execut || c.tp == EndSession then InSsid else InStop,
                             InUnknown, false, Param("", []), Typed(c))
    ensures var r := Run(st, tail); Complete(r) && r.st.pkt == Denote(c)
  {
    hide *;
    var end := [EndTag()] + rest;
    PrintTail(c, rest);
    DenoteIs(c);
    if c.tp != Execut && c.tp != EndSession {
      RunEnd(st, end);
    } else {
      var s1 := st.(pkt := st.pkt.(session := c.session), prc := if c.tp == EndSession then InStop else InCmdid);
      StepIdentifiers(st, c.session);
      if c.tp == EndSession {
        RunStep(st, SessionTag() + c.session, end);
        RunEnd(s1, end);
      } else {
        var items := PrintItems(c.items) + end;
        RunStep(st, SessionTag() + c.session, [CommandTag() + c.id] + items);
        StepIdentifiers(s1, c.id);
        var s2 := s1.(pkt := s1.pkt.(id := c.id), prc := InParam);
        RunStep(s1, CommandTag() + c.id, items);
        RunItems(s2, c.items, end);
        RunEnd(AfterItems(s2, c.items), end);
      }
    }
  }

  lemma RunEnd(st: ReadState, end: seq<string>)
    requires (st.prc == InParam || st.prc == InStop) && end != [] && end[0] == EndTag()
    ensures Complete(Run(st, end)) && Run(st, end).st.pkt == st.pkt
  {
    StepEnd(st);
    hide Step;
  }

  /** An execute request without its end tag. */
  function Truncated(c: Command): seq<string>
    requires c.tp == Execut
  {
    [BeginTag(), RequestTag(c.tp), SessionTag() + c.session, CommandTag() + c.id] + PrintItems(c.items)
  }

  lemma ReadTruncated(garbage: PacketType, c: Command, rest: seq<string>) returns (s: ReadState)
    requires WellFormed(c) && c.tp == Execut && rest != []
    ensures Run(Init(New(garbage)), Truncated(c) + rest) == Run(s, rest)
    ensures s.pkt == Denote(c) && s.prc == InParam && s.dfl == InUnknown
  {
    hide Step;
    hide Run;
    hide BeginTag;
    hide RequestTag;
    hide SessionTag;
    hide CommandTag;
    hide WellFormedItem;
    var st := Init(New(garbage));
    var s1 := st.(prc := InRequest);
    var s2 := s1.(pkt := Typed(c), prc := InSsid);
    var s3 := s2.(pkt := s2.pkt.(session := c.session), prc := InCmdid);
    var s4 := s3.(pkt := s3.pkt.(id := c.id), prc := InParam);
    var l4 := PrintItems(c.items) + rest;
    var l3 := [CommandTag() + c.id] + l4;
    var l2 := [SessionTag() + c.session] + l3;
    var l1 := [RequestTag(c.tp)] + l2;
    assert Truncated(c) + rest == [BeginTag()] + l1;
    StepBegin(st);
    RunStep(st, BeginTag(), l1);
    StepRequestTag(s1, c.tp);
    RunStep(s1, RequestTag(c.tp), l2);
    StepIdentifiers(s2, c.session);
    RunStep(s2, SessionTag() + c.session, l3);
    StepIdentifiers(s3, c.id);
    RunStep(s3, CommandTag() + c.id, l4);
    RunItems(s4, c.items, rest);
    s := AfterItems(s4, c.items);
  }

  /** A command file that breaks off before its end tag: the reader throws, but
      only at the end of the file, and the packet holds the whole request. */
  lemma TruncatedFile(garbage: PacketType, c: Command)
    requires WellFormed(c) && c.tp == Execut && NewlineFree(Truncated(c))
    ensures Run(Init(New(garbage)), Lines(Unlines(Truncated(c)))).error == Some(UnexpectedToken)
    ensures Run(Init(New(garbage)), Lines(Unlines(Truncated(c)))).atEof
    ensures Run(Init(New(garbage)), Lines(Unlines(Truncated(c)))).st.pkt == Denote(c)
  {
    var ls := Truncated(c);
    hide Truncated;
    LinesOfUnlines(ls, "");
    assert Unlines(ls) + "" == Unlines(ls) && Lines("") == [""];
    var s := ReadTruncated(garbage, c, [""]);
    EmptyLineIsUnexpected(s);
    hide Step;
    hide Denote;
  }

  lemma EmptyLineIsUnexpected(s: ReadState)
    requires s.prc == InParam && s.dfl == InUnknown
    ensures Step(s, "") == Bad(s, UnexpectedToken)
  {
    assert BeginTag()[0] == '<' && EndTag()[0] == '<' && SessionTag()[0] == 's' && CommandTag()[0] == 'c';
    if IsRequestTag("") { RequestTagStartsWithE(""); }
    assert Qualify("", InUnknown) == InUnknown;
    hide Qualify;
  }

  // ------------------------------------------- what the reader accepts is printed

  lemma QualifyInverse(line: string, dfl: Phase)
    requires dfl == InUnknown || dfl == InText
    ensures var q := Qualify(line, dfl);
            && (q == InStart ==> line == BeginTag())
            && (q == InRequest ==> IsRequestTag(line))
            && (q == InSsid ==> SessionTag() <= line)
            && (q == InCmdid ==> CommandTag() <= line)
            && (q == InStop ==> line == EndTag())
            && (q == InParam ==> TagFree(line) && Contains(line, ":"))
            && (q == InText ==> TagFree(line))
            && (q == InText && dfl == InUnknown ==> !Contains(line, ":") && Contains(line, MessageTag()))
  {
  }

  lemma RunContinues(st: ReadState, lines: seq<string>)
    requires lines != [] && Complete(Run(st, lines))
    ensures Step(st, lines[0]).Go?
    ensures !Step(st, lines[0]).st.stop ==>
              lines[1..] != [] && Run(st, lines) == Run(Step(st, lines[0]).st, lines[1..])
  {
    hide Step;
  }

  lemma PairOfLine(line: string) returns (it: Item)
    requires TagFree(line) && Contains(line, ":")
    ensures it.Pair? && WellFormedItem(it) && PrintItem(it) == [line]
  {
    var pos := Find(line, ":");
    ContainsChar(line, ':');
    it := Pair(line[..pos], line[pos + 1..]);
    assert line == it.key + ":" + it.value;
    QualifyPair(it.key, it.value);
  }

  /** A line in the parameter section: nothing but its end, a pair or the line
      that opens a message. */
  lemma ParseParamLine(st: ReadState, line: string) returns (it: Item)
    requires st.prc == InParam && st.dfl == InUnknown && !st.stop && Step(st, line).Go?
    ensures var s := Step(st, line).st;
            if s.stop then line == EndTag()
            else if it.Pair? then
              WellFormedItem(it) && PrintItem(it) == [line] && s.prc == InParam && s.dfl == InUnknown
            else
              && TagFree(line) && !Contains(line, ":") && Contains(line, MessageTag())
              && s.prc == InText && s.dfl == InText
  {
    QualifyInverse(line, InUnknown);
    var q := Qualify(line, InUnknown);
    hide Qualify;
    hide Contains;
    hide TagFree;
    hide EndTag;
    hide BeginTag;
    hide WellFormedItem;
    hide PrintItem;
    hide IsRequestTag;
    hide MessageTag;
    if q == InParam {
      it := PairOfLine(line);
    } else {
      it := Block(line, [], "");
    }
  }

  lemma ParseTextLine(st: ReadState, line: string)
    requires st.prc == InText && st.dfl == InText && !st.stop && Step(st, line).Go?
    ensures var s := Step(st, line).st;
            && TagFree(line) && !s.stop
            && (if Contains(line, "}") then s.prc == InParam && s.dfl == InUnknown
                else s.prc == InText && s.dfl == InText)
  {
    QualifyInverse(line, InText);
    hide Qualify;
    hide TagFree;
    hide Contains;
  }

  lemma {:induction false} ParseBody(st: ReadState, lines: seq<string>)
    returns (body: seq<string>, close: string, rest: seq<string>, last: ReadState)
    requires st.prc == InText && st.dfl == InText && !st.stop && lines != [] && Complete(Run(st, lines))
    ensures lines == body + [close] + rest
    ensures forall i :: 0 <= i < |body| ==> TagFree(body[i]) && !Contains(body[i], "}")
    ensures TagFree(close) && Contains(close, "}")
    ensures rest != [] && Complete(Run(last, rest)) && last.prc == InParam && last.dfl == InUnknown && !last.stop
    decreases |lines|
  {
    hide *;
    var line := lines[0];
    RunContinues(st, lines);
    ParseTextLine(st, line);
    var s := Step(st, line).st;
    if Contains(line, "}") {
      body, close, rest, last := [], line, lines[1..], s;
    } else {
      var b;
      b, close, rest, last := ParseBody(s, lines[1..]);
      body := [line] + b;
    }
  }

  lemma {:induction false} ParseItems(st: ReadState, lines: seq<string>) returns (items: seq<Item>, rest: seq<string>)
    requires st.prc == InParam && st.dfl == InUnknown && !st.stop && lines != [] && Complete(Run(st, lines))
    ensures lines == PrintItems(items) + [EndTag()] + rest
    ensures forall i :: 0 <= i < |items| ==> WellFormedItem(items[i])
    decreases |lines|
  {
    hide *;
    var line := lines[0];
    RunContinues(st, lines);
    var it := ParseParamLine(st, line);
    var s := Step(st, line).st;
    if s.stop {
      items, rest := [], lines[1..];
      NoItems(rest);
    } else {
      var tail;
      if it.Pair? {
        tail, rest := ParseItems(s, lines[1..]);
      } else {
        var body, close, after, last := ParseBody(s, lines[1..]);
        it := Block(line, body, close);
        BlockIs(line, body, close, after);
        tail, rest := ParseItems(last, after);
      }
      items := [it] + tail;
      PrintItemsCons(it, tail, rest);
    }
  }

  lemma NoItems(rest: seq<string>)
    ensures PrintItems([]) + [EndTag()] + rest == [EndTag()] + rest
  {
  }

  lemma BlockIs(open: string, body: seq<string>, close: string, after: seq<string>)
    ensures PrintItem(Block(open, body, close)) + after == [open] + (body + [close] + after)
    ensures WellFormedItem(Block(open, body, close)) <==>
      && TagFree(open) && !Contains(open, ":") && Contains(open, MessageTag())
      && (forall i :: 0 <= i < |body| ==> TagFree(body[i]) && !Contains(body[i], "}"))
      && TagFree(close) && Contains(close, "}")
  {
    hide TagFree;
    hide Contains;
    hide MessageTag;
  }

  lemma PrintItemsCons(it: Item, tail: seq<Item>, rest: seq<string>)
    ensures PrintItems([it] + tail) + [EndTag()] + rest == PrintItem(it) + (PrintItems(tail) + [EndTag()] + rest)
  {
    hide EndTag;
    hide PrintItem;
    assert ([it] + tail)[1..] == tail;
  }

  lemma IdleLine(st: ReadState, line: string)
    requires st.prc == InIdle && st.dfl == InUnknown && Step(st, line).Go?
    ensures line == BeginTag() ==> Step(st, line).st == st.(prc := InRequest)
    ensures line != BeginTag() ==> IEquals(line, CutLine()) && Step(st, line).st == st
  {
    QualifyInverse(line, InUnknown);
    QualifyStart(line, InUnknown);
    hide Qualify;
    hide IEquals;
    hide BeginTag;
  }

  lemma {:induction false} ParseIdle(st: ReadState, lines: seq<string>) returns (k: nat)
    requires st.prc == InIdle && st.dfl == InUnknown && !st.stop && lines != [] && Complete(Run(st, lines))
    ensures k + 1 < |lines| && AllCuts(lines[..k]) && lines[k] == BeginTag()
    ensures Complete(Run(st.(prc := InRequest), lines[k + 1..]))
    decreases |lines|
  {
    hide *;
    var line := lines[0];
    RunContinues(st, lines);
    IdleLine(st, line);
    if line == BeginTag() {
      k := 0;
      NoCuts();
      assert lines[..k] == [];
    } else {
      var n := ParseIdle(st, lines[1..]);
      k := n + 1;
      assert lines[1..][n + 1..] == lines[k + 1..];
      MoreCuts(line, lines[1..][..n]);
      assert lines[..k] == [line] + lines[1..][..n];
    }
  }

  lemma NoCuts()
    ensures AllCuts([])
  {
  }

  lemma MoreCuts(line: string, cuts: seq<string>)
    requires IEquals(line, CutLine()) && AllCuts(cuts)
    ensures AllCuts([line] + cuts)
  {
    hide IEquals;
  }

  lemma ParseType(st: ReadState, lines: seq<string>) returns (tp: PacketType)
    requires st.prc == InRequest && st.dfl == InUnknown && !st.stop && lines != [] && Complete(Run(st, lines))
    ensures tp != NotTyped && lines[0] == RequestTag(tp) && lines[1..] != []
    ensures Complete(Run(st.(pkt := st.pkt.(tp := tp),
                             prc := if tp == Execut || tp == EndSession then InSsid else InStop), lines[1..]))
  {
    QualifyInverse(lines[0], InUnknown);
    RunContinues(st, lines);
    hide Run;
    hide Qualify;
    tp :| tp != NotTyped && lines[0] == RequestTag(tp);
    StepRequestTag(st, tp);
  }

  lemma ParseStop(st: ReadState, lines: seq<string>)
    requires st.prc == InStop && st.dfl == InUnknown && !st.stop && lines != [] && Complete(Run(st, lines))
    ensures lines[0] == EndTag()
  {
    QualifyInverse(lines[0], InUnknown);
    hide Qualify;
  }

  lemma ParseSession(st: ReadState, lines: seq<string>) returns (session: string)
    requires st.prc == InSsid && st.dfl == InUnknown && !st.stop && lines != [] && Complete(Run(st, lines))
    ensures lines[0] == SessionTag() + session && lines[1..] != []
    ensures Complete(Run(st.(pkt := st.pkt.(session := session),
                             prc := if st.pkt.tp == EndSession then InStop else InCmdid), lines[1..]))
  {
    QualifyInverse(lines[0], InUnknown);
    RunContinues(st, lines);
    hide Run;
    hide Qualify;
    session := Drop(lines[0], |SessionTag()|);
  }

  lemma ParseCommandId(st: ReadState, lines: seq<string>) returns (id: string)
    requires st.prc == InCmdid && st.dfl == InUnknown && !st.stop && lines != [] && Complete(Run(st, lines))
    ensures lines[0] == CommandTag() + id && lines[1..] != []
    ensures Complete(Run(st.(pkt := st.pkt.(id := id), prc := InParam), lines[1..]))
  {
    QualifyInverse(lines[0], InUnknown);
    RunContinues(st, lines);
    hide Run;
    hide Qualify;
    id := Drop(lines[0], |CommandTag()|);
  }

  lemma ParseBodyOf(st: ReadState, tp: PacketType, lines: seq<string>) returns (c: Command, rest: seq<string>)
    requires tp != NotTyped && st.pkt.tp == tp && st.dfl == InUnknown && !st.stop && lines != []
    requires st.prc == if tp == Execut || tp == EndSession then InSsid else InStop
    requires Complete(Run(st, lines))
    ensures WellFormed(c) && c.tp == tp && [BeginTag(), RequestTag(tp)] + lines == Print(c) + rest
  {
    hide *;
    if tp != Execut && tp != EndSession {
      ParseStop(st, lines);
      c, rest := Command(tp, "", "", []), lines[1..];
    } else {
      var session := ParseSession(st, lines);
      var s1 := st.(pkt := st.pkt.(session := session), prc := if tp == EndSession then InStop else InCmdid);
      if tp == EndSession {
        ParseStop(s1, lines[1..]);
        c, rest := Command(tp, session, "", []), lines[1..][1..];
      } else {
        var id := ParseCommandId(s1, lines[1..]);
        var s2 := s1.(pkt := s1.pkt.(id := id), prc := InParam);
        var items, after := ParseItems(s2, lines[1..][1..]);
        c, rest := Command(tp, session, id, items), after;
        Associates(PrintItems(items), [EndTag()], after);
      }
    }
    WellFormedIs(c);
    PrintTail(c, rest);
  }

  lemma WellFormedIs(c: Command)
    ensures WellFormed(c) <==>
      && c.tp != NotTyped
      && (c.tp != Execut ==> c.id == "" && c.items == [])
      && (c.tp != Execut && c.tp != EndSession ==> c.session == "")
      && (forall i :: 0 <= i < |c.items| ==> WellFormedItem(c.items[i]))
  {
    hide WellFormedItem;
  }

  lemma ParseRequest(garbage: PacketType, lines: seq<string>) returns (cuts: seq<string>, c: Command, rest: seq<string>)
    requires lines != [] && Complete(Run(Init(New(garbage)), lines))
    ensures WellFormed(c) && AllCuts(cuts) && lines == cuts + Print(c) + rest
  {
    hide *;
    StartIs(garbage);
    var st := Init(New(garbage));
    var k := ParseIdle(st, lines);
    cuts := lines[..k];
    var after := lines[k + 1..];
    assert lines == cuts + ([BeginTag()] + after);
    var s1 := st.(prc := InRequest);
    var tp := ParseType(s1, after);
    var s2 := s1.(pkt := s1.pkt.(tp := tp), prc := if tp == Execut || tp == EndSession then InSsid else InStop);
    c, rest := ParseBodyOf(s2, tp, after[1..]);
    assert lines == cuts + ([BeginTag(), RequestTag(tp)] + after[1..]);
    Associates(cuts, Print(c), rest);
  }

  ghost predicate InLanguage(lines: seq<string>, c: Command) {
    WellFormed(c) && exists cuts, rest: seq<string> :: AllCuts(cuts) && lines == cuts + Print(c) + rest
  }

  /** The reader accepts exactly the language, and fills the packet with what
      the request denotes; no request can be understood in two ways. */
  lemma ReaderAcceptsLanguage(garbage: PacketType, lines: seq<string>)
    requires lines != []
    ensures var r := Run(Init(New(garbage)), lines);
            && (Complete(r) <==> exists c :: InLanguage(lines, c))
            && (forall c :: InLanguage(lines, c) ==> r.st.pkt == Denote(c))
  {
    var r := Run(Init(New(garbage)), lines);
    forall c | InLanguage(lines, c) ensures Complete(r) && r.st.pkt == Denote(c) {
      var cuts, rest: seq<string> :| AllCuts(cuts) && lines == cuts + Print(c) + rest;
      ReadPrinted(garbage, cuts, c, rest);
    }
    if Complete(r) {
      var cuts, c, rest := ParseRequest(garbage, lines);
      assert InLanguage(lines, c);
    }
  }

  /** The same on the characters of a command file: the printed lines, each
      closed by a newline, and then any text. */
  lemma TextRoundTrip(garbage: PacketType, cuts: seq<string>, c: Command, tail: string)
    requires WellFormed(c) && AllCuts(cuts) && NewlineFree(cuts + Print(c))
    ensures var r := Run(Init(New(garbage)), Lines(Unlines(cuts + Print(c)) + tail));
            Complete(r) && r.st.pkt == Denote(c)
  {
    hide *;
    LinesOfUnlines(cuts + Print(c), tail);
    ReadPrinted(garbage, cuts, c, Lines(tail));
  }

  // ------------------------------------------------------ printing a packet

  /** The item that prints a parameter: a parameter with one value is a pair. */
  function Canon(p: Param): Item {
    if |p.values| == 1 then Pair(p.name, p.values[0]) else Block(MessageTag(), p.values, "}")
  }

  function CanonItems(ps: seq<Param>): (items: seq<Item>)
    ensures |items| == |ps|
    ensures forall i :: 0 <= i < |ps| ==> items[i] == Canon(ps[i])
  {
    if ps == [] then [] else [Canon(ps[0])] + CanonItems(ps[1..])
  }

  function CanonCommand(r: Request): Command {
    Command(r.tp, r.session, r.id, CanonItems(r.params))
  }

  /** No parameter printed as a message follows another one that has lines. */
  predicate NoTwoMessages(ps: seq<Param>) {
    forall i, j :: 0 <= i < j < |ps| && |ps[i].values| != 1 && |ps[j].values| != 1 ==> ps[i].values == []
  }

  predicate NoMessage(ps: seq<Param>) {
    forall i :: 0 <= i < |ps| ==> |ps[i].values| == 1
  }

  ghost predicate BodyLines(ls: seq<string>) {
    forall i :: 0 <= i < |ls| ==> TagFree(ls[i]) && !Contains(ls[i], "}")
  }

  /** What every parameter of an accepted request looks like. */
  ghost predicate Readable(p: Param) {
    || (p.name == MessageName() && BodyLines(p.values))
    || (|p.values| == 1 && WellFormedItem(Pair(p.name, p.values[0])))
  }

  lemma {:induction false} DenotedIsReadable(items: seq<Item>, acc: seq<string>)
    requires forall i :: 0 <= i < |items| ==> WellFormedItem(items[i])
    requires BodyLines(acc)
    ensures var ps := DenoteItems(items, acc);
            && |ps| == |items|
            && (forall i :: 0 <= i < |ps| ==> Readable(ps[i]))
            && (forall i :: 0 <= i < |ps| && items[i].Pair? ==> |ps[i].values| == 1)
    decreases |items|
  {
    hide TagFree;
    hide Contains;
    hide MessageTag;
    hide MessageName;
    if items != [] {
      match items[0]
      case Pair(key, value) => DenotedIsReadable(items[1..], acc);
      case Block(_, body, _) => DenotedIsReadable(items[1..], acc + body);
    }
  }

  lemma MessageTagIsOpener()
    ensures TagFree(MessageTag()) && !Contains(MessageTag(), ":") && Contains(MessageTag(), MessageTag())
    ensures TagFree("}") && Contains("}", "}")
    ensures ':' !in MessageName() && MessageName() != "session_id" && MessageName() != "command_id"
  {
    assert MessageTag()[0] == 'm';
    ContainsChar(MessageTag(), ':');
    assert MessageTag()[0..|MessageTag()|] == MessageTag();
    assert OccursAt(MessageTag(), MessageTag(), 0);
    assert OccursAt("}", "}", 0);
  }

  lemma CanonIsWellFormed(p: Param)
    requires Readable(p)
    ensures WellFormedItem(Canon(p))
  {
    MessageTagIsOpener();
    hide TagFree;
    hide Contains;
    hide MessageTag;
    hide MessageName;
  }

  /** Reading what was printed gives the same parameters exactly when no two of
      them are messages whose lines would pile up. */
  lemma {:induction false} CanonDenotes(ps: seq<Param>, acc: seq<string>)
    requires forall i :: 0 <= i < |ps| ==> Readable(ps[i])
    ensures DenoteItems(CanonItems(ps), acc) == ps <==> (acc == [] || NoMessage(ps)) && NoTwoMessages(ps)
  {
    hide WellFormedItem;
    hide BodyLines;
    hide MessageTag;
    hide MessageName;
    if ps != [] {
      var p, rest := ps[0], ps[1..];
      var acc' := if |p.values| == 1 then acc else acc + p.values;
      CanonDenotes(rest, acc');
      var head := if |p.values| == 1 then p else Param(MessageName(), acc + p.values);
      CanonStep(p, CanonItems(rest), acc);
      assert CanonItems(ps) == [Canon(p)] + CanonItems(rest);
      assert |p.values| == 1 ==> [p.values[0]] == p.values;
      assert DenoteItems(CanonItems(ps), acc) == [head] + DenoteItems(CanonItems(rest), acc');
      assert DenoteItems(CanonItems(ps), acc) == ps <==> head == p && DenoteItems(CanonItems(rest), acc') == rest
        by { ConsEqual(head, DenoteItems(CanonItems(rest), acc'), ps); }
      assert |p.values| != 1 ==> (head == p <==> acc == []) by {
        if acc + p.values == p.values { assert |acc| + |p.values| == |p.values|; }
      }
      NoTwoMessagesCons(ps);
    }
  }

  lemma CanonStep(p: Param, rest: seq<Item>, acc: seq<string>)
    ensures DenoteItems([Canon(p)] + rest, acc)
         == if |p.values| == 1 then [Param(p.name, [p.values[0]])] + DenoteItems(rest, acc)
            else [Param(MessageName(), acc + p.values)] + DenoteItems(rest, acc + p.values)
  {
    assert ([Canon(p)] + rest)[1..] == rest;
  }

  lemma ConsEqual<T>(a: T, s: seq<T>, t: seq<T>)
    requires t != []
    ensures [a] + s == t <==> a == t[0] && s == t[1..]
  {
    assert t == [t[0]] + t[1..];
    assert ([a] + s)[0] == a && ([a] + s)[1..] == s;
  }

  lemma NoTwoMessagesCons(ps: seq<Param>)
    requires ps != []
    ensures NoMessage(ps) <==> |ps[0].values| == 1 && NoMessage(ps[1..])
    ensures NoTwoMessages(ps) <==>
            (|ps[0].values| <= 1 || NoMessage(ps[1..])) && NoTwoMessages(ps[1..])
  {
    var rest := ps[1..];
    assert forall i :: 0 < i < |ps| ==> ps[i] == rest[i - 1];
    assert forall i :: 0 <= i < |rest| ==> rest[i] == ps[i + 1];
  }

  /** Any input accepted through its end tag normalises, printing the packet and
      reading that gives the packet again, exactly when its packet has no
      message with lines before another message. */
  lemma AcceptedInputNormalises(garbage: PacketType, lines: seq<string>, other: PacketType)
    requires lines != [] && Complete(Run(Init(New(garbage)), lines))
    ensures var pkt := Run(Init(New(garbage)), lines).st.pkt;
            var again := Run(Init(New(other)), Print(CanonCommand(pkt)));
            && Complete(again)
            && (again.st.pkt == pkt <==> NoTwoMessages(pkt.params))
  {
    var cuts, c, rest := ParseRequest(garbage, lines);
    ReadPrinted(garbage, cuts, c, rest);
    var pkt := Run(Init(New(garbage)), lines).st.pkt;
    hide Run;
    hide Step;
    hide WellFormedItem;
    DenotedIsReadable(c.items, []);
    var d := CanonCommand(pkt);
    forall i | 0 <= i < |d.items| ensures WellFormedItem(d.items[i]) { CanonIsWellFormed(pkt.params[i]); }
    hide Print;
    ReadPrinted(other, [], d, []);
    assert [] + Print(d) + [] == Print(d);
    CanonDenotes(pkt.params, []);
  }

  /** In particular it does for an input with at most one message block. */
  lemma OneBlockNormalises(c: Command)
    requires WellFormed(c)
    requires forall i, j :: 0 <= i < j < |c.items| ==> c.items[i].Pair? || c.items[j].Pair?
    ensures NoTwoMessages(Denote(c).params)
  {
    DenotedIsReadable(c.items, []);
    hide WellFormedItem;
  }

  /** The lines of all blocks among the items, one block after the other. */
  function BlockLines(items: seq<Item>): seq<string> {
    if items == [] then []
    else (if items[0].Block? then items[0].body else []) + BlockLines(items[1..])
  }

  /** Message lines pile up: every pair stands for itself, and the parameter of a
      block holds the lines of all blocks up to and including it, in order. */
  lemma {:induction false} BlocksPileUp(items: seq<Item>, acc: seq<string>, i: nat)
    requires i < |items|
    ensures |DenoteItems(items, acc)| == |items|
    ensures DenoteItems(items, acc)[i]
         == if items[i].Block? then Param(MessageName(), acc + BlockLines(items[..i + 1]))
            else Param(items[i].key, [items[i].value])
    decreases |items|
  {
    var first := if items[0].Block? then items[0].body else [];
    var rest := items[1..];
    DenoteCons(items, acc);
    DenoteNothing(acc + first);
    BlockLinesOfFirst(items, i);
    hide *;
    if i > 0 {
      BlocksPileUp(rest, acc + first, i - 1);
      assert rest[i - 1] == items[i] && rest[..i] == items[1..i + 1];
      Associates(acc, first, BlockLines(items[1..i + 1]));
    } else if rest != [] {
      BlocksPileUp(rest, acc + first, 0);
    }
  }

  lemma DenoteNothing(acc: seq<string>)
    ensures DenoteItems([], acc) == []
  {
  }

  lemma DenoteCons(items: seq<Item>, acc: seq<string>)
    requires items != []
    ensures var first := if items[0].Block? then items[0].body else [];
            DenoteItems(items, acc)
            == [if items[0].Block? then Param(MessageName(), acc + first) else Param(items[0].key, [items[0].value])]
               + DenoteItems(items[1..], acc + first)
  {
    assert acc + [] == acc;
    hide MessageName;
  }

  lemma BlockLinesOfFirst(items: seq<Item>, i: nat)
    requires i < |items|
    ensures BlockLines(items[..i + 1])
         == (if items[0].Block? then items[0].body else []) + BlockLines(items[1..i + 1])
    ensures i == 0 && items[0].Block? ==> BlockLines(items[..i + 1]) == items[0].body
  {
    assert items[..i + 1][1..] == items[1..i + 1] && items[..i + 1][0] == items[0];
  }

  // ------------------------------------------------------------- every run

  /** What the phase machine keeps: it never rests in the start or unknown
      phase, its default phase is text exactly inside a message, and the
      identifiers are filled in the order of the protocol. */
  ghost predicate Sound(st: ReadState) {
    && st.prc != InStart && st.prc != InUnknown
    && st.dfl == (if st.prc == InText then InText else InUnknown)
    && (st.prc == InText ==> st.text.name == MessageName())
    && (st.pkt.id != "" ==> st.pkt.tp == Execut)
    && (st.pkt.session != "" ==> st.pkt.tp == Execut || st.pkt.tp == EndSession)
    && (st.pkt.params != [] ==> st.pkt.tp == Execut)
    && (st.prc == InIdle || st.prc == InRequest ==> st.pkt.id == "" && st.pkt.session == "" && st.pkt.params == [])
    && (st.prc == InSsid ==> st.pkt.tp == Execut || st.pkt.tp == EndSession)
    && (st.prc == InCmdid || st.prc == InParam || st.prc == InText ==> st.pkt.tp == Execut)
  }

  /** The errors a reader can report. */
  predicate Reportable(e: ReadError) {
    e != CutPaper && e != RequestNotFound && e != ParamMalformed && e != UnknownToken
  }

  ghost predicate KeepsSound(st: ReadState, line: string) {
    && Sound(Step(st, line).st)
    && (Step(st, line).Bad? ==> Reportable(Step(st, line).error) && Step(st, line).st == st)
  }

  lemma RequestKeepsSound(st: ReadState, line: string)
    requires Sound(st) && st.prc == InRequest
    ensures KeepsSound(st, line)
  {
    QualifyInverse(line, InUnknown);
    if IsRequestTag(line) {
      var tp: PacketType :| tp != NotTyped && line == RequestTag(tp);
      StepRequestTag(st, tp);
      hide Step;
    } else {
      hide Qualify;
    }
  }

  lemma LineOfPhase(line: string, dfl: Phase)
    requires dfl == InUnknown || dfl == InText
    ensures Qualify(line, dfl) == InParam ==> Find(line, ":") >= 0
  {
  }

  lemma ParamsKeepSound(st: ReadState, line: string)
    requires Sound(st) && (st.prc == InParam || st.prc == InText)
    ensures KeepsSound(st, line)
  {
    if st.prc == InParam {
      LineOfPhase(line, st.dfl);
      ParamKeepsSound(st, line);
    } else {
      MessageKeepsSound(st, line);
    }
  }

  lemma ParamKeepsSound(st: ReadState, line: string)
    requires Sound(st) && st.prc == InParam && (Qualify(line, InUnknown) == InParam ==> Find(line, ":") >= 0)
    ensures KeepsSound(st, line)
  {
    hide Qualify;
    hide Contains;
    hide MessageName;
    hide Find;
    hide StepRequest;
    assert Step(st, line) == StepParam(st, line, Qualify(line, InUnknown));
    hide Step;
  }

  lemma MessageKeepsSound(st: ReadState, line: string)
    requires Sound(st) && st.prc == InText
    ensures KeepsSound(st, line)
  {
    hide Qualify;
    hide Contains;
    hide MessageName;
    hide StepRequest;
    hide StepParam;
  }

  lemma StepKeepsSound(st: ReadState, line: string)
    requires Sound(st)
    ensures KeepsSound(st, line)
  {
    hide *;
    SoundPhases(st);
    if st.prc == InRequest {
      RequestKeepsSound(st, line);
    } else if st.prc == InParam || st.prc == InText {
      ParamsKeepSound(st, line);
    } else {
      OthersKeepSound(st, line);
    }
  }

  lemma SoundPhases(st: ReadState)
    requires Sound(st)
    ensures st.prc in {InIdle, InStop, InRequest, InSsid, InCmdid, InParam, InText}
  {
  }

  lemma OthersKeepSound(st: ReadState, line: string)
    requires Sound(st) && st.prc in {InIdle, InStop, InSsid, InCmdid}
    ensures KeepsSound(st, line)
  {
    hide Qualify;
    hide IEquals;
    hide Drop;
    hide StepParam;
    hide StepRequest;
    hide SessionTag;
    hide CommandTag;
    hide Contains;
    hide CutLine;
  }

  /** Over every input, whatever the packet's memory held: the run ends in a
      sound state and the paper-cut exception is never among its errors. */
  lemma {:induction false} RunKeepsSound(st: ReadState, lines: seq<string>)
    requires lines != [] && Sound(st)
    ensures var r := Run(st, lines);
            Sound(r.st) && (r.error.Some? ==> Reportable(r.error.value))
    decreases |lines|
  {
    hide Step;
    hide Sound;
    StepKeepsSound(st, lines[0]);
    if Step(st, lines[0]).Go? && !Step(st, lines[0]).st.stop && |lines| > 1 {
      RunKeepsSound(Step(st, lines[0]).st, lines[1..]);
    }
  }

  lemma InitIsSound(garbage: PacketType)
    ensures Sound(Init(New(garbage)))
  {
  }

  // ------------------------------------------- a packet of uninitialised type

  /** The line that names the type has been read. */
  predicate TypeRead(st: ReadState) {
    st.prc != InIdle && st.prc != InRequest
  }

  /** States that differ in the type of the packet at most, and only as long as
      no type has been read. */
  predicate Twins(a: ReadState, b: ReadState) {
    && a == b.(pkt := b.pkt.(tp := a.pkt.tp))
    && (TypeRead(a) ==> a == b)
  }

  lemma StepOfTwins(a: ReadState, b: ReadState, line: string)
    requires Twins(a, b)
    ensures Step(a, line).Go? <==> Step(b, line).Go?
    ensures Step(a, line).Bad? ==> Step(a, line).error == Step(b, line).error
    ensures Twins(Step(a, line).st, Step(b, line).st)
    ensures !TypeRead(Step(a, line).st) ==>
      Step(a, line).st.pkt.tp == a.pkt.tp && Step(b, line).st.pkt.tp == b.pkt.tp
    ensures TypeRead(a) ==> TypeRead(Step(a, line).st)
  {
    hide Qualify;
    hide IEquals;
    hide RFind;
    hide TypeOfTag;
    hide CutLine;
    if TypeRead(a) {
      TypeStaysRead(a, line);
    } else {
      hide StepParam;
      hide Contains;
      hide Drop;
    }
  }

  lemma TypeStaysRead(st: ReadState, line: string)
    requires TypeRead(st)
    ensures TypeRead(Step(st, line).st)
  {
    hide Qualify;
    hide IEquals;
    hide StepRequest;
    hide Contains;
    hide Find;
    hide Drop;
    hide CutLine;
    hide MessageName;
  }

  lemma EmptyLineFails(st: ReadState)
    requires st.prc == InIdle && st.dfl == InUnknown
    ensures Step(st, "") == Bad(st, ExpectedStart)
  {
    QualifyInverse("", InUnknown);
    CutLineFold();
    IEqualsIsFoldEquality("", CutLine());
    assert Fold("") == "";
    hide Qualify;
    hide IEquals;
    hide CutLine;
    hide Fold;
  }

  /** What the memory of a new packet held decides nothing but its type, and this
      only if the run ended before a type was read. */
  lemma {:induction false} RunOfTwins(a: ReadState, b: ReadState, lines: seq<string>)
    requires lines != [] && Twins(a, b)
    ensures var r, q := Run(a, lines), Run(b, lines);
            && r.error == q.error && r.atEof == q.atEof && Twins(r.st, q.st)
            && (!TypeRead(r.st) ==> r.st.pkt.tp == a.pkt.tp && q.st.pkt.tp == b.pkt.tp)
    ensures TypeRead(a) ==> TypeRead(Run(a, lines).st)
    decreases |lines|
  {
    hide *;
    RunUnfolds(a, lines);
    RunUnfolds(b, lines);
    StepOfTwins(a, b, lines[0]);
    var s, t := Step(a, lines[0]).st, Step(b, lines[0]).st;
    TwinsStop(s, t);
    if Step(a, lines[0]).Go? && !s.stop && |lines| > 1 {
      RunOfTwins(s, t, lines[1..]);
    }
  }

  lemma TwinsStop(a: ReadState, b: ReadState)
    requires Twins(a, b)
    ensures a.stop == b.stop && (TypeRead(a) <==> TypeRead(b))
  {
  }

  lemma RunUnfolds(st: ReadState, lines: seq<string>)
    requires lines != []
    ensures var r, s := Run(st, lines), Step(st, lines[0]);
            r == match s
                 case Bad(t, e) => ReadResult(t, Some(e), |lines| == 1)
                 case Go(t) => if t.stop || |lines| == 1 then ReadResult(t, None, |lines| == 1) else Run(t, lines[1..])
  {
    hide Step;
  }

  lemma StartsAreTwins(a: PacketType, b: PacketType)
    ensures Twins(Init(New(a)), Init(New(b))) && !TypeRead(Init(New(a)))
    ensures Init(New(a)).pkt.tp == a
  {
  }

  /** The first lines of a file settle how it counts: behind any cut lines stands a
      begin line with the tag of a request after it, or a line that is rejected
      and is not the last one. */
  ghost predicate SettlesType(lines: seq<string>)
    requires lines != []
    decreases |lines|
  {
    if IEquals(lines[0], CutLine()) then |lines| > 1 && SettlesType(lines[1..])
    else if lines[0] == BeginTag() then |lines| > 1 && (IsRequestTag(lines[1]) || |lines| > 2)
    else |lines| > 1
  }

  lemma IdleKinds(st: ReadState, line: string)
    requires st.prc == InIdle && st.dfl == InUnknown
    ensures IEquals(line, CutLine()) ==> Step(st, line) == Go(st) && line != BeginTag()
    ensures line == BeginTag() ==> Step(st, line) == Go(st.(prc := InRequest))
    ensures !IEquals(line, CutLine()) && line != BeginTag() ==> Step(st, line) == Bad(st, ExpectedStart)
  {
    if IEquals(line, CutLine()) {
      CutIsNotBegin(line);
    }
    if line == BeginTag() {
      StepBegin(st);
    }
    QualifyInverse(line, InUnknown);
    hide Qualify;
    hide IEquals;
    hide BeginTag;
    hide CutLine;
  }

  lemma RequestKinds(st: ReadState, line: string)
    requires st.prc == InRequest && st.dfl == InUnknown && !st.stop
    ensures IsRequestTag(line) ==> Step(st, line).Go? && TypeRead(Step(st, line).st) && !Step(st, line).st.stop
    ensures !IsRequestTag(line) ==> Step(st, line) == Bad(st, ExpectedRequest)
  {
    QualifyInverse(line, InUnknown);
    if IsRequestTag(line) {
      var tp: PacketType :| tp != NotTyped && line == RequestTag(tp);
      StepRequestTag(st, tp);
      hide Step;
    } else {
      hide Qualify;
    }
  }

  lemma RunStaysTyped(st: ReadState, lines: seq<string>)
    requires lines != [] && TypeRead(st)
    ensures TypeRead(Run(st, lines).st)
  {
    hide *;
    SameAreTwins(st);
    RunOfTwins(st, st, lines);
  }

  lemma SameAreTwins(st: ReadState)
    ensures Twins(st, st)
  {
  }

  lemma NotYetRead(st: ReadState)
    ensures TypeRead(st) <==> st.prc != InIdle && st.prc != InRequest
  {
  }

  /** Whether reading gets to the type, or fails before the end of the file, shows
      in the first lines. */
  lemma {:induction false} FirstLinesDecide(st: ReadState, lines: seq<string>)
    requires lines != [] && st.prc == InIdle && st.dfl == InUnknown && !st.stop
    ensures var r := Run(st, lines); SettlesType(lines) <==> TypeRead(r.st) || (r.error.Some? && !r.atEof)
    decreases |lines|
  {
    hide *;
    IdleKinds(st, lines[0]);
    RunUnfolds(st, lines);
    SettlesUnfolds(lines);
    NotYetRead(st);
    if |lines| > 1 {
      if IEquals(lines[0], CutLine()) {
        FirstLinesDecide(st, lines[1..]);
      } else if lines[0] == BeginTag() {
        var s := st.(prc := InRequest);
        RequestKinds(s, lines[1]);
        RunUnfolds(s, lines[1..]);
        NotYetRead(s);
        if IsRequestTag(lines[1]) && |lines| > 2 {
          RunStaysTyped(Step(s, lines[1]).st, lines[2..]);
          assert lines[1..][1..] == lines[2..];
        }
      }
    } else {
      NotYetRead(Step(st, lines[0]).st);
    }
  }

  lemma SettlesUnfolds(lines: seq<string>)
    requires lines != []
    ensures SettlesType(lines) <==>
      if IEquals(lines[0], CutLine()) then |lines| > 1 && SettlesType(lines[1..])
      else if lines[0] == BeginTag() then |lines| > 1 && (IsRequestTag(lines[1]) || |lines| > 2)
      else |lines| > 1
  {
    hide IEquals;
    hide IsRequestTag;
  }
}
