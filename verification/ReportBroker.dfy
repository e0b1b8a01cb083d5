/** The broker command that opens a report, prints a message and closes the
    report (src/ecfbroker.cc), and when it leaves the report open. */
module ReportBroker {
  import opened Text
  import opened Packets
  import opened Reader
  import opened Grammar
  import opened Report

  function TitleName(): string { "titulo" }

  // ------------------------------------------------------------ message text

  function UpToBlank(lines: seq<string>): string {
    if lines == [] || lines[0] == "" then "" else lines[0] + UpToBlank(lines[1..])
  }

  /** The first value and those behind it up to the first empty one. */
  function MessageText(lines: seq<string>): string
    requires lines != []
  {
    lines[0] + UpToBlank(lines[1..])
  }

  function Concat(lines: seq<string>): string {
    if lines == [] then "" else lines[0] + Concat(lines[1..])
  }

  lemma {:induction false} UpToBlankIs(lines: seq<string>, n: nat)
    requires n <= |lines| && (forall j :: 0 <= j < n ==> lines[j] != "") && (n < |lines| ==> lines[n] == "")
    ensures UpToBlank(lines) == Concat(lines[..n])
    decreases n
  {
    if n > 0 {
      UpToBlankIs(lines[1..], n - 1);
      assert lines[..n][1..] == lines[1..][..n - 1];
    }
  }

  lemma {:induction false} ConcatLength(lines: seq<string>, n: nat)
    requires n <= |lines|
    ensures |Concat(lines[..n])| <= |Concat(lines)|
    ensures Concat(lines[..n]) == Concat(lines) <==> forall j :: n <= j < |lines| ==> lines[j] == ""
  {
    if n > 0 {
      var rest := lines[1..];
      ConcatLength(rest, n - 1);
      assert lines[..n][1..] == rest[..n - 1];
      assert forall j :: n - 1 <= j < |rest| ==> rest[j] == lines[j + 1];
      assert forall j :: n <= j < |lines| ==> lines[j] == rest[j - 1];
      assert lines[..n][0] == lines[0];
      var a, b := Concat(rest[..n - 1]), Concat(rest);
      assert lines[0] + a == lines[0] + b ==> a == (lines[0] + a)[|lines[0]|..] == b;
    } else {
      assert lines[..0] == [];
      ConcatEmpty(lines);
    }
  }

  lemma {:induction false} ConcatEmpty(lines: seq<string>)
    ensures Concat(lines) == "" <==> forall j :: 0 <= j < |lines| ==> lines[j] == ""
  {
    if lines != [] {
      var rest := lines[1..];
      ConcatEmpty(rest);
      assert forall j :: 0 <= j < |rest| ==> rest[j] == lines[j + 1];
      assert forall j :: 1 <= j < |lines| ==> lines[j] == rest[j - 1];
    }
  }

  /** No blank line behind the first is followed by text. */
  predicate TextBeforeBlanks(lines: seq<string>) {
    forall i, j :: 1 <= i < j < |lines| && lines[i] == "" ==> lines[j] == ""
  }

  /** A message is printed whole, its lines run together, exactly when no text
      stands behind a blank line other than the first line. */
  lemma {:induction false} MessageIsWhole(lines: seq<string>)
    requires lines != []
    ensures MessageText(lines) == Concat(lines) <==> TextBeforeBlanks(lines)
  {
    var rest := lines[1..];
    var n := 0;
    while n < |rest| && rest[n] != ""
      invariant n <= |rest| && forall j :: 0 <= j < n ==> rest[j] != ""
    {
      n := n + 1;
    }
    UpToBlankIs(rest, n);
    ConcatLength(rest, n);
    var a, b := UpToBlank(rest), Concat(rest);
    assert lines[0] + a == lines[0] + b ==> a == (lines[0] + a)[|lines[0]|..] == b;
    assert forall j :: 1 <= j < |lines| ==> lines[j] == rest[j - 1];
    assert forall j :: 0 <= j < |rest| ==> rest[j] == lines[j + 1];
    assert n < |rest| ==> lines[n + 1] == "";
  }

  /** What is printed of a message: its lines up to the first blank one, the first
      line apart. */
  lemma MessageStopsAt(lines: seq<string>, n: nat)
    requires 1 <= n <= |lines| && (forall j :: 1 <= j < n ==> lines[j] != "") && (n < |lines| ==> lines[n] == "")
    ensures MessageText(lines) == Concat(lines[..n])
  {
    UpToBlankIs(lines[1..], n - 1);
    assert lines[..n][1..] == lines[1..][..n - 1];
  }

  // ------------------------------------------------------------- the command

  /** What the parameters ask for: nothing without a title; an open report and
      no more without a message; otherwise the whole report. */
  datatype Plan = NoTitle | OpenOnly(title: string) | Whole(title: string, body: seq<Event>)

  function Body(text: string): seq<Event> {
    if text == "" then [] else Printed(text, CutTag())
  }

  function PlanOf(ps: seq<Param>): Plan {
    match Lookup(ps, TitleName())
    case None => NoTitle
    case Some(title) =>
      LookupHasValues(ps, TitleName());
      match Lookup(ps, MessageName())
      case None => OpenOnly(title.values[0])
      case Some(msg) =>
        LookupHasValues(ps, MessageName());
        Whole(title.values[0], Body(MessageText(msg.values)))
  }

  function Events(p: Plan): seq<Event> {
    match p
    case NoTitle => []
    case OpenOnly(title) => [Open(title)]
    case Whole(title, body) => [Open(title)] + body + [Close]
  }

  datatype Outcome = Done | DeviceError | ParamMissing

  lemma NamesAreWords()
    ensures Trim(TitleName()) != "" && Trim(MessageName()) != ""
  {
    FoldOfWord("titulo");
    FoldOfWord("mensagem");
  }

  /** snd_abre_gerencial. Only the exceptions of a packet are caught around the
      message; a parameter that is not found raises another one, which passes. */
  method AbreGerencial(pkt: Packet, printer: Printer) returns (r: Outcome)
    modifies pkt`idx, printer
    ensures var p := PlanOf(pkt.params); var all := old(printer.trace) + Events(p);
            && (r == Done ==> p.Whole? && printer.trace == all)
            && (r == ParamMissing ==> !p.Whole? && printer.trace == all)
            && (r == DeviceError ==> old(printer.trace) <= printer.trace < all)
  {
    hide *;
    NamesAreWords();
    ghost var ps, before := pkt.params, printer.trace;
    PlanIs(ps);
    var titulo := GetParamValueByName(TitleName(), pkt);
    if titulo.None? {
      return ParamMissing;
    }
    var ok := printer.Accept(Open(titulo.value));
    if !ok {
      return DeviceError;
    }
    var msg := GetParamByName(MessageName(), pkt);
    if msg.None? {
      return ParamMissing;
    }
    var texto := JoinMessage(msg.value);
    BodyIs(texto);
    Regroup(before, [Open(titulo.value)], Body(texto) + [Close], before + Events(PlanOf(ps)));
    Regroup(printer.trace, Body(texto), [Close], before + Events(PlanOf(ps)));
    if texto != "" {
      ok := printer.TxtRelGerencialTag(texto, CutTag());
      if !ok {
        return DeviceError;
      }
    }
    ok := printer.Accept(Close);
    r := if ok then Done else DeviceError;
  }

  lemma PlanIs(ps: seq<Param>)
    ensures var t, m, p := Lookup(ps, TitleName()), Lookup(ps, MessageName()), PlanOf(ps);
            && (t.None? ==> p == NoTitle && Events(p) == [])
            && (t.Some? ==> t.value.values != [])
            && (t.Some? && m.None? ==> p == OpenOnly(t.value.values[0]) && Events(p) == [Open(t.value.values[0])])
            && (m.Some? ==> m.value.values != [])
            && (t.Some? && m.Some? ==>
                  && p == Whole(t.value.values[0], Body(MessageText(m.value.values)))
                  && Events(p) == [Open(t.value.values[0])] + (Body(MessageText(m.value.values)) + [Close]))
  {
    LookupHasValues(ps, TitleName());
    LookupHasValues(ps, MessageName());
    hide Lookup;
    hide Body;
    hide MessageText;
  }

  lemma BodyIs(text: string)
    ensures Body(text) == if text == "" then [] else Printed(text, CutTag())
    ensures CutTag() != "" && '\0' !in CutTag()
  {
  }

  /** The loop over the values of the message. */
  method JoinMessage(msg: PktParam) returns (texto: string)
    requires msg.vals != []
    modifies msg`idx
    ensures texto == MessageText(msg.vals)
  {
    var first := msg.Value();
    texto := "";
    match first {
      case None =>
      case Some(txt) =>
        var slice := txt;
        texto := slice;
        var more := true;
        while more
          invariant msg.vals == old(msg.vals) && 1 <= msg.idx <= |msg.vals|
          invariant texto + (if more then UpToBlank(msg.vals[msg.idx..]) else "") == MessageText(msg.vals)
          decreases |msg.vals| - msg.idx, more
        {
          ghost var rest := msg.vals[msg.idx..];
          assert rest != [] ==> rest[1..] == msg.vals[msg.idx + 1..];
          var next := msg.NextValue();
          match next {
            case Some(txt) =>
              slice := txt;
              texto := texto + slice;
            case None =>
              slice := "";
          }
          more := slice != "";
        }
    }
  }

  // ------------------------------------------------------- whole and open reports

  /** The first parameter of a name can be handed out if it has values or a
      parameter before it has some. */
  ghost predicate Found(ps: seq<Param>, name: string) {
    exists k :: IsFirstMatch(ps, name, k) && HasValues(ps, k)
  }

  predicate HasValues(ps: seq<Param>, k: nat)
    requires k < |ps|
  {
    exists j :: 0 <= j <= k && ps[j].values != []
  }

  lemma {:induction false} HeldIsSome(ps: seq<Param>, k: nat)
    requires k < |ps|
    ensures Held(ps, k) != [] <==> HasValues(ps, k)
  {
    if ps[k].values == [] && k > 0 {
      HeldIsSome(ps, k - 1);
    }
  }

  lemma {:induction false} LookupFinds(ps: seq<Param>, name: string, k: nat)
    requires k <= |ps| && forall j :: 0 <= j < k ==> !IEquals(ps[j].name, name)
    ensures LookupFrom(ps, name, k).Some? <==> Found(ps, name)
    decreases |ps| - k
  {
    hide IEquals;
    if k < |ps| {
      if IEquals(ps[k].name, name) {
        HeldIsSome(ps, k);
        assert IsFirstMatch(ps, name, k);
        assert forall i :: IsFirstMatch(ps, name, i) ==> i == k;
      } else {
        LookupFinds(ps, name, k + 1);
      }
    }
  }

  /** The report is printed and closed exactly if both parameters can be found,
      and left open exactly if the title alone can. */
  lemma ReportIsClosedIff(ps: seq<Param>)
    ensures PlanOf(ps).Whole? <==> Found(ps, TitleName()) && Found(ps, MessageName())
    ensures PlanOf(ps).OpenOnly? <==> Found(ps, TitleName()) && !Found(ps, MessageName())
    ensures PlanOf(ps).Whole? <==> Events(PlanOf(ps)) != [] && Events(PlanOf(ps))[|Events(PlanOf(ps))| - 1] == Close
  {
    hide *;
    LookupFinds(ps, TitleName(), 0);
    LookupFinds(ps, MessageName(), 0);
    LookupIs(ps);
    PlanIs(ps);
  }

  lemma LookupIs(ps: seq<Param>)
    ensures Lookup(ps, TitleName()) == LookupFrom(ps, TitleName(), 0)
    ensures Lookup(ps, MessageName()) == LookupFrom(ps, MessageName(), 0)
  {
  }

  // -------------------------------------------------- from the file to the paper

  lemma {:induction false} UpToBlankIsPrefix(lines: seq<string>)
    ensures UpToBlank(lines) <= Concat(lines)
  {
    if lines != [] {
      UpToBlankIsPrefix(lines[1..]);
    }
  }

  lemma MessageIsPrefix(lines: seq<string>)
    requires lines != []
    ensures MessageText(lines) <= Concat(lines)
  {
    UpToBlankIsPrefix(lines[1..]);
  }

  /** The paper shows the lines of a message, run together and cut at the tag,
      exactly if no text follows a blank line and there is no NUL. */
  lemma PaperShowsTheMessage(lines: seq<string>)
    requires lines != []
    ensures Render(Body(MessageText(lines)), CutTag()) == Concat(lines)
       <==> TextBeforeBlanks(lines) && '\0' !in Concat(lines)
  {
    hide *;
    var text := MessageText(lines);
    BodyIs(text);
    MessageIsPrefix(lines);
    MessageIsWhole(lines);
    RenderNothing(CutTag());
    PaperShowsTheText(text, CutTag());
    PaperHasNoNul(text, CutTag());
  }

  lemma PaperHasNoNul(text: string, tag: string)
    requires tag != "" && '\0' !in tag
    ensures '\0' !in Render(Printed(text, tag), tag)
  {
    SheetsRender(Split(text, tag), tag);
  }

  function ReportCommand(session: string, id: string, title: string,
                         open: string, lines: seq<string>, close: string): Command {
    Command(Execut, session, id, [Item.Pair(TitleName(), title), Block(open, lines, close)])
  }

  lemma ReportParams(title: string, open: string, lines: seq<string>, close: string)
    ensures DenoteItems([Item.Pair(TitleName(), title), Block(open, lines, close)], [])
         == [Param(TitleName(), [title]), Param(MessageName(), lines)]
  {
    var items := [Item.Pair(TitleName(), title), Block(open, lines, close)];
    assert items[1..] == [Block(open, lines, close)];
    assert DenoteItems(items[1..], []) == [Param(MessageName(), [] + lines)] + DenoteItems(items[1..][1..], [] + lines);
    assert [] + lines == lines;
  }

  lemma PlanOfReport(title: string, lines: seq<string>)
    ensures PlanOf([Param(TitleName(), [title]), Param(MessageName(), lines)])
         == Whole(title, Body(MessageText(ShownLines(title, lines))))
  {
    hide *;
    TitleFound(title, lines);
    if lines == [] {
      LookupOfEmptyMessage(title);
    } else {
      MessageFound(title, lines);
    }
    NamesOf();
    OneLine(title);
    ShownIs(title, lines);
    PlanIs([Param(TitleName(), [title]), Param(MessageName(), lines)]);
  }

  lemma ShownIs(title: string, lines: seq<string>)
    ensures ShownLines(title, lines) == if lines == [] then [title] else lines
  {
  }

  lemma NamesOf()
    ensures TitleName() == "titulo" && MessageName() == "mensagem"
  {
  }

  lemma OneLine(title: string)
    ensures MessageText([title]) == title
  {
  }

  lemma TitleFound(title: string, lines: seq<string>)
    ensures Lookup([Param(TitleName(), [title]), Param(MessageName(), lines)], TitleName())
         == Some(Param(TitleName(), [title]))
  {
    var ps := [Param(TitleName(), [title]), Param(MessageName(), lines)];
    SameWord();
    hide IEquals;
    hide Lookup;
    LookupReturnsFirstMatch(ps, TitleName(), 0);
  }

  lemma MessageFound(title: string, lines: seq<string>)
    requires lines != []
    ensures Lookup([Param(TitleName(), [title]), Param(MessageName(), lines)], MessageName())
         == Some(Param(MessageName(), lines))
  {
    var ps := [Param(TitleName(), [title]), Param(MessageName(), lines)];
    NamesDiffer();
    hide IEquals;
    hide Lookup;
    LookupReturnsFirstMatch(ps, MessageName(), 1);
  }

  lemma SameWord()
    ensures IEquals(TitleName(), TitleName())
  {
    IEqualsIsFoldEquality("titulo", "titulo");
  }

  /** The lines a report shows: those of its block, or the title for a block
      without any. */
  function ShownLines(title: string, lines: seq<string>): (shown: seq<string>)
    ensures shown != []
  {
    if lines == [] then [title] else lines
  }

  /** Opening and closing put nothing on the paper. */
  lemma WholeReportShows(title: string, body: seq<Event>, tag: string)
    ensures Events(Whole(title, body)) == [Open(title)] + body + [Close]
    ensures Render(Events(Whole(title, body)), tag) == Render(body, tag)
  {
    var all := [Open(title)] + body;
    RenderAppend(all, [Close], tag);
    RenderAppend([Open(title)], body, tag);
    RenderCons(Open(title), [], tag);
    RenderCons(Close, [], tag);
    RenderNothing(tag);
    assert [Open(title)] + [] == [Open(title)] && [Close] + [] == [Close];
    hide Render;
  }

  /** From the characters of a command file to the paper: a report with one block
      of lines, read and printed, leaves the trace of a whole report, and the
      paper shows the lines exactly if no text follows a blank line and there is
      no NUL. A block without lines prints the title. */
  lemma FileToPaper(garbage: PacketType, cuts: seq<string>, session: string, id: string, title: string,
                    open: string, lines: seq<string>, close: string, tail: string)
    requires var c := ReportCommand(session, id, title, open, lines, close);
             WellFormed(c) && AllCuts(cuts) && NewlineFree(cuts + Print(c))
    ensures var c := ReportCommand(session, id, title, open, lines, close);
            var r := Run(Init(New(garbage)), Lines(Unlines(cuts + Print(c)) + tail));
            var plan, shown := PlanOf(r.st.pkt.params), ShownLines(title, lines);
            && Complete(r) && plan.Whole?
            && Events(plan) == [Open(title)] + Body(MessageText(shown)) + [Close]
            && (Render(Events(plan), CutTag()) == Concat(shown)
                <==> TextBeforeBlanks(shown) && '\0' !in Concat(shown))
  {
    hide *;
    var c := ReportCommand(session, id, title, open, lines, close);
    var shown := ShownLines(title, lines);
    TextRoundTrip(garbage, cuts, c, tail);
    DenoteOf(session, id, title, open, lines, close);
    PlanOfReport(title, lines);
    WholeReportShows(title, Body(MessageText(shown)), CutTag());
    PaperShowsTheMessage(shown);
  }

  lemma DenoteOf(session: string, id: string, title: string, open: string, lines: seq<string>, close: string)
    ensures Denote(ReportCommand(session, id, title, open, lines, close)).params
         == [Param(TitleName(), [title]), Param(MessageName(), lines)]
  {
    ReportParams(title, open, lines, close);
  }
}
