/** The response writer (src/txtwriter.cc). */
module Writer {
  import opened Text
  import opened Packets
  import opened Tags

  /** What a response holds, cursors apart. */
  datatype Answer = Answer(tp: PacketType, session: string, code: int, params: seq<Param>)

  class ResponsePacket {
    const base: Packet
    var code: int

    constructor ()
      ensures fresh(base) && code == 0 && base.params == [] && base.session == ""
    {
      base := new Packet(NotTyped);
      code := 0;
    }

    function View(): Answer
      reads this, base
    {
      Answer(base.tp, base.session, code, base.params)
    }
  }

  class OutStream {
    var text: string

    constructor ()
      ensures text == ""
    {
      text := "";
    }

    method Put(s: string)
      modifies this
      ensures text == old(text) + s
    {
      text := text + s;
    }

    method PutLine(s: string)
      modifies this
      ensures text == old(text) + s + "\n"
    {
      text := text + s + "\n";
    }
  }

  // ---------------------------------------------------------------- numbers

  function Digit(d: nat): char
    requires d < 10
  {
    ('0' as int + d) as char
  }

  function Digits(n: nat): (s: string)
    ensures s != "" && forall i :: 0 <= i < |s| ==> '0' <= s[i] <= '9'
  {
    if n < 10 then [Digit(n)] else Digits(n / 10) + [Digit(n % 10)]
  }

  /** into_string of an int. */
  function Decimal(n: int): (s: string)
    ensures s != "" && forall i :: 0 <= i < |s| ==> '0' <= s[i] <= '9' || s[i] == '-'
  {
    if n < 0 then "-" + Digits(-n) else Digits(n)
  }

  lemma {:induction false} DigitsInjective(a: nat, b: nat)
    requires Digits(a) == Digits(b)
    ensures a == b
    decreases a + b
  {
    var s, t := Digits(a), Digits(b);
    if a >= 10 && b >= 10 {
      assert s[..|s| - 1] == Digits(a / 10) && t[..|t| - 1] == Digits(b / 10);
      DigitsInjective(a / 10, b / 10);
      assert s[|s| - 1] == Digit(a % 10) && t[|t| - 1] == Digit(b % 10);
    }
  }

  lemma DecimalInjective(a: int, b: int)
    requires Decimal(a) == Decimal(b)
    ensures a == b
  {
    assert a < 0 ==> Decimal(a)[0] == '-' && Decimal(a)[1..] == Digits(-a);
    assert b < 0 ==> Decimal(b)[0] == '-' && Decimal(b)[1..] == Digits(-b);
    if a < 0 && b < 0 {
      DigitsInjective(-a, -b);
    } else if a >= 0 && b >= 0 {
      DigitsInjective(a, b);
    }
  }

  // ------------------------------------------------------- what is written

  function ResponseSuffix(): string { "_response" }

  /** The values of one parameter that reach the file: each turn of the inner
      loop takes one value for the log and writes the following one. */
  function EveryOther(vals: seq<string>): seq<string> {
    if vals == [] then [] else [vals[0]] + (if |vals| <= 2 then [] else EveryOther(vals[2..]))
  }

  /** The lines of the first k parameters. */
  function ParamLines(ps: seq<Param>, k: nat): seq<string>
    requires k <= |ps|
  {
    if k == 0 then [] else ParamLines(ps, k - 1) + EveryOther(Held(ps, k - 1))
  }

  function Head(a: Answer, server: string): seq<string> {
    [BeginTag(), TypeTag(a.tp) + ResponseSuffix()]
    + (if a.tp == BeginSession || a.tp == Status then [server] else [])
    + (if a.tp == BeginSession && a.code != 0 then [] else [SessionTag() + a.session])
    + [Decimal(a.code)]
  }

  function AnswerLines(a: Answer, server: string): seq<string> {
    Head(a, server) + ParamLines(a.params, |a.params|) + [EndTag()]
  }

  /** What is left to write once the value at 2k has been. */
  function Unwritten(vals: seq<string>, k: nat): seq<string> {
    if |vals| <= 2 * k + 2 then [] else EveryOther(vals[2 * k + 2..])
  }

  lemma UnwrittenStep(vals: seq<string>, k: nat)
    requires 2 * k + 2 < |vals|
    ensures Unwritten(vals, k) == [vals[2 * k + 2]] + Unwritten(vals, k + 1)
  {
    if 2 * k + 4 < |vals| {
      assert vals[2 * k + 2..][2..] == vals[2 * k + 4..];
    }
  }

  /** The inner part of the writer: one parameter. */
  method WriteValues(obj: PktParam, out: OutStream)
    modifies obj`idx, out
    ensures out.text == old(out.text) + Unlines(EveryOther(obj.vals))
  {
    var lines := |obj.vals|;
    var logged := obj.Value();
    hide *;
    FirstWritten(obj.vals);
    if logged.None? {
      return;
    }
    ghost var all := old(out.text) + Unlines(EveryOther(obj.vals));
    var shown := obj.Value();
    PutOne(out.text, shown.value, Unwritten(obj.vals, 0));
    out.PutLine(shown.value);
    ghost var k := 0;
    if lines > 1 {
      var inner := true;
      while inner
        invariant 2 * k < |obj.vals|
        invariant inner ==> obj.idx == 2 * k + 1
        invariant !inner ==> 2 * k + 2 >= |obj.vals|
        invariant out.text + Unlines(Unwritten(obj.vals, k)) == all
        decreases inner, |obj.vals| - k
      {
        logged := obj.NextValue();
        if logged.None? {
          inner := false;
        } else {
          shown := obj.NextValue();
          if shown.None? {
            inner := false;
          } else {
            UnwrittenStep(obj.vals, k);
            PutOne(out.text, shown.value, Unwritten(obj.vals, k + 1));
            out.PutLine(shown.value);
            k := k + 1;
          }
        }
      }
    }
    AllWritten(out.text, obj.vals, k);
  }

  lemma FirstWritten(vals: seq<string>)
    ensures vals == [] ==> Unlines(EveryOther(vals)) == ""
    ensures vals != [] ==> EveryOther(vals) == [vals[0]] + Unwritten(vals, 0)
  {
  }

  lemma PutOne(text: string, line: string, rest: seq<string>)
    ensures text + Unlines([line] + rest) == text + line + "\n" + Unlines(rest)
  {
    assert ([line] + rest)[1..] == rest;
    assert text + (line + "\n" + Unlines(rest)) == text + line + "\n" + Unlines(rest);
  }

  lemma AllWritten(text: string, vals: seq<string>, k: nat)
    requires |vals| <= 2 * k + 2
    ensures text + Unlines(Unwritten(vals, k)) == text
  {
  }

  lemma OneLine(text: string, line: string)
    ensures text + line + "\n" == text + Unlines([line])
  {
    assert line + "\n" + "" == line + "\n";
    assert text + (line + "\n") == text + line + "\n";
  }

  lemma LinesGrow(text: string, ls: seq<string>, line: string)
    ensures text + Unlines(ls) + line + "\n" == text + Unlines(ls + [line])
  {
    OneLine(text + Unlines(ls), line);
    UnlinesAppend(ls, [line]);
    assert text + Unlines(ls) + Unlines([line]) == text + (Unlines(ls) + Unlines([line]));
  }

  /** The outer part: parameter after parameter, all read into one object. */
  method WriteParams(base: Packet, out: OutStream)
    modifies base`idx, out
    ensures out.text == old(out.text) + Unlines(ParamLines(base.params, |base.params|))
  {
    var head, outer := true, true;
    var obj := new PktParam("", []);
    ghost var ps := base.params;
    ghost var k := 0;
    hide *;
    NoParamLines(ps, old(out.text));
    while outer
      invariant k <= |ps| && (head <==> k == 0) && (!head ==> base.idx == k)
      invariant obj.vals == if k == 0 then [] else Held(ps, k - 1)
      invariant !outer ==> k == |ps|
      invariant out.text == old(out.text) + Unlines(ParamLines(ps, k))
      decreases outer, |ps| - k
    {
      var p;
      if head {
        p := base.FirstParam();
      } else {
        p := base.NextParam();
      }
      if p.None? {
        outer := false;
      } else {
        head := false;
        HeldStep(ps, k);
        obj.Copy(p.value);
        MoreParamLines(old(out.text), ps, k);
        WriteValues(obj, out);
        k := k + 1;
      }
    }
  }

  lemma NoParamLines(ps: seq<Param>, text: string)
    ensures text + Unlines(ParamLines(ps, 0)) == text
  {
  }

  lemma HeldStep(ps: seq<Param>, k: nat)
    requires k < |ps|
    ensures Held(ps, k) == if ps[k].values != [] then ps[k].values else if k == 0 then [] else Held(ps, k - 1)
  {
  }

  lemma MoreParamLines(text: string, ps: seq<Param>, k: nat)
    requires k < |ps|
    ensures text + Unlines(ParamLines(ps, k + 1))
         == text + Unlines(ParamLines(ps, k)) + Unlines(EveryOther(Held(ps, k)))
  {
    hide Unlines;
    hide EveryOther;
    hide Held;
    UnlinesAppend(ParamLines(ps, k), EveryOther(Held(ps, k)));
    assert ParamLines(ps, k + 1) == ParamLines(ps, k) + EveryOther(Held(ps, k));
  }

  lemma SplitLine(text: string, a: string, b: string)
    ensures text + a + b + "\n" == text + (a + b) + "\n"
  {
  }

  method WriteHead(pkt: ResponsePacket, server: string, out: OutStream)
    modifies out
    ensures out.text == old(out.text) + Unlines(Head(pkt.View(), server))
  {
    hide Unlines;
    hide BeginTag;
    hide TypeTag;
    hide SessionTag;
    hide ResponseSuffix;
    hide Decimal;
    ghost var start := out.text;
    ghost var ls := [BeginTag()];
    out.PutLine(BeginTag());
    OneLine(start, BeginTag());
    SplitLine(out.text, TypeTag(pkt.base.tp), ResponseSuffix());
    LinesGrow(start, ls, TypeTag(pkt.base.tp) + ResponseSuffix());
    ls := ls + [TypeTag(pkt.base.tp) + ResponseSuffix()];
    out.Put(TypeTag(pkt.base.tp));
    out.PutLine(ResponseSuffix());
    if pkt.base.tp == BeginSession || pkt.base.tp == Status {
      out.PutLine(server);
      LinesGrow(start, ls, server);
      ls := ls + [server];
    }
    if pkt.base.tp == BeginSession && pkt.code != 0 {
    } else {
      SplitLine(out.text, SessionTag(), pkt.base.session);
      LinesGrow(start, ls, SessionTag() + pkt.base.session);
      ls := ls + [SessionTag() + pkt.base.session];
      out.Put(SessionTag());
      out.PutLine(pkt.base.session);
    }
    LinesGrow(start, ls, Decimal(pkt.code));
    out.PutLine(Decimal(pkt.code));
    assert ls + [Decimal(pkt.code)] == Head(pkt.View(), server);
  }

  /** write_packet puts the answer's lines, whatever the cursors of the packet
      were, and leaves its contents alone. */
  method WritePacket(pkt: ResponsePacket, server: string, out: OutStream)
    modifies pkt.base`idx, out
    ensures out.text == old(out.text) + Unlines(AnswerLines(pkt.View(), server))
  {
    hide Head;
    hide ParamLines;
    hide EndTag;
    hide Unlines;
    hide AnswerLines;
    WriteHead(pkt, server, out);
    WriteParams(pkt.base, out);
    out.PutLine(EndTag());
    AnswerText(old(out.text), pkt.View(), server);
  }

  lemma AnswerText(text: string, a: Answer, server: string)
    ensures text + Unlines(AnswerLines(a, server))
         == text + Unlines(Head(a, server)) + Unlines(ParamLines(a.params, |a.params|)) + EndTag() + "\n"
  {
    hide Head;
    hide ParamLines;
    hide EndTag;
    hide Unlines;
    var ps := ParamLines(a.params, |a.params|);
    UnlinesAppend(Head(a, server), ps);
    LinesGrow(text, Head(a, server) + ps, EndTag());
    assert text + (Unlines(Head(a, server)) + Unlines(ps)) == text + Unlines(Head(a, server)) + Unlines(ps);
  }

  // --------------------------------------------------- what a reader can tell

  predicate SingleValued(ps: seq<Param>) {
    forall i :: 0 <= i < |ps| ==> |ps[i].values| == 1
  }

  function FirstValues(ps: seq<Param>): (vs: seq<string>)
    requires SingleValued(ps)
    ensures |vs| == |ps| && forall i :: 0 <= i < |ps| ==> vs[i] == ps[i].values[0]
  {
    seq(|ps|, i requires 0 <= i < |ps| => ps[i].values[0])
  }

  /** All the values of a parameter are written exactly when it has no second. */
  lemma {:induction false} WritesAllValues(vals: seq<string>)
    ensures EveryOther(vals) == vals <==> |vals| <= 1
    ensures |EveryOther(vals)| == (|vals| + 1) / 2
    decreases |vals|
  {
    if |vals| > 2 {
      WritesAllValues(vals[2..]);
    }
  }

  /** Those written are the values at even positions. */
  lemma {:induction false} WrittenAt(vals: seq<string>, k: nat)
    requires 2 * k < |vals|
    ensures k < |EveryOther(vals)| && EveryOther(vals)[k] == vals[2 * k]
    decreases |vals|
  {
    if k > 0 {
      WrittenAt(vals[2..], k - 1);
    }
  }

  /** One line for each parameter, in order. */
  lemma {:induction false} SingleValuesAreWritten(ps: seq<Param>, k: nat)
    requires SingleValued(ps) && k <= |ps|
    ensures ParamLines(ps, k) == FirstValues(ps)[..k]
  {
    if k > 0 {
      SingleValuesAreWritten(ps, k - 1);
      assert Held(ps, k - 1) == ps[k - 1].values;
      assert FirstValues(ps)[..k] == FirstValues(ps)[..k - 1] + [ps[k - 1].values[0]];
    }
  }

  /** Responses as the broker and the collector build them. */
  predicate Plain(a: Answer) {
    SingleValued(a.params) && NewlineFree(FirstValues(a.params)) && '\n' !in a.session
  }

  lemma PlainLines(a: Answer, server: string)
    requires Plain(a) && '\n' !in server
    ensures AnswerLines(a, server) == Head(a, server) + FirstValues(a.params) + [EndTag()]
    ensures NewlineFree(AnswerLines(a, server))
  {
    SingleValuesAreWritten(a.params, |a.params|);
    TagsAreLines(a.tp);
    hide EndTag;
    hide BeginTag;
    hide TypeTag;
    hide SessionTag;
    hide ResponseSuffix;
    hide FirstValues;
    assert '\n' !in Decimal(a.code);
    assert NewlineFree(Head(a, server));
  }

  lemma TagsAreLines(tp: PacketType)
    ensures '\n' !in BeginTag() && '\n' !in EndTag() && '\n' !in SessionTag()
    ensures '\n' !in TypeTag(tp) + ResponseSuffix()
  {
  }

  lemma SameHeads(a: Answer, b: Answer, server: string, restA: seq<string>, restB: seq<string>)
    requires Head(a, server) + restA == Head(b, server) + restB
    ensures a.tp == b.tp && a.code == b.code && restA == restB
    ensures a.session == b.session || (a.tp == BeginSession && a.code != 0)
  {
    var la, lb := Head(a, server) + restA, Head(b, server) + restB;
    var sa, sb := TypeTag(a.tp) + ResponseSuffix(), TypeTag(b.tp) + ResponseSuffix();
    assert la[1] == sa && lb[1] == sb;
    assert sa[..|sa| - 9] == TypeTag(a.tp) && sb[..|sb| - 9] == TypeTag(b.tp);
    TypeTagsDiffer(a.tp, b.tp);
    hide TypeTag;
    hide BeginTag;
    hide ResponseSuffix;
    var k := if a.tp == BeginSession || a.tp == Status then 3 else 2;
    assert SessionTag()[0] == 's';
    assert la[k] == lb[k];
    if a.tp == BeginSession && a.code != 0 {
      assert la[k] == Decimal(a.code);
      assert la[k][0] != 's';
      assert b.code != 0;
      DecimalInjective(a.code, b.code);
      assert la[k + 1..] == restA && lb[k + 1..] == restB;
    } else {
      assert la[k] == SessionTag() + a.session && la[k][0] == 's';
      assert lb[k] == SessionTag() + b.session;
      assert la[k][11..] == a.session && lb[k][11..] == b.session;
      assert la[k + 1] == Decimal(a.code) && lb[k + 1] == Decimal(b.code);
      DecimalInjective(a.code, b.code);
      assert la[k + 2..] == restA && lb[k + 2..] == restB;
    }
  }

  /** The text of a response determines its type, code, values and session; the
      session is not written when a session could not be opened. */
  lemma TextDeterminesAnswer(a: Answer, b: Answer, server: string)
    requires Plain(a) && Plain(b) && '\n' !in server
    requires Unlines(AnswerLines(a, server)) == Unlines(AnswerLines(b, server))
    ensures a.tp == b.tp && a.code == b.code && FirstValues(a.params) == FirstValues(b.params)
    ensures a.session == b.session || (a.tp == BeginSession && a.code != 0)
  {
    PlainLines(a, server);
    PlainLines(b, server);
    UnlinesInjective(AnswerLines(a, server), AnswerLines(b, server));
    hide AnswerLines;
    hide Head;
    hide EndTag;
    hide NewlineFree;
    var va, vb := FirstValues(a.params), FirstValues(b.params);
    assert Head(a, server) + va + [EndTag()] == Head(a, server) + (va + [EndTag()]);
    assert Head(b, server) + vb + [EndTag()] == Head(b, server) + (vb + [EndTag()]);
    SameHeads(a, b, server, va + [EndTag()], vb + [EndTag()]);
    assert va == (va + [EndTag()])[..|va|] && vb == (vb + [EndTag()])[..|vb|];
  }
}
