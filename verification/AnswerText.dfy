/** What a client makes of the text of an answer (src/txtwriter.cc): the session
    and the code are found by their lines, and the values follow. */
module AnswerText {
  import opened Text
  import opened Packets
  import opened Tags
  import opened Writer
  import opened TaxTable
  import opened Rates

  // ------------------------------------------------------------- numerals

  /** A code is read back from its numeral. */
  lemma CodeRoundTrip(n: int)
    ensures Atoi(Decimal(n)) == n
  {
    var m := if n < 0 then -n else n;
    NumberOfDigits(m);
    AtoiWhole(Digits(m));
  }

  // ------------------------------------------------------------ the client

  /** The lines of an answer as a client goes through them: two lines of head, one
      more for a begin or a status, the session if its line is there, the code, the
      values and the end. */
  predicate ReadsAs(ls: seq<string>, a: Answer, values: seq<string>) {
    var k := if a.tp == BeginSession || a.tp == Status then 3 else 2;
    && |ls| >= k + 2 && ls[0] == "<ecf_sgi_begin>" && ls[1] == TypeTag(a.tp) + "_response"
    && (if "session_id:" <= ls[k] then
          && ls[k][11..] == a.session && Atoi(ls[k + 1]) == a.code
          && ls[k + 2..] == values + ["<ecf_sgi_end>", ""]
        else
          && a.tp == BeginSession && a.code != 0 && Atoi(ls[k]) == a.code
          && ls[k + 1..] == values + ["<ecf_sgi_end>", ""])
  }

  /** The session is found exactly unless a begin failed; the code always. */
  lemma ClientReads(a: Answer, server: string)
    requires Plain(a) && '\n' !in server
    ensures var ls := Lines(Unlines(AnswerLines(a, server)));
            ReadsAs(ls, a, FirstValues(a.params))
            && ("session_id:" <= ls[if a.tp == BeginSession || a.tp == Status then 3 else 2]
                <==> !(a.tp == BeginSession && a.code != 0))
  {
    PlainValues(a);
    hide *;
    LinesOfAnswer(a, server);
    CodeRoundTrip(a.code);
    NumeralStarts(a.code);
    ReadsHead(a, server, FirstValues(a.params));
  }

  lemma LinesOfAnswer(a: Answer, server: string)
    requires Plain(a) && SingleValued(a.params) && '\n' !in server
    ensures Lines(Unlines(AnswerLines(a, server)))
         == Head(a, server) + (FirstValues(a.params) + ["<ecf_sgi_end>", ""])
  {
    hide *;
    var lines, values := AnswerLines(a, server), FirstValues(a.params);
    PlainLines(a, server);
    LinesOfUnlines(lines, "");
    NoText(Unlines(lines));
    HeadIs(a, server);
    Regrouped(Head(a, server), values, EndTag());
  }

  lemma Regrouped(head: seq<string>, values: seq<string>, end: string)
    ensures head + values + [end] + [""] == head + (values + [end, ""])
  {
  }

  lemma NoText(text: string)
    ensures text + "" == text && Lines("") == [""]
  {
    PiecesCons("", '\n', "");
  }

  lemma NumeralStarts(n: int)
    ensures !("session_id:" <= Decimal(n))
  {
    assert "session_id:"[0] == 's' && Decimal(n)[0] != 's';
  }

  lemma PlainValues(a: Answer)
    requires Plain(a)
    ensures SingleValued(a.params)
  {
  }

  lemma HeadIs(a: Answer, server: string)
    ensures Head(a, server)
         == ["<ecf_sgi_begin>", TypeTag(a.tp) + "_response"]
            + (if a.tp == BeginSession || a.tp == Status then [server] else [])
            + (if a.tp == BeginSession && a.code != 0 then [] else ["session_id:" + a.session])
            + [Decimal(a.code)]
    ensures EndTag() == "<ecf_sgi_end>"
  {
    hide Decimal;
    hide TypeTag;
  }

  lemma ReadsHead(a: Answer, server: string, values: seq<string>)
    requires Atoi(Decimal(a.code)) == a.code && !("session_id:" <= Decimal(a.code))
    ensures var ls := Head(a, server) + (values + ["<ecf_sgi_end>", ""]);
            ReadsAs(ls, a, values)
            && ("session_id:" <= ls[if a.tp == BeginSession || a.tp == Status then 3 else 2]
                <==> !(a.tp == BeginSession && a.code != 0))
  {
    HeadIs(a, server);
    hide Head;
    hide Atoi;
    hide Decimal;
    hide TypeTag;
    var ls := Head(a, server) + (values + ["<ecf_sgi_end>", ""]);
    var k := if a.tp == BeginSession || a.tp == Status then 3 else 2;
    if a.tp == BeginSession && a.code != 0 {
      assert ls[k] == Decimal(a.code);
    } else {
      var line := "session_id:" + a.session;
      assert ls[k] == line && line[..11] == "session_id:" && line[11..] == a.session;
    }
  }
}
