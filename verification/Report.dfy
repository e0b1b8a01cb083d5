/** Report texts: the splitter of the driver (src/ecfbematech.cc), which prints
    in chunks and cuts the paper at a tag, and the broker command that opens a
    report, prints a message and closes the report (src/ecfbroker.cc). */
module Report {
  import opened Text

  /** A printer call that was accepted. */
  datatype Event = Open(title: string) | Chunk(text: string) | Cut | Close

  const CHUNK_SIZE: nat := 480

  function CutTag(): string { "cortar_papel_ecf" }

  // ------------------------------------------------------------------ chunks

  function Chunks(s: string): seq<Event>
    decreases |s|
  {
    if s == "" then []
    else if |s| <= CHUNK_SIZE then [Chunk(s)]
    else [Chunk(s[..CHUNK_SIZE])] + Chunks(s[CHUNK_SIZE..])
  }

  /** The text a trace puts on paper, with a tag for every cut. */
  function Render(events: seq<Event>, tag: string): string {
    if events == [] then "" else Shown(events[0], tag) + Render(events[1..], tag)
  }

  function Shown(e: Event, tag: string): string {
    match e
    case Chunk(text) => text
    case Cut => tag
    case _ => ""
  }

  predicate GoodChunk(e: Event) {
    e.Chunk? && 1 <= |e.text| <= CHUNK_SIZE
  }

  predicate Full(e: Event) {
    e.Chunk? && |e.text| == CHUNK_SIZE
  }

  lemma {:induction false} RenderAppend(a: seq<Event>, b: seq<Event>, tag: string)
    ensures Render(a + b, tag) == Render(a, tag) + Render(b, tag)
  {
    hide *;
    RenderNothing(tag);
    if a == [] {
      assert a + b == b;
    } else {
      var e, rest := a[0], a[1..];
      RenderAppend(rest, b, tag);
      RenderCons(e, rest, tag);
      RenderCons(e, rest + b, tag);
      Associates(Shown(e, tag), Render(rest, tag), Render(b, tag));
      Associates([e], rest, b);
      assert a == [e] + rest;
    }
  }

  lemma RenderNothing(tag: string)
    ensures Render([], tag) == ""
  {
  }

  lemma RenderCons(e: Event, rest: seq<Event>, tag: string)
    ensures Render([e] + rest, tag) == Shown(e, tag) + Render(rest, tag)
  {
    hide Shown;
    assert ([e] + rest)[1..] == rest;
  }

  lemma RenderOne(e: Event, tag: string)
    requires e.Chunk? || e.Cut?
    ensures Render([e], tag) == if e.Chunk? then e.text else tag
  {
    assert Render([], tag) == "";
  }

  /** Chunking loses nothing, no chunk is empty or too long, and only the last
      may be short. */
  lemma {:induction false} ChunksOfText(s: string, tag: string)
    ensures Render(Chunks(s), tag) == s
    ensures forall i :: 0 <= i < |Chunks(s)| ==> GoodChunk(Chunks(s)[i])
    ensures forall i :: 0 <= i < |Chunks(s)| - 1 ==> Full(Chunks(s)[i])
    ensures forall i :: 0 <= i < |Chunks(s)| ==> Chunks(s)[i].Chunk? && 1 <= |Chunks(s)[i].text| <= 480
    ensures forall i :: 0 <= i < |Chunks(s)| - 1 ==> |Chunks(s)[i].text| == 480
    decreases |s|
  {
    if s == "" {
    } else if |s| <= CHUNK_SIZE {
      RenderOne(Chunk(s), tag);
    } else {
      var rest := s[CHUNK_SIZE..];
      ChunksOfText(rest, tag);
      RenderAppend([Chunk(s[..CHUNK_SIZE])], Chunks(rest), tag);
      RenderOne(Chunk(s[..CHUNK_SIZE]), tag);
    }
  }

  // ------------------------------------------------------------------ slices

  /** The slices between the tags, looked for from left to right. */
  function Split(msg: string, tag: string): (slices: seq<string>)
    requires tag != ""
    ensures slices != []
    decreases |msg|
  {
    var k := Find(msg, tag);
    if k < 0 then [msg]
    else
      assert OccursAt(msg, tag, k);
      [msg[..k]] + Split(msg[k + |tag|..], tag)
  }

  function Join(slices: seq<string>, tag: string): string
    requires slices != []
  {
    if |slices| == 1 then slices[0] else slices[0] + tag + Join(slices[1..], tag)
  }

  /** A tag behind a slice is the first tag there; none is left in the last one. */
  predicate Leftmost(slices: seq<string>, tag: string)
    requires slices != []
  {
    if |slices| == 1 then !Contains(slices[0], tag)
    else Find(slices[0] + tag, tag) == |slices[0]| && Leftmost(slices[1..], tag)
  }

  /** Only the text up to the end of an occurrence decides that it is the first. */
  lemma FindIsLocal(a: string, tag: string, rest: string)
    ensures Find(a + tag + rest, tag) == |a| <==> Find(a + tag, tag) == |a|
  {
    var s, t := a + tag + rest, a + tag;
    assert OccursAt(s, tag, |a|) && OccursAt(t, tag, |a|);
    forall j | 0 <= j < |a| ensures OccursAt(s, tag, j) <==> OccursAt(t, tag, j) {
      assert s[j..j + |tag|] == t[j..j + |tag|];
    }
  }

  lemma {:induction false} SplitJoins(msg: string, tag: string)
    requires tag != ""
    ensures Join(Split(msg, tag), tag) == msg && Leftmost(Split(msg, tag), tag)
    decreases |msg|
  {
    var k := Find(msg, tag);
    if k >= 0 {
      assert OccursAt(msg, tag, k);
      var a, rest := msg[..k], msg[k + |tag|..];
      assert msg == a + tag + rest;
      FindIsLocal(a, tag, rest);
      SplitJoins(rest, tag);
      var slices := Split(rest, tag);
      assert ([a] + slices)[1..] == slices;
    }
  }

  lemma SplitFirst(a: string, tag: string, rest: string)
    requires tag != "" && Find(a + tag, tag) == |a|
    ensures Split(a + tag + rest, tag) == [a] + Split(rest, tag)
  {
    FindIsLocal(a, tag, rest);
    var msg := a + tag + rest;
    assert msg[..|a|] == a && msg[|a| + |tag|..] == rest;
    hide Contains;
  }

  lemma {:induction false} JoinSplits(slices: seq<string>, tag: string)
    requires tag != "" && slices != [] && Leftmost(slices, tag)
    ensures Split(Join(slices, tag), tag) == slices
    decreases |slices|
  {
    if |slices| == 1 {
      assert slices == [slices[0]];
    } else {
      hide Split;
      hide Find;
      SplitFirst(slices[0], tag, Join(slices[1..], tag));
      JoinSplits(slices[1..], tag);
      assert slices == [slices[0]] + slices[1..];
    }
  }

  /** The slices of a text are the one way to write it with leftmost cuts. */
  lemma SplitIsUnique(msg: string, tag: string, slices: seq<string>)
    requires tag != "" && slices != []
    ensures slices == Split(msg, tag) <==> Join(slices, tag) == msg && Leftmost(slices, tag)
  {
    SplitJoins(msg, tag);
    if Join(slices, tag) == msg && Leftmost(slices, tag) {
      JoinSplits(slices, tag);
    }
  }

  lemma {:induction false} NoSliceHoldsTheTag(slices: seq<string>, tag: string, i: nat)
    requires tag != "" && i < |slices| && Leftmost(slices, tag)
    ensures !Contains(slices[i], tag)
    decreases i
  {
    if i > 0 {
      NoSliceHoldsTheTag(slices[1..], tag, i - 1);
    } else if |slices| > 1 {
      var a := slices[0];
      forall j | 0 <= j && j + |tag| <= |a| ensures !OccursAt(a, tag, j) {
        assert (a + tag)[j..j + |tag|] == a[j..j + |tag|] && !OccursAt(a + tag, tag, j);
      }
    }
  }

  // ------------------------------------------------------------------ sheets

  /** The trace of slices printed one after the other with cuts in between. */
  function Sheets(slices: seq<string>): seq<Event>
    requires slices != []
  {
    if |slices| == 1 then Chunks(CStr(slices[0]))
    else Chunks(CStr(slices[0])) + [Cut] + Sheets(slices[1..])
  }

  function Printed(msg: string, tag: string): seq<Event>
    requires tag != ""
  {
    Sheets(Split(msg, tag))
  }

  lemma PrintedStep(msg: string, tag: string)
    requires tag != ""
    ensures var k := Find(msg, tag);
            Printed(msg, tag) == if k < 0 then Chunks(CStr(msg))
                                 else Chunks(CStr(msg[..k])) + [Cut] + Printed(Drop(msg, k + |tag|), tag)
  {
    var k := Find(msg, tag);
    hide Find;
    hide Chunks;
    hide CStr;
    if k >= 0 {
      assert OccursAt(msg, tag, k);
      var slices := Split(msg[k + |tag|..], tag);
      assert ([msg[..k]] + slices)[1..] == slices;
    }
  }

  lemma PrintedNothing(tag: string)
    requires tag != ""
    ensures Printed("", tag) == []
  {
    PrintedStep("", tag);
    assert Find("", tag) < 0;
  }

  lemma CStrWhole(s: string)
    ensures CStr(s) == s <==> '\0' !in s
  {
    var t := CStr(s);
    assert |t| == |s| ==> t == s;
  }

  lemma {:induction false} SheetsRender(slices: seq<string>, tag: string)
    requires slices != [] && '\0' !in tag
    ensures '\0' !in Render(Sheets(slices), tag)
    ensures '\0' !in Join(slices, tag) ==> Render(Sheets(slices), tag) == Join(slices, tag)
    decreases |slices|
  {
    var head := CStr(slices[0]);
    ChunksOfText(head, tag);
    CStrWhole(slices[0]);
    if |slices| > 1 {
      SheetsRender(slices[1..], tag);
      RenderAppend(Chunks(head) + [Cut], Sheets(slices[1..]), tag);
      RenderAppend(Chunks(head), [Cut], tag);
      RenderOne(Cut, tag);
      assert Join(slices, tag) == slices[0] + tag + Join(slices[1..], tag);
    }
  }

  function CStrs(slices: seq<string>): (cs: seq<string>)
    ensures |cs| == |slices| && forall i :: 0 <= i < |slices| ==> cs[i] == CStr(slices[i])
  {
    seq(|slices|, i requires 0 <= i < |slices| => CStr(slices[i]))
  }

  /** The paper shows the slices, each up to its first NUL, with the tag between. */
  lemma {:induction false} PaperShowsSlices(slices: seq<string>, tag: string)
    requires slices != []
    ensures Render(Sheets(slices), tag) == Join(CStrs(slices), tag)
    decreases |slices|
  {
    hide CStr;
    hide Chunks;
    hide Render;
    var head := CStr(slices[0]);
    ChunksOfText(head, tag);
    if |slices| > 1 {
      PaperShowsSlices(slices[1..], tag);
      assert CStrs(slices)[1..] == CStrs(slices[1..]);
      RenderAppend(Chunks(head) + [Cut], Sheets(slices[1..]), tag);
      RenderAppend(Chunks(head), [Cut], tag);
      RenderOne(Cut, tag);
    }
  }

  /** With a tag for each cut, the trace reads as the text, for every text that
      has no NUL and for no other. */
  lemma PaperShowsTheText(msg: string, tag: string)
    requires tag != "" && '\0' !in tag
    ensures Render(Printed(msg, tag), tag) == msg <==> '\0' !in msg
  {
    SplitJoins(msg, tag);
    SheetsRender(Split(msg, tag), tag);
  }

  predicate GoodSheets(events: seq<Event>) {
    forall i :: 0 <= i < |events| ==> GoodChunk(events[i]) || events[i] == Cut
  }

  lemma ChunksAreGood(s: string)
    ensures GoodSheets(Chunks(s)) && multiset(Chunks(s))[Cut] == 0
  {
    ChunksOfText(s, "");
    var cs := Chunks(s);
    assert Cut !in cs;
  }

  lemma MoreGoodSheets(a: seq<Event>, b: seq<Event>)
    requires GoodSheets(a) && GoodSheets(b)
    ensures GoodSheets(a + [Cut] + b)
    ensures multiset(a + [Cut] + b)[Cut] == multiset(a)[Cut] + 1 + multiset(b)[Cut]
  {
  }

  /** No chunk is empty or too long, and there is one cut between two slices. */
  lemma {:induction false} SheetsHoldGoodChunks(slices: seq<string>)
    requires slices != []
    ensures GoodSheets(Sheets(slices))
    ensures multiset(Sheets(slices))[Cut] == |slices| - 1
    decreases |slices|
  {
    hide Chunks;
    hide GoodSheets;
    ChunksAreGood(CStr(slices[0]));
    if |slices| > 1 {
      SheetsHoldGoodChunks(slices[1..]);
      MoreGoodSheets(Chunks(CStr(slices[0])), Sheets(slices[1..]));
    }
  }

  // -------------------------------------------------------------- the driver

  /** The printer may refuse any call; the trace holds those it took. */
  class Printer {
    var trace: seq<Event>

    method Accept(e: Event) returns (ok: bool)
      modifies this
      ensures trace == if ok then old(trace) + [e] else old(trace)
    {
      ok := *;
      if ok {
        trace := trace + [e];
      }
    }

    /** txt_rel_gerencial(msg): a refused chunk is the last one sent. */
    method TxtRelGerencial(msg: string) returns (ok: bool)
      modifies this
      ensures ok ==> trace == old(trace) + Chunks(CStr(msg))
      ensures !ok ==> old(trace) <= trace < old(trace) + Chunks(CStr(msg))
    {
      hide *;
      var text := CStr(msg);
      ghost var all := old(trace) + Chunks(text);
      var i := 0;
      DropNone(text);
      while i < |text|
        invariant old(trace) <= trace && trace + Chunks(Drop(text, i)) == all
      {
        var buff := if i + CHUNK_SIZE <= |text| then text[i..i + CHUNK_SIZE] else text[i..];
        ChunksStep(text, i, buff);
        i := i + CHUNK_SIZE;
        Regroup(trace, [Chunk(buff)], Chunks(Drop(text, i)), all);
        StopsEarlier(trace, trace + [Chunk(buff)], Chunks(Drop(text, i)), all);
        ok := Accept(Chunk(buff));
        if !ok {
          return;
        }
      }
      NothingToDrop(text, i);
      ok := true;
    }

    /** txt_rel_gerencial(msg, tag). With an empty tag it would cut for ever. */
    method TxtRelGerencialTag(msg: string, tag: string) returns (ok: bool)
      requires tag != ""
      modifies this
      ensures ok ==> trace == old(trace) + Printed(msg, tag)
      ensures !ok ==> old(trace) <= trace < old(trace) + Printed(msg, tag)
    {
      hide *;
      ghost var all := old(trace) + Printed(msg, tag);
      var pivot, idx, slice := 0, 0, "";
      var outer := true;
      while outer
        invariant outer ==> pivot == 0 && trace == old(trace)
        invariant !outer ==> trace == all
        decreases outer
      {
        var inner := true;
        DropNone(msg);
        while inner
          invariant 0 <= pivot <= |msg| && old(trace) <= trace
          invariant inner ==> trace + Printed(Drop(msg, pivot), tag) == all
          invariant !inner ==> trace == all && slice == ""
          decreases |msg| - pivot, inner
        {
          ghost var before := trace;
          var tmp := msg[pivot..];
          idx := Find(tmp, tag);
          FirstSlice(msg, pivot, tag);
          ghost var chunks, rest := FirstChunks(tmp, tag), AfterFirst(tmp, tag);
          Regroup(before, chunks, rest, all);
          if idx != -1 {
            slice := tmp[..idx];
            pivot := pivot + idx + |tag|;
          } else {
            slice := tmp;
          }
          ok := TxtRelGerencial(slice);
          if !ok {
            StopsEarlier(trace, before + chunks, rest, all);
            return;
          }
          slice := "";
          if idx != -1 {
            Regroup(trace, [Cut], Printed(Drop(msg, pivot), tag), all);
            ok := Accept(Cut);
            if !ok {
              StopsEarlier(trace, trace + [Cut], Printed(Drop(msg, pivot), tag), all);
              return;
            }
          }
          inner := pivot < |msg| && idx != -1;
        }
        outer := slice != "";
      }
      ok := true;
    }
  }

  ghost function FirstChunks(msg: string, tag: string): seq<Event> {
    var k := Find(msg, tag);
    Chunks(CStr(if k == -1 then msg else msg[..k]))
  }

  ghost function AfterFirst(msg: string, tag: string): seq<Event>
    requires tag != ""
  {
    var k := Find(msg, tag);
    if k == -1 then [] else [Cut] + Printed(Drop(msg, k + |tag|), tag)
  }

  lemma DropNone(s: string)
    ensures Drop(s, 0) == s
  {
  }

  lemma FirstSlice(msg: string, pivot: nat, tag: string)
    requires tag != "" && pivot <= |msg|
    ensures var tmp := msg[pivot..];
            var k := Find(tmp, tag);
            && Printed(Drop(msg, pivot), tag) == FirstChunks(tmp, tag) + AfterFirst(tmp, tag)
            && FirstChunks(tmp, tag) == Chunks(CStr(if k == -1 then tmp else tmp[..k]))
            && (k == -1 ==> AfterFirst(tmp, tag) == [])
            && (k != -1 ==> pivot + k + |tag| <= |msg|)
            && (k != -1 ==> AfterFirst(tmp, tag) == [Cut] + Printed(Drop(msg, pivot + k + |tag|), tag))
    ensures Printed(Drop(msg, |msg|), tag) == []
  {
    hide *;
    DropIs(msg, pivot);
    DropIs(msg, |msg|);
    FirstPart(msg[pivot..], tag);
    PrintedNothing(tag);
    DropTwice(msg, pivot, tag);
  }

  lemma FirstPart(msg: string, tag: string)
    requires tag != ""
    ensures var k := Find(msg, tag);
            && Printed(msg, tag) == FirstChunks(msg, tag) + AfterFirst(msg, tag)
            && FirstChunks(msg, tag) == Chunks(CStr(if k == -1 then msg else msg[..k]))
            && AfterFirst(msg, tag) == if k == -1 then [] else [Cut] + Printed(Drop(msg, k + |tag|), tag)
  {
    hide *;
    PrintedStep(msg, tag);
    FirstChunksIs(msg, tag);
    AfterFirstIs(msg, tag);
  }

  lemma FirstChunksIs(msg: string, tag: string)
    ensures var k := Find(msg, tag); FirstChunks(msg, tag) == Chunks(CStr(if k == -1 then msg else msg[..k]))
  {
    hide Chunks;
    hide CStr;
    hide Find;
  }

  lemma AfterFirstIs(msg: string, tag: string)
    requires tag != ""
    ensures var k := Find(msg, tag);
            AfterFirst(msg, tag) == if k == -1 then [] else [Cut] + Printed(Drop(msg, k + |tag|), tag)
  {
    hide Printed;
    hide Drop;
    hide Find;
  }

  lemma DropIs(s: string, n: nat)
    requires n <= |s|
    ensures Drop(s, n) == s[n..] && (n == |s| ==> Drop(s, n) == "")
  {
  }

  lemma DropTwice(msg: string, pivot: nat, tag: string)
    requires pivot <= |msg|
    ensures var k := Find(msg[pivot..], tag);
            k != -1 ==> pivot + k + |tag| <= |msg| && Drop(msg[pivot..], k + |tag|) == Drop(msg, pivot + k + |tag|)
  {
    var tmp := msg[pivot..];
    var k := Find(tmp, tag);
    hide Find;
    if k != -1 {
      assert OccursAt(tmp, tag, k);
      assert tmp[k + |tag|..] == msg[pivot + k + |tag|..];
    }
  }

  lemma Regroup(a: seq<Event>, b: seq<Event>, c: seq<Event>, all: seq<Event>)
    requires a + (b + c) == all
    ensures a + b + c == all
  {
    Associates(a, b, c);
  }

  lemma StopsEarlier(s: seq<Event>, t: seq<Event>, rest: seq<Event>, all: seq<Event>)
    requires s < t && t + rest == all
    ensures s < all
  {
  }

  lemma NothingToDrop(text: string, i: nat)
    requires |text| <= i
    ensures Chunks(Drop(text, i)) == []
  {
  }

  lemma ChunksStep(text: string, i: nat, buff: string)
    requires i < |text|
    requires buff == if i + CHUNK_SIZE <= |text| then text[i..i + CHUNK_SIZE] else text[i..]
    ensures Chunks(Drop(text, i)) == [Chunk(buff)] + Chunks(Drop(text, i + CHUNK_SIZE))
  {
    var s := text[i..];
    if |s| > CHUNK_SIZE {
      assert s[..CHUNK_SIZE] == buff && s[CHUNK_SIZE..] == text[i + CHUNK_SIZE..];
    } else {
      assert buff == s && Drop(text, i + CHUNK_SIZE) == "";
    }
  }
}
