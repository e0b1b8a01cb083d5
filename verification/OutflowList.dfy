/** The list of outflow totalisers in the driver's settings, entries between
    number signs, and the search for a bare name in it (reg_nao_fiscal in
    src/ecfbematechcv0909.cc). */
module OutflowList {
  import opened Text

  const MARK := '#'

  /** #A#B#...# */
  function Delimited(entries: seq<string>): (s: string)
    ensures s != "" && s[0] == MARK
  {
    if entries == [] then [MARK] else [MARK] + entries[0] + Delimited(entries[1..])
  }

  predicate MarkFree(entries: seq<string>) {
    forall i :: 0 <= i < |entries| ==> MARK !in entries[i]
  }

  /** Some entry has the name somewhere inside. */
  predicate InsideOne(entries: seq<string>, name: string) {
    exists i :: 0 <= i < |entries| && Contains(entries[i], name)
  }

  lemma OccursIsContained(s: string, pat: string, i: int)
    requires OccursAt(s, pat, i)
    ensures Contains(s, pat)
  {
  }

  lemma FoundOnEitherSide(a: string, b: string, name: string)
    ensures Contains(a, name) || Contains(b, name) ==> Contains(a + b, name)
  {
    hide Find;
    var s := a + b;
    if Contains(a, name) {
      var i := Find(a, name);
      assert OccursAt(a, name, i) && s[i..i + |name|] == a[i..i + |name|];
      OccursIsContained(s, name, i);
    } else if Contains(b, name) {
      var i := Find(b, name);
      assert OccursAt(b, name, i) && s[i + |a|..i + |a| + |name|] == b[i..i + |name|];
      OccursIsContained(s, name, i + |a|);
    }
  }

  /** An occurrence of a name without a mark lies before the mark or behind it. */
  lemma OccursOnOneSide(a: string, b: string, name: string, i: int)
    requires name != "" && MARK !in name && b != "" && b[0] == MARK && OccursAt(a + b, name, i)
    ensures OccursAt(a, name, i) || OccursAt(b, name, i - |a|)
  {
    var s := a + b;
    assert forall k :: i <= k < i + |name| ==> s[k] == s[i..i + |name|][k - i] == name[k - i];
    assert forall k :: 0 <= k < |name| ==> name[k] != MARK;
    assert s[|a|] == MARK;
    if i + |name| <= |a| {
      assert a[i..i + |name|] == s[i..i + |name|];
    } else {
      assert i > |a|;
      assert b[i - |a|..i - |a| + |name|] == s[i..i + |name|];
    }
  }

  /** A name without a mark is not found across one. */
  lemma NotAcross(a: string, b: string, name: string)
    requires name != "" && MARK !in name && b != "" && b[0] == MARK
    ensures Contains(a + b, name) <==> Contains(a, name) || Contains(b, name)
  {
    hide Find;
    FoundOnEitherSide(a, b, name);
    if Contains(a + b, name) {
      var i := Find(a + b, name);
      assert OccursAt(a + b, name, i);
      OccursOnOneSide(a, b, name, i);
      hide OccursAt;
      if OccursAt(a, name, i) {
        OccursIsContained(a, name, i);
      } else {
        OccursIsContained(b, name, i - |a|);
      }
    }
  }

  lemma MarkHoldsNothing(name: string)
    requires name != "" && MARK !in name
    ensures !Contains([MARK], name)
  {
    if |name| == 1 {
      assert [MARK][0..1] == [MARK] && name[0] != MARK;
    }
    assert forall i :: OccursAt([MARK], name, i) ==> i == 0;
  }

  lemma AfterMark(e: string, name: string)
    requires name != "" && MARK !in name
    ensures Contains([MARK] + e, name) <==> Contains(e, name)
  {
    var s := [MARK] + e;
    if Contains(s, name) {
      var i := Find(s, name);
      assert OccursAt(s, name, i) && s[i..i + |name|][0] == s[i];
      assert i > 0 && e[i - 1..i - 1 + |name|] == s[i..i + |name|];
      OccursIsContained(e, name, i - 1);
    }
    if Contains(e, name) {
      var i := Find(e, name);
      assert OccursAt(e, name, i) && s[i + 1..i + 1 + |name|] == e[i..i + |name|];
      OccursIsContained(s, name, i + 1);
    }
  }

  lemma EmptyIsInside(s: string)
    ensures Contains(s, "")
  {
    assert OccursAt(s, "", 0);
  }

  /** The search finds a name exactly if it stands inside some entry: as a whole
      or as a part of it. */
  lemma {:induction false} FoundIffInsideOne(entries: seq<string>, name: string)
    requires MARK !in name
    ensures Contains(Delimited(entries), name) <==> name == "" || InsideOne(entries, name)
    decreases |entries|
  {
    if name == "" {
      EmptyIsInside(Delimited(entries));
    } else if entries == [] {
      MarkHoldsNothing(name);
    } else {
      var rest := entries[1..];
      FoundIffInsideOne(rest, name);
      NotAcross([MARK] + entries[0], Delimited(rest), name);
      AfterMark(entries[0], name);
      InsideFirstOrRest(entries, name);
      hide Contains;
      hide InsideOne;
    }
  }

  lemma InsideFirstOrRest(entries: seq<string>, name: string)
    requires entries != []
    ensures InsideOne(entries, name) <==> Contains(entries[0], name) || InsideOne(entries[1..], name)
  {
    hide Contains;
    var rest := entries[1..];
    assert forall i :: 0 <= i < |rest| ==> rest[i] == entries[i + 1];
    assert forall i :: 1 <= i < |entries| ==> entries[i] == rest[i - 1];
  }

  /** For a table of names the search comes to the same as being listed exactly if
      no name of the table is empty or a mere part of an entry, without being
      listed itself. */
  lemma FoundIsListedIff(entries: seq<string>, names: set<string>)
    requires forall n :: n in names ==> MARK !in n
    ensures (forall n :: n in names ==> (Contains(Delimited(entries), n) <==> n in entries))
            <==> forall n :: n in names && n !in entries ==> n != "" && !InsideOne(entries, n)
  {
    forall n | n in names
      ensures (Contains(Delimited(entries), n) <==> n == "" || InsideOne(entries, n))
           && (n in entries ==> InsideOne(entries, n))
    {
      FoundIffInsideOne(entries, n);
      if n in entries {
        WholeIsInside(n);
      }
    }
    hide Contains;
    hide InsideOne;
  }

  lemma WholeIsInside(s: string)
    ensures Contains(s, s)
  {
    assert OccursAt(s, s, 0);
  }

  /** A part of an entry and the empty name are found without being listed; a
      listed name in other letters is not found, though the table would know it. */
  lemma ListAndSearchDiffer()
    ensures var es := ["DESPESAS", "PAGAMENTOS"];
            && Contains(Delimited(es), "DESPESA") && "DESPESA" !in es
            && Contains(Delimited(es), "") && "" !in es
    ensures !Contains(Delimited(["DESPESAS"]), "despesas") && IEquals("despesas", "DESPESAS")
  {
    var es := ["DESPESAS", "PAGAMENTOS"];
    assert OccursAt("DESPESAS", "DESPESA", 0);
    assert Contains(es[0], "DESPESA");
    FoundIffInsideOne(es, "DESPESA");
    FoundIffInsideOne(es, "");
    LowerCaseIsNotFound();
    SameInUpperCase();
  }

  lemma LowerCaseIsNotFound()
    ensures !Contains(Delimited(["DESPESAS"]), "despesas")
  {
    FoundIffInsideOne(["DESPESAS"], "despesas");
    var i := Find("DESPESAS", "despesas");
    assert i >= 0 ==> OccursAt("DESPESAS", "despesas", i) && i == 0;
    assert "DESPESAS"[0] != "despesas"[0];
  }

  lemma SameInUpperCase()
    ensures IEquals("despesas", "DESPESAS")
  {
    IEqualsIsFoldEquality("despesas", "DESPESAS");
    TrimFixesCore("despesas");
    TrimFixesCore("DESPESAS");
    assert Upper("despesas") == "DESPESAS" == Upper("DESPESAS");
  }
}
