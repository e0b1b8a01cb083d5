/** The fiscal printer as the driver sees it through the vendor library: a table
    of payment forms, a table of non-fiscal totalisers and the payments of the
    open document. Every call may be refused; a refused call changes nothing. */
module Device {
  import opened Text
  import opened SlotTable

  const FORMS := 20
  const FORM_SIZE := 45
  const FORM_BUFFER := 920
  const TOTALS := 30
  const TOTAL_SIZE := 19

  /** A record of the payment form table: sixteen characters of name, two
      amounts and the flag that allows linked receipts. Forms the printer does
      not have come as shorter records. */
  predicate GoodForm(rec: string) {
    |rec| <= FORM_SIZE && ',' !in rec && '\0' !in rec
  }

  function FormName(rec: string): string {
    if |rec| < FORM_SIZE then Unavailable() else Trim(Cut(rec))
  }

  predicate FormLinked(rec: string) {
    |rec| == FORM_SIZE && FormName(rec) != "" && rec[FORM_SIZE - 1] == '1'
  }

  function FormNames(recs: seq<string>): (names: seq<string>)
    ensures |names| == |recs| && forall i :: 0 <= i < |recs| ==> names[i] == FormName(recs[i])
  {
    seq(|recs|, i requires 0 <= i < |recs| => FormName(recs[i]))
  }

  function FormFlags(recs: seq<string>): (flags: seq<bool>)
    ensures |flags| == |recs| && forall i :: 0 <= i < |recs| ==> flags[i] == FormLinked(recs[i])
  {
    seq(|recs|, i requires 0 <= i < |recs| => FormLinked(recs[i]))
  }

  predicate GoodTotal(rec: string) {
    |rec| == TOTAL_SIZE && '\0' !in rec
  }

  function TotalNames(recs: seq<string>): (names: seq<string>)
    ensures |names| == |recs| && forall i :: 0 <= i < |recs| ==> names[i] == Trim(Cut(recs[i]))
  {
    seq(|recs|, i requires 0 <= i < |recs| => Trim(Cut(recs[i])))
  }

  // ------------------------------------------- records, without their meaning

  /** A whole record of the payment form table without a name. */
  predicate FreeForm(rec: string) {
    |rec| == 45 && AllSpace(rec[..15])
  }

  /** A record of the totaliser table without a name. */
  predicate FreeTotal(rec: string) {
    |rec| == 19 && AllSpace(rec[..15])
  }

  lemma FormNameIs(rec: string)
    requires GoodForm(rec)
    ensures FormName(rec) == "" <==> FreeForm(rec)
    ensures |rec| == 45 ==> FormName(rec) == Trim(rec[..15])
    ensures |rec| < 45 ==> FormName(rec) == "<unavailable>"
    ensures FormLinked(rec) <==> |rec| == 45 && !AllSpace(rec[..15]) && rec[44] == '1'
  {
    if |rec| == 45 {
      BlankIffTrimmedAway(rec[..15]);
    }
    hide Trim;
  }

  lemma TotalNameIs(rec: string)
    requires GoodTotal(rec)
    ensures Trim(Cut(rec)) == Trim(rec[..15])
    ensures Trim(Cut(rec)) == "" <==> FreeTotal(rec)
  {
    BlankIffTrimmedAway(rec[..15]);
    hide Trim;
  }

  /** Records separated by commas. */
  function Joined(recs: seq<string>): string {
    if recs == [] then "" else recs[0] + "," + Joined(recs[1..])
  }

  function Padded(name: string, n: nat): (s: string)
    requires |name| <= n
    ensures |s| == n && s[..|name|] == name && forall i :: |name| <= i < n ==> s[i] == ' '
    decreases n - |name|
  {
    if |name| == n then name else Padded(name + " ", n)
  }

  class Device {
    var forms: seq<string>
    var totals: seq<string>
    ghost var paid: seq<bool>  // history: link flags of the payments accepted since the last totalisation

    ghost predicate Valid()
      reads this
    {
      && |forms| == FORMS && (forall i :: 0 <= i < FORMS ==> GoodForm(forms[i]))
      && |totals| == TOTALS && (forall i :: 0 <= i < TOTALS ==> GoodTotal(totals[i]))
    }

    constructor (forms: seq<string>, totals: seq<string>)
      requires |forms| == FORMS && forall i :: 0 <= i < FORMS ==> GoodForm(forms[i])
      requires |totals| == TOTALS && forall i :: 0 <= i < TOTALS ==> GoodTotal(totals[i])
      ensures Valid() && this.forms == forms && this.totals == totals && paid == []
    {
      this.forms, this.totals, paid := forms, totals, [];
    }

    /** VerificaFormasPagamentoMFD: what follows the last comma is whatever the
        buffer held. */
    method ReadForms() returns (ok: bool, buffer: string)
      requires Valid()
      ensures ok ==> |buffer| == FORM_BUFFER && Joined(forms) <= buffer
    {
      ok := *;
      FormsFit(forms);
      var filler := seq(FORM_BUFFER - |Joined(forms)|, i => '?');
      buffer := Joined(forms) + filler;
    }

    /** VerificaTotalizadoresNaoFiscaisMFD. */
    method ReadTotals() returns (ok: bool, buffer: string)
      requires Valid()
      ensures ok ==> buffer == Joined(totals)
    {
      ok := *;
      buffer := Joined(totals);
    }

    /** ProgramaFormaPagamentoCV0909, slots counted from 1; slot 0 is refused. */
    method ProgramForm(idx: int, name: string, linked: bool) returns (ok: bool)
      requires Valid() && 0 <= idx <= FORMS && |name| <= 15 && ',' !in name && '\0' !in name
      modifies `forms
      ensures Valid()
      ensures !ok ==> forms == old(forms)
      ensures ok ==> idx >= 1
      ensures ok ==> exists rec :: GoodForm(rec) && |rec| == FORM_SIZE && forms == old(forms)[idx - 1 := rec]
                       && rec[..16] == Padded(name, 16) && rec[FORM_SIZE - 1] == (if linked then '1' else '0')
    {
      ok := *;
      if idx == 0 {
        ok := false;
      }
      if ok {
        var amounts := seq(28, i => '0');
        var rec := Padded(name, 16) + amounts + [if linked then '1' else '0'];
        assert forall i :: 0 <= i < |name| ==> Padded(name, 16)[i] == name[i];
        assert GoodForm(rec);
        forms := forms[idx - 1 := rec];
      }
    }

    /** NomeiaTotalizadorNaoSujeitoIcmsCV0909, slots counted from 1; slot 0 is refused. */
    method NameTotal(idx: int, name: string) returns (ok: bool)
      requires Valid() && 0 <= idx <= TOTALS && |name| <= 15 && '\0' !in name
      modifies `totals
      ensures Valid()
      ensures ok ==> idx >= 1
      ensures totals == if ok then old(totals)[idx - 1 := Padded(name, TOTAL_SIZE)] else old(totals)
    {
      ok := *;
      if idx == 0 {
        ok := false;
      }
      if ok {
        assert forall i :: 0 <= i < |name| ==> Padded(name, TOTAL_SIZE)[i] == name[i];
        totals := totals[idx - 1 := Padded(name, TOTAL_SIZE)];
      }
    }

    /** EfetuaFormaPagamentoIndice, slots counted from 1. */
    method Pay(idx: int) returns (ok: bool)
      requires Valid() && 1 <= idx <= FORMS
      modifies `paid
      ensures paid == if ok then old(paid) + [FormLinked(forms[idx - 1])] else old(paid)
    {
      ok := *;
      if ok {
        paid := paid + [FormLinked(forms[idx - 1])];
      }
    }

    /** TotalizaCupomMFD, IniciaFechamentoRecebimentoNaoFiscalMFD: payments start
        afresh. */
    method Totalise() returns (ok: bool)
      modifies `paid
      ensures paid == if ok then [] else old(paid)
    {
      ok := *;
      if ok {
        paid := [];
      }
    }

    /** Any other call: subtotal, surcharge, registration, opening and closing. */
    method Other() returns (ok: bool)
    {
      ok := *;
    }
  }

  lemma {:induction false} FormsFit(recs: seq<string>)
    requires |recs| <= FORMS && forall i :: 0 <= i < |recs| ==> GoodForm(recs[i])
    ensures |Joined(recs)| <= 46 * |recs|
    decreases |recs|
  {
    if recs != [] {
      FormsFit(recs[1..]);
    }
  }

  lemma {:induction false} TotalsLayout(recs: seq<string>, i: nat)
    requires i < |recs| && forall k :: 0 <= k < |recs| ==> GoodTotal(recs[k])
    ensures |Joined(recs)| == 20 * |recs|
    ensures Joined(recs)[20 * i..20 * i + 19] == recs[i]
    decreases |recs|
  {
    var s := Joined(recs);
    var rest := Joined(recs[1..]);
    assert s == recs[0] + "," + rest;
    if |recs| > 1 {
      TotalsLayout(recs[1..], if i > 0 then i - 1 else 0);
    }
    if i > 0 {
      assert s[20..] == rest;
      assert s[20 * i..20 * i + 19] == s[20..][20 * i - 20..20 * i - 1];
    }
  }
}
