/** The driver for printers of the 09/09 agreement (src/ecfbematechcv0909.cc,
    with the parts it inherits from src/ecfbematech.cc): caches of the printer's
    tables, payments and the sequence of linked receipts. An exception is a
    None, or a false result. */
module Driver {
  import opened Text
  import opened SlotTable
  import opened Device
  import CcdSequence
  import opened OutflowList

  class Driver {
    const device: Device
    const cnfSaida: Option<string>   // the setting that lists the outflow totalisers, if there is one
    var fpgto: seq<string>
    var vincCcd: seq<bool>
    var totCnf: seq<string>
    var useCcd: seq<bool>
    var pgtoSeq: int
    var dontPay: bool

    /** Each cache is empty or shows the printer's table slot by slot; the link
        flags are those of the names whenever there are names. */
    ghost predicate Valid()
      reads this, device
    {
      && device.Valid()
      && (fpgto == [] || Loaded())
      && (totCnf == [] || totCnf == CacheOf(TotalNames(device.totals)))
    }

    ghost predicate Loaded()
      reads this, device
    {
      fpgto == CacheOf(FormNames(device.forms)) && vincCcd == FormFlags(device.forms)
    }

    /** The shadow list mirrors the printer. */
    ghost predicate Mirrors()
      reads this, device
    {
      useCcd == device.paid
    }

    /** The shadow list holds nothing but the latest payments. */
    ghost predicate Trails()
      reads this, device
    {
      Latest(useCcd, device.paid)
    }

    /** The sequence field rests on no payment, on a linked one, or on the guess
        made for an empty list. */
    ghost predicate SeqOk()
      reads this
    {
      || pgtoSeq == -1
      || (useCcd == [] && pgtoSeq == 0)
      || (0 <= pgtoSeq < |useCcd| && useCcd[pgtoSeq])
    }

    /** A printer that has payments already is that of a spooler which was
        restarted in the middle of a document. */
    constructor (device: Device, cnfSaida: Option<string>)
      requires device.Valid()
      ensures Valid() && Trails() && (Mirrors() <==> device.paid == [])
      ensures useCcd == [] && pgtoSeq == -1 && !dontPay && this.device == device
    {
      this.device, this.cnfSaida := device, cnfSaida;
      fpgto, vincCcd, totCnf, useCcd := [], [], [], [];
      pgtoSeq, dontPay := -1, false;
    }

    // -------------------------------------------------------- table caches

    /** One record enters both lists. */
    method AddForm(reg: string) returns (name: string)
      modifies `fpgto, `vincCcd
      ensures name == FormName(reg)
      ensures fpgto == old(fpgto) + [if name == "" then Available() else name]
      ensures vincCcd == old(vincCcd) + [FormLinked(reg)]
    {
      var descr := if |reg| < FORM_SIZE then Unavailable() else Cut(reg);
      var vinc := |reg| == FORM_SIZE && reg[FORM_SIZE - 1] == '1';
      name := Trim(descr);
      assert |reg| < FORM_SIZE ==> Trim(Unavailable()) == Unavailable() by { TrimFixesCore(Unavailable()); }
      if name != "" {
        fpgto := fpgto + [name];
        vincCcd := vincCcd + [vinc];
      } else {
        fpgto := fpgto + [Available()];
        vincCcd := vincCcd + [false];
      }
    }

    /** The loading loop: clears both lists and fills them record by record. */
    method LoadForms(buffer: string, key: string) returns (idx: int)
      requires device.Valid() && |buffer| == FORM_BUFFER && Joined(device.forms) <= buffer
      modifies `fpgto, `vincCcd
      ensures Loaded()
      ensures idx == -1 ==> forall k :: 0 <= k < FORMS ==> !IEquals(key, FormName(device.forms[k]))
      ensures idx != -1 ==> 0 <= idx < FORMS && IEquals(key, FormName(device.forms[idx]))
    {
      hide IEquals;
      hide Joined;
      hide FormName;
      hide FormLinked;
      hide CacheOf;
      hide FormNames;
      hide FormFlags;
      fpgto := [];
      vincCcd := [];
      idx := -1;
      ghost var recs := device.forms;
      var i, j := 0, 0;
      NothingShown();
      assert recs[..0] == [] && recs[0..] == recs && buffer[0..] == buffer;
      while i < FORMS
        invariant 0 <= i <= FORMS && 0 <= j <= |buffer|
        invariant Joined(recs[i..]) <= buffer[j..]
        invariant fpgto == CacheOf(FormNames(recs[..i])) && vincCcd == FormFlags(recs[..i])
        invariant idx == -1 ==> forall k :: 0 <= k < i ==> !IEquals(key, FormName(recs[k]))
        invariant idx != -1 ==> 0 <= idx < i && IEquals(key, FormName(recs[idx]))
      {
        ShownStep(recs, i);
        var reg;
        reg, j := NextRecord(buffer, j, recs[i], Joined(recs[i + 1..]));
        var name := AddForm(reg);
        if IEquals(key, name) {
          idx := i;
        }
        i := i + 1;
      }
      assert recs[..FORMS] == recs;
    }

    /** get_id_forma_pgto: the slot of a payment form, counted from 1, or -1. A
        look into the cache and a look into the printer give the same slot for
        any usable name, as names are distinct. */
    method GetIdFormaPgto(name: string) returns (r: Option<int>)
      requires Valid()
      modifies `fpgto, `vincCcd
      ensures Valid()
      ensures r == None ==> fpgto == old(fpgto) && vincCcd == old(vincCcd)
      ensures r.Some? ==> Loaded() && (r.value == -1 || 1 <= r.value <= FORMS)
      ensures r.Some? && Usable(Cut(name)) ==> Found(FormNames(device.forms), Cut(name), r.value)
    {
      ghost var slots := FormNames(device.forms);
      var key := Cut(name);
      var idx := IdxElement(key, fpgto);
      WarmLookup(slots, key, idx, fpgto);
      hide Found;
      hide CacheOf;
      if idx == -1 {
        var ok, buffer := device.ReadForms();
        if !ok {
          return None;
        }
        idx := LoadForms(buffer, key);
        ColdLookup(slots, key, idx);
      }
      r := Some(if idx < 0 then idx else idx + 1);
    }

    /** get_vinc_forma_pgto: the flag of a slot, counted from 1. */
    method GetVincFormaPgto(idx: int) returns (ret: bool)
      ensures ret == (1 <= idx <= |vincCcd| && vincCcd[idx - 1])
    {
      ret := false;
      if vincCcd != [] {
        var index := 0;
        while index < |vincCcd|
          invariant 0 <= index <= |vincCcd|
          invariant ret == (1 <= idx <= index && vincCcd[idx - 1])
        {
          index := index + 1;
          if idx == index {
            ret := vincCcd[index - 1];
          }
        }
      }
    }

    /** get_prox_forma_pgto: the first slot shown as available, from 0; the table
        is read again on the way. */
    method GetProxFormaPgto() returns (r: Option<int>)
      requires Valid() && Proper(FormNames(device.forms))
      modifies `fpgto, `vincCcd
      ensures Valid() && (r.Some? ==> Loaded())
      ensures r == None ==> fpgto == old(fpgto) && vincCcd == old(vincCcd)
      ensures r.Some? ==> LeastFree(FormNames(device.forms), r.value)
    {
      var loaded := GetIdFormaPgto("");
      if loaded == None {
        return None;
      }
      var idx := FirstAvailable(fpgto);
      ShownAvailable(FormNames(device.forms), idx);
      return Some(idx);
    }

    /** The programming part of set_forma_pgto, for the slot idx counted from 1, or
        0 if there is no free slot. */
    method ProgramForma(idx: int, name: string, linked: bool) returns (ok: bool)
      requires Valid() && Loaded() && 0 <= idx <= FORMS && ',' !in Cut(name) && '\0' !in Cut(name)
      modifies `fpgto, device`forms
      ensures Valid()
      ensures !ok ==> device.forms == old(device.forms)
      ensures ok ==> idx >= 1
      ensures ok ==> FormNames(device.forms) == old(FormNames(device.forms))[idx - 1 := Trim(Cut(name))]
      ensures ok ==> FormLinked(device.forms[idx - 1]) == (linked && Trim(Cut(name)) != "")
      ensures ok ==> HasForm(device.forms[idx - 1], Cut(name), linked)
      ensures forall k :: 0 <= k < FORMS && k != idx - 1 ==> device.forms[k] == old(device.forms[k])
    {
      var tmp := Trim(Cut(name));
      CutTrims(name);
      hide Trim;
      hide CacheOf;
      hide FormName;
      hide FormLinked;
      ok := device.ProgramForm(idx, tmp, linked);
      if !ok {
        return;
      }
      fpgto := [];
      FormHeld(device.forms[idx - 1], Cut(name), linked);
      ProgrammedName(device.forms[idx - 1], tmp);
      ProgrammedFlag(device.forms[idx - 1]);
    }

    /** set_forma_pgto. A new name goes into the least free slot with the flag
        asked for, no other slot is written, and the cache is dropped; a name
        that is there already changes nothing. */
    method SetFormaPgto(name: string, vinc: string) returns (ok: bool)
      requires Valid() && TableOk(FormNames(device.forms))
      requires Usable(Cut(name)) && ',' !in Cut(name) && '\0' !in Cut(name)
      modifies `fpgto, `vincCcd, device`forms
      ensures Valid() && TableOk(FormNames(device.forms))
      ensures ok ==> Entered(old(FormNames(device.forms)), FormNames(device.forms), Cut(name))
      ensures ok && Absent(old(FormNames(device.forms)), Cut(name)) ==>
        exists i :: 0 <= i < FORMS && LeastFree(old(FormNames(device.forms)), i)
                 && FormLinked(device.forms[i]) == AsksForLink(vinc)
      ensures !ok ==> device.forms == old(device.forms)
      ensures ok ==>
        FormWritten(old(device.forms), device.forms, Cut(name),
                    Upper(Trim(vinc)) == "TRUE" || (vinc != "" && vinc[0] == '1'))
      ensures FormsStay(old(device.forms), device.forms)
      ensures (old(Mirrors()) ==> Mirrors()) && (old(Trails()) ==> Trails())
    {
      hide *;
      ghost var recs := device.forms;
      AsksIs(vinc);
      ValidIs();
      ListsAre();
      DeviceIs(device);
      NothingWritten(recs, device.totals);
      var id := GetIdFormaPgto(name);
      if id == None {
        return false;
      }
      if id.value < 0 {
        TableIsProper(FormNames(recs));
        var prox := GetProxFormaPgto();
        ListsAre();
        if prox == None {
          return false;
        }
        LeastFreeInRange(FormNames(recs), prox.value);
        CutIsShort(name);
        ok := ProgramForma(prox.value + 1, name, AsksForLink(vinc));
        if ok {
          FormIsEntered(recs, device.forms, prox.value, Cut(name), AsksForLink(vinc));
        }
      } else {
        FormIsThere(recs, Cut(name), id.value, AsksForLink(vinc));
        ok := true;
      }
      ListsAre();
    }

    // ------------------------------------------------ non-fiscal totalisers

    /** The loading loop over fixed-width records. */
    method LoadTotals(buffer: string, key: string) returns (idx: int)
      requires device.Valid() && buffer == Joined(device.totals)
      modifies `totCnf
      ensures totCnf == CacheOf(TotalNames(device.totals))
      ensures idx == -1 ==> forall k :: 0 <= k < TOTALS && TotalNames(device.totals)[k] != "" ==>
        !IEquals(key, TotalNames(device.totals)[k])
      ensures idx != -1 ==> 0 <= idx < TOTALS && IEquals(key, TotalNames(device.totals)[idx])
    {
      hide IEquals;
      hide Joined;
      hide Trim;
      hide CacheOf;
      ghost var recs := device.totals;
      totCnf := [];
      idx := -1;
      NoTotalsShown();
      assert recs[..0] == [];
      var i := 0;
      while i < TOTALS
        invariant 0 <= i <= TOTALS
        invariant totCnf == CacheOf(TotalNames(recs[..i]))
        invariant idx == -1 ==> forall k :: 0 <= k < i && TotalNames(recs)[k] != "" ==>
          !IEquals(key, TotalNames(recs)[k])
        invariant idx != -1 ==> 0 <= idx < i && IEquals(key, TotalNames(recs)[idx])
      {
        TotalName(recs, i);
        TotalShown(recs, i);
        var name := Trim(buffer[i * 20..i * 20 + 15]);
        if name == "" {
          totCnf := totCnf + [Available()];
        } else {
          totCnf := totCnf + [name];
          if IEquals(key, name) {
            idx := i;
          }
        }
        i := i + 1;
      }
      assert recs[..TOTALS] == recs;
    }

    /** get_totalizador_cnf: the slot of a totaliser, counted from 1, or -1. */
    method GetTotalizadorCnf(tot: string) returns (r: Option<int>)
      requires Valid()
      modifies `totCnf
      ensures Valid()
      ensures r.Some? ==> totCnf == CacheOf(TotalNames(device.totals)) && (r.value == -1 || 1 <= r.value <= TOTALS)
      ensures r.Some? && Usable(Cut(tot)) ==> Found(TotalNames(device.totals), Cut(tot), r.value)
    {
      hide *;
      ValidIs();
      ghost var slots := TotalNames(device.totals);
      var key := Cut(tot);
      var idx := IdxElement(key, totCnf);
      WarmLookup(slots, key, idx, totCnf);
      CacheIs(slots);
      if idx == -1 {
        var ok, buffer := device.ReadTotals();
        if !ok {
          return None;
        }
        idx := LoadTotals(buffer, key);
        SkippedBlanks(slots, key, idx);
      }
      ValidIs();
      r := Some(if idx < 0 then idx else idx + 1);
    }

    /** get_prox_totalizador, from 0. */
    method GetProxTotalizador() returns (r: Option<int>)
      requires Valid() && Proper(TotalNames(device.totals))
      modifies `totCnf
      ensures Valid() && (r.Some? ==> LeastFree(TotalNames(device.totals), r.value))
    {
      var loaded := GetTotalizadorCnf("");
      if loaded == None {
        return None;
      }
      var idx := FirstAvailable(totCnf);
      ShownAvailable(TotalNames(device.totals), idx);
      return Some(idx);
    }

    /** The programming part of set_totalizador. */
    method NameTotalizador(idx: int, descr: string) returns (ok: bool)
      requires Valid() && 0 <= idx <= TOTALS && '\0' !in Cut(descr)
      modifies `totCnf, device`totals
      ensures Valid()
      ensures !ok ==> device.totals == old(device.totals)
      ensures ok ==> idx >= 1
      ensures ok ==> TotalNames(device.totals) == old(TotalNames(device.totals))[idx - 1 := Trim(Cut(descr))]
      ensures OnlyAt(old(device.totals), device.totals, idx - 1)
      ensures ok ==> HasTotal(device.totals[idx - 1], Cut(descr))
    {
      hide *;
      ValidIs();
      TrimmedName(descr);
      var tmp := Trim(Cut(descr));
      if idx > 0 {
        NamedTotal(device.totals, idx - 1, tmp);
      }
      SameIsOnlyAt(device.totals, idx - 1);
      ok := device.NameTotal(idx, tmp);
      if ok {
        UpdateIsOnlyAt(old(device.totals), device.totals, idx - 1);
        TotalHeld(Cut(descr));
        totCnf := [];
      }
      ValidIs();
    }

    lemma SeqIs()
      ensures SeqOk() <==> pgtoSeq == -1 || (useCcd == [] && pgtoSeq == 0)
                           || (0 <= pgtoSeq < |useCcd| && useCcd[pgtoSeq])
    {
    }

    lemma LoadedIs()
      ensures Loaded() <==> fpgto == CacheOf(FormNames(device.forms)) && vincCcd == FormFlags(device.forms)
    {
    }

    lemma ListsAre()
      ensures Mirrors() <==> useCcd == device.paid
      ensures Trails() <==> Latest(useCcd, device.paid)
    {
    }

    lemma ValidIs()
      ensures Valid() <==>
        && device.Valid()
        && (fpgto == [] || (fpgto == CacheOf(FormNames(device.forms)) && vincCcd == FormFlags(device.forms)))
        && (totCnf == [] || totCnf == CacheOf(TotalNames(device.totals)))
      ensures Valid() ==> |device.totals| == TOTALS && |device.forms| == FORMS
    {
      hide CacheOf;
      hide FormNames;
      hide FormFlags;
      hide TotalNames;
    }

    /** set_totalizador, with the same promise as set_forma_pgto. */
    method SetTotalizador(descr: string) returns (ok: bool)
      requires Valid() && TableOk(TotalNames(device.totals))
      requires Usable(Cut(descr)) && '\0' !in Cut(descr)
      modifies `totCnf, device`totals
      ensures Valid() && TableOk(TotalNames(device.totals))
      ensures ok ==> Entered(old(TotalNames(device.totals)), TotalNames(device.totals), Cut(descr))
      ensures !ok ==> device.totals == old(device.totals)
      ensures ok ==> TotalWritten(old(device.totals), device.totals, Cut(descr))
      ensures TotalsStay(old(device.totals), device.totals)
      ensures (old(Mirrors()) ==> Mirrors()) && (old(Trails()) ==> Trails())
    {
      hide *;
      ghost var recs := device.totals;
      ValidIs();
      ListsAre();
      DeviceIs(device);
      NothingWritten(device.forms, recs);
      var id := GetTotalizadorCnf(descr);
      ListsAre();
      if id == None {
        return false;
      }
      if id.value < 0 {
        TableIsProper(TotalNames(recs));
        var prox := GetProxTotalizador();
        ListsAre();
        if prox == None {
          return false;
        }
        LeastFreeInRange(TotalNames(recs), prox.value);
        CutIsShort(descr);
        ok := NameTotalizador(prox.value + 1, descr);
        if ok {
          TotalIsEntered(recs, device.totals, prox.value, Cut(descr));
        }
      } else {
        TotalIsThere(recs, Cut(descr), id.value);
        ok := true;
      }
      ListsAre();
    }

    // ------------------------------------------------------------- payments

    /** inicia_fechamento: subtotal, surcharge, total. Only when all three went
        through are the payments of the document forgotten, on both sides. */
    method IniciaFechamento() returns (ok: bool)
      requires Valid()
      modifies `useCcd, `pgtoSeq, device`paid
      ensures Valid() && (old(Mirrors()) ==> Mirrors()) && (old(Trails()) ==> Trails())
      ensures ok ==> useCcd == [] && device.paid == [] && pgtoSeq == -1
      ensures !ok ==> useCcd == old(useCcd) && device.paid == old(device.paid) && pgtoSeq == old(pgtoSeq)
    {
      ok := device.Other();
      if !ok { return; }
      ok := device.Other();
      if !ok { return; }
      ok := device.Totalise();
      if !ok { return; }
      useCcd := [];
      pgtoSeq := -1;
    }

    /** inicia_fechamento_nao_fiscal: surcharge, discount or both. The type that stands for no operation skips
        the printer but still drops the list: the mirror is then lost exactly
        when the printer had accepted payments. */
    method IniciaFechamentoNaoFiscal(tipo: char) returns (ok: bool)
      requires Valid()
      modifies `useCcd, `pgtoSeq, device`paid
      ensures Valid() && (old(Trails()) ==> Trails())
      ensures tipo != '\0' && old(Mirrors()) ==> Mirrors()
      ensures tipo == '\0' ==> ok && (Mirrors() <==> old(device.paid) == [])
      ensures ok ==> useCcd == [] && pgtoSeq == -1 && tipo in {'\0', 'A', 'D', 'X', 'a', 'd', 'x'}
      ensures !ok ==> useCcd == old(useCcd) && pgtoSeq == old(pgtoSeq)
      ensures device.paid == if ok && tipo != '\0' then [] else old(device.paid)
    {
      ok := true;
      if tipo != '\0' {
        if tipo !in {'A', 'D', 'X', 'a', 'd', 'x'} {
          return false;
        }
        ok := device.Totalise();
        if !ok { return; }
        pgtoSeq := -1;
      }
      useCcd := [];
      pgtoSeq := -1;
    }

    /** reg_nao_fiscal. A name found in the outflow setting switches payments off,
        even when the registration then fails. Without the setting every
        registration fails. */
    method RegNaoFiscal(tot: string) returns (ok: bool)
      requires Valid()
      modifies `totCnf, `dontPay
      ensures Valid() && (old(Mirrors()) ==> Mirrors()) && (old(Trails()) ==> Trails())
      ensures dontPay == (old(dontPay) || IsOutflow(cnfSaida, tot))
      ensures forall es :: cnfSaida == Some(Delimited(es)) && '#' !in Trim(Cut(tot)) ==>
        (dontPay <==> old(dontPay) || Trim(Cut(tot)) == "" || InsideOne(es, Trim(Cut(tot))))
      ensures cnfSaida.Some? ==>
        (dontPay <==> old(dontPay) || exists i :: OccursAt(cnfSaida.value, Trim(Cut(tot)), i))
      ensures cnfSaida == None ==> !ok && totCnf == old(totCnf)
    {
      hide CacheOf;
      OutflowSearch(cnfSaida, tot);
      forall es | cnfSaida == Some(Delimited(es)) && '#' !in Trim(Cut(tot))
        ensures IsOutflow(cnfSaida, tot) <==> Trim(Cut(tot)) == "" || InsideOne(es, Trim(Cut(tot)))
      {
        ListedOutflow(es, tot);
      }
      hide Contains;
      hide InsideOne;
      hide OccursAt;
      hide Trim;
      hide Cut;
      hide Latest;
      if cnfSaida == None {
        return false;
      }
      var arg := Trim(Cut(tot));
      if Contains(cnfSaida.value, arg) {
        dontPay := true;
      }
      var idx := GetTotalizadorCnf(tot);
      if idx == None || idx.value < 0 {
        return false;
      }
      ok := device.Other();
    }

    /** pagamento. A suppressed payment changes neither side; a payment the
        printer accepts is noted with the flag of its own slot. */
    method Pagamento(name: string) returns (ok: bool, ghost slot: int)
      requires Valid()
      modifies `fpgto, `vincCcd, `useCcd, device`paid
      ensures Valid() && (old(Mirrors()) ==> Mirrors()) && (old(Trails()) ==> Trails())
      ensures old(dontPay) ==> ok && useCcd == old(useCcd) && device.paid == old(device.paid)
      ensures !ok ==> useCcd == old(useCcd) && device.paid == old(device.paid)
      ensures ok && !old(dontPay) ==>
        && 1 <= slot <= FORMS
        && (Usable(Cut(name)) ==> IEquals(FormName(device.forms[slot - 1]), Cut(name)))
        && useCcd == old(useCcd) + [FormLinked(device.forms[slot - 1])]
        && device.paid == old(device.paid) + [FormLinked(device.forms[slot - 1])]
      ensures ok && !old(dontPay) && Usable(Cut(name)) ==>
        var rec := device.forms[slot - 1];
        && |rec| == 45 && IEquals(rec[..15], Cut(name))
        && useCcd == old(useCcd) + [rec[44] == '1'] && device.paid == old(device.paid) + [rec[44] == '1']
      ensures old(SeqOk()) && !(old(useCcd) == [] && pgtoSeq == 0) ==> SeqOk()
    {
      hide *;
      ListsAre();
      SeqIs();
      slot := 0;
      if dontPay {
        ok := true;
        return;
      }
      var id := GetIdFormaPgto(name);
      ValidIs();
      ListsAre();
      SeqIs();
      if id == None || id.value < 0 {
        ok := false;
        return;
      }
      LoadedIs();
      FoundIs(FormNames(device.forms), Cut(name), id.value);
      slot := id.value;
      DeviceIs(device);
      if Usable(Cut(name)) {
        UsableRecord(device.forms[slot - 1], Cut(name));
      }
      ok := PayAndNote(id.value);
    }

    /** The payment in a slot, and its note if the printer takes it. */
    method PayAndNote(slot: int) returns (ok: bool)
      requires Valid() && Loaded() && 1 <= slot <= FORMS
      modifies `useCcd, device`paid
      ensures Valid() && (old(Mirrors()) ==> Mirrors()) && (old(Trails()) ==> Trails())
      ensures !ok ==> useCcd == old(useCcd) && device.paid == old(device.paid)
      ensures ok ==> useCcd == old(useCcd) + [FormLinked(device.forms[slot - 1])]
      ensures ok ==> device.paid == old(device.paid) + [FormLinked(device.forms[slot - 1])]
      ensures old(SeqOk()) && !(old(useCcd) == [] && pgtoSeq == 0) ==> SeqOk()
    {
      hide *;
      ValidIs();
      LoadedIs();
      ListsAre();
      SeqIs();
      DeviceIs(device);
      ok := device.Pay(slot);
      if ok {
        var vinc := GetVincFormaPgto(slot);
        if old(Trails()) {
          OneMoreIsLatest(useCcd, old(device.paid), vinc);
        }
        OneMoreLinked(useCcd, pgtoSeq, vinc);
        useCcd := useCcd + [vinc];
      }
      DeviceIs(device);
      ValidIs();
      ListsAre();
      SeqIs();
    }

    /** abre_recibo. */
    method AbreRecibo() returns (ok: bool)
    {
      ok := device.Other();
    }

    /** fecha_recibo and fecha_ccd: payments count again, even if the printer
        refuses to close. */
    method FechaDocumento() returns (ok: bool)
      requires Valid()
      modifies `dontPay
      ensures Valid() && !dontPay && (old(Mirrors()) ==> Mirrors()) && (old(Trails()) ==> Trails())
    {
      dontPay := false;
      ok := device.Other();
    }

    /** get_next_pgto_ccd. */
    method GetNextPgtoCcd() returns (r: Option<int>)
      requires pgtoSeq >= -1
      modifies `pgtoSeq
      ensures pgtoSeq == CcdSequence.Next(useCcd, old(pgtoSeq)) && SeqOk()
      ensures r == if pgtoSeq == -1 then None else Some(pgtoSeq + 1)
    {
      var idx, i, j := -1, pgtoSeq + 1, 0;
      var outOfSeq := true;
      while j < |useCcd|
        invariant 0 <= j <= |useCcd| && idx == -1 && i >= 0
        invariant outOfSeq <==> j == 0
        invariant CcdSequence.NextFrom(useCcd, i) == CcdSequence.NextFrom(useCcd, if i < j then j else i)
      {
        outOfSeq := false;
        if j >= i && useCcd[j] {
          idx := j;
          break;
        }
        j := j + 1;
      }
      if outOfSeq {
        idx := idx + 1;
      }
      CcdSequence.NextIsValid(useCcd, pgtoSeq);
      pgtoSeq := idx;
      if idx == -1 {
        return None;
      }
      return Some(idx + 1);
    }

    /** abre_credito_debito: a number is used up even if the printer refuses. */
    method AbreCreditoDebito(name: string) returns (ok: bool)
      requires Valid() && pgtoSeq >= -1
      modifies `fpgto, `vincCcd, `pgtoSeq
      ensures Valid() && (old(Mirrors()) ==> Mirrors()) && (old(Trails()) ==> Trails()) && pgtoSeq >= -1
      ensures pgtoSeq == old(pgtoSeq) || pgtoSeq == CcdSequence.Next(useCcd, old(pgtoSeq))
      ensures ok ==> pgtoSeq == CcdSequence.Next(useCcd, old(pgtoSeq)) && pgtoSeq != -1
      ensures old(SeqOk()) ==> SeqOk()
    {
      hide CacheOf;
      var id := GetIdFormaPgto(name);
      if id == None {
        return false;
      }
      var seqNr := GetNextPgtoCcd();
      if seqNr == None {
        return false;
      }
      ok := device.Other();
    }

    /** Successive requests after a totalisation, without a payment in between:
        the answers are those of the rounds in CcdSequence. */
    method RequestNumbers(n: nat) returns (answers: seq<Option<int>>)
      requires pgtoSeq == -1
      modifies `pgtoSeq
      ensures |answers| == n && forall k :: 0 <= k < n ==> answers[k] == Numbered(CcdSequence.After(useCcd, k + 1))
      ensures pgtoSeq == CcdSequence.After(useCcd, n)
      ensures var linked := CcdSequence.Linked(useCcd);
              useCcd != [] ==>
                && (forall k :: 0 <= k < n && k < |linked| ==> answers[k] == Some(linked[k] + 1))
                && (|linked| < n ==> answers[|linked|] == None)
    {
      hide CcdSequence.Next;
      answers := [];
      while |answers| < n
        invariant |answers| <= n && pgtoSeq == CcdSequence.After(useCcd, |answers|)
        invariant forall k :: 0 <= k < |answers| ==> answers[k] == Numbered(CcdSequence.After(useCcd, k + 1))
      {
        var r := GetNextPgtoCcd();
        answers := answers + [r];
      }
      hide CcdSequence.After;
      hide CcdSequence.Linked;
      ghost var m := |CcdSequence.Linked(useCcd)|;
      if useCcd != [] {
        CcdSequence.OneRound(useCcd, m);
        forall k | 0 <= k < m ensures CcdSequence.Linked(useCcd)[k] == CcdSequence.After(useCcd, k + 1) {
          CcdSequence.OneRound(useCcd, k + 1);
        }
      }
      assert m < n ==> answers[m] == Numbered(CcdSequence.After(useCcd, m + 1));
    }

    // ----------------------------------------------------------- whole runs

    ghost predicate TablesOk()
      reads this, device
    {
      TableOk(FormNames(device.forms)) && TableOk(TotalNames(device.totals))
    }

    /** What a run counts: payments on either side, and whether they are off. */
    ghost function Tallied(): Tally
      reads this, device
    {
      Tally(|device.paid|, |useCcd|, dontPay)
    }

    /** One command of a run; its outcome has no bearing on the next. */
    method Perform(op: Op) returns (ok: bool)
      requires Valid() && Trails() && TablesOk() && pgtoSeq >= -1 && Programmable(op)
      modifies this, device
      ensures Valid() && Trails() && TablesOk() && pgtoSeq >= -1
      ensures FormsStay(old(device.forms), device.forms) && TotalsStay(old(device.totals), device.totals)
      ensures Tallied() == Count(old(Tallied()), op, ok, cnfSaida)
      ensures Mirrors() <==> Tallied().paid == Tallied().noted
    {
      hide *;
      OpKinds(op);
      TablesOkIs();
      TalliedIs();
      NothingWritten(device.forms, device.totals);
      ghost var before := Tallied();
      match op {
        case CloseSale =>
          ok := IniciaFechamento();
        case CloseNonFiscal(tipo) =>
          ok := IniciaFechamentoNaoFiscal(tipo);
        case Register(tot) =>
          ok := RegNaoFiscal(tot);
        case Pay(name) =>
          ghost var slot;
          ok, slot := Pagamento(name);
        case OpenReceipt =>
          ok := AbreRecibo();
        case OpenLinked(name) =>
          ok := AbreCreditoDebito(name);
        case CloseDocument =>
          ok := FechaDocumento();
        case AddForm(name, vinc) =>
          ok := SetFormaPgto(name, vinc);
        case AddTotal(descr) =>
          ok := SetTotalizador(descr);
      }
      TablesOkIs();
      TalliedIs();
      CountIs(before, op, ok, cnfSaida);
      MirrorsIff();
    }

    lemma TalliedIs()
      ensures Tallied() == Tally(|device.paid|, |useCcd|, dontPay)
    {
    }

    lemma TablesOkIs()
      ensures TablesOk() <==> TableOk(FormNames(device.forms)) && TableOk(TotalNames(device.totals))
    {
    }

    /** A shadow list that is a tail of the payments is all of them if it is as
        long. */
    lemma MirrorsIff()
      requires Trails()
      ensures Mirrors() <==> Tallied().paid == Tallied().noted
      ensures Tallied().noted <= Tallied().paid
    {
      assert device.paid[0..] == device.paid;
    }

    /** Over every run of commands, whatever the printer refuses: names stay
        distinct, occupied slots are never written, the shadow list is a tail of
        the payments the printer took since its last totalisation, and the counts
        follow from the commands and their outcomes. So it is known exactly when
        the list mirrors the printer and when payments are off. */
    method Drive(ops: seq<Op>) returns (done: seq<bool>)
      requires Valid() && Trails() && TablesOk() && pgtoSeq >= -1
      requires forall k :: 0 <= k < |ops| ==> Programmable(ops[k])
      modifies this, device
      ensures Valid() && Trails() && TablesOk() && |done| == |ops|
      ensures FormsStay(old(device.forms), device.forms) && TotalsStay(old(device.totals), device.totals)
      ensures FormRecordsStay(old(device.forms), device.forms) && TotalRecordsStay(old(device.totals), device.totals)
      ensures var t := Counted(old(Tallied()), ops, done, cnfSaida);
              Tallied() == t && (Mirrors() <==> t.paid == t.noted) && (dontPay <==> t.mute)
    {
      hide *;
      done := [];
      ValidIs();
      DeviceIs(device);
      NothingWritten(device.forms, device.totals);
      ghost var past: seq<Op> := [];
      ghost var start := Tallied();
      CountedAtFirst(start, cnfSaida);
      while |done| < |ops|
        invariant |done| == |past| <= |ops| && past == ops[..|past|]
        invariant Valid() && Trails() && TablesOk() && pgtoSeq >= -1
        invariant FormsStay(old(device.forms), device.forms) && TotalsStay(old(device.totals), device.totals)
        invariant Tallied() == Counted(start, past, done, cnfSaida)
      {
        var i := |done|;
        ghost var forms, totals := device.forms, device.totals;
        var ok := Perform(ops[i]);
        StayOn(old(device.forms), forms, device.forms, old(device.totals), totals, device.totals);
        CountedGoesOn(start, past, done, ops[i], ok, cnfSaida);
        past := past + [ops[i]];
        done := done + [ok];
      }
      assert past == ops;
      RecordsStay(old(device.forms), device.forms, old(device.totals), device.totals);
      MirrorsIff();
      TalliedIs();
    }
  }

  /** A position, counted from 1 for the printer, or the failure. */
  function Numbered(at: int): Option<int> {
    if at == -1 then None else Some(at + 1)
  }

  /** The commands that touch the open document, and those that program names. */
  datatype Op =
    | CloseSale | CloseNonFiscal(tipo: char) | Register(tot: string) | Pay(name: string)
    | OpenReceipt | OpenLinked(name: string) | CloseDocument
    | AddForm(name: string, vinc: string) | AddTotal(descr: string)

  /** A name that can be programmed without damage to the table. */
  predicate Programmable(op: Op) {
    match op
    case AddForm(name, _) => Usable(Cut(name)) && ',' !in Cut(name) && '\0' !in Cut(name)
    case AddTotal(descr) => Usable(Cut(descr)) && '\0' !in Cut(descr)
    case _ => true
  }

  predicate Totalises(op: Op) {
    op.CloseSale? || (op.CloseNonFiscal? && op.tipo != '\0')
  }

  /** A registration whose receipt is taken for an outflow. */
  predicate IsOutflow(setting: Option<string>, tot: string) {
    setting.Some? && Contains(setting.value, Trim(Cut(tot)))
  }

  /** The name, cut and trimmed, is searched in the setting. */
  lemma OutflowSearch(setting: Option<string>, tot: string)
    ensures IsOutflow(setting, tot) <==> setting.Some? && exists i :: OccursAt(setting.value, Trim(Cut(tot)), i)
  {
    hide OccursAt;
    hide Trim;
    hide Cut;
  }

  /** In a list of entries a name without number signs is found exactly if it is
      empty or part of some entry. */
  lemma ListedOutflow(entries: seq<string>, tot: string)
    requires '#' !in Trim(Cut(tot))
    ensures IsOutflow(Some(Delimited(entries)), tot) <==> Trim(Cut(tot)) == "" || InsideOne(entries, Trim(Cut(tot)))
  {
    hide Contains;
    hide InsideOne;
    hide Trim;
    hide Cut;
    FoundIffInsideOne(entries, Trim(Cut(tot)));
  }

  /** Payments accepted since the last totalisation, those of them that the shadow
      list holds, and whether payments are switched off. */
  datatype Tally = Tally(paid: nat, noted: nat, mute: bool)

  function Count(t: Tally, op: Op, done: bool, setting: Option<string>): Tally {
    match op
    case CloseSale => if done then Tally(0, 0, t.mute) else t
    case CloseNonFiscal(tipo) =>
      if tipo == '\0' then Tally(t.paid, 0, t.mute) else if done then Tally(0, 0, t.mute) else t
    case Pay(_) => if done && !t.mute then Tally(t.paid + 1, t.noted + 1, t.mute) else t
    case Register(tot) => Tally(t.paid, t.noted, t.mute || IsOutflow(setting, tot))
    case CloseDocument => Tally(t.paid, t.noted, false)
    case _ => t
  }

  lemma CountIs(t: Tally, op: Op, done: bool, setting: Option<string>)
    ensures Totalises(op) ==> Count(t, op, done, setting) == if done then Tally(0, 0, t.mute) else t
    ensures NoOperation(op) ==> Count(t, op, done, setting) == Tally(t.paid, 0, t.mute)
    ensures op.Pay? ==>
      Count(t, op, done, setting) == if done && !t.mute then Tally(t.paid + 1, t.noted + 1, t.mute) else t
    ensures op.Register? ==>
      Count(t, op, done, setting) == Tally(t.paid, t.noted, t.mute || IsOutflow(setting, op.tot))
    ensures op.CloseDocument? ==> Count(t, op, done, setting) == Tally(t.paid, t.noted, false)
    ensures op.OpenReceipt? || op.OpenLinked? || op.AddForm? || op.AddTotal? ==> Count(t, op, done, setting) == t
  {
    hide IsOutflow;
  }

  /** The tally after some commands with their outcomes. */
  function Counted(start: Tally, ops: seq<Op>, done: seq<bool>, setting: Option<string>): Tally
    requires |ops| == |done|
  {
    if ops == [] then start
    else
      var n := |ops| - 1;
      Count(Counted(start, ops[..n], done[..n], setting), ops[n], done[n], setting)
  }

  lemma CountedAtFirst(start: Tally, setting: Option<string>)
    ensures Counted(start, [], [], setting) == start
  {
  }

  lemma CountedGoesOn(start: Tally, ops: seq<Op>, done: seq<bool>, op: Op, ok: bool, setting: Option<string>)
    requires |ops| == |done|
    ensures Counted(start, ops + [op], done + [ok], setting)
         == Count(Counted(start, ops, done, setting), op, ok, setting)
  {
    var os, ds := ops + [op], done + [ok];
    assert os[..|ops|] == ops && ds[..|ops|] == done && os[|ops|] == op && ds[|ops|] == ok;
    hide Count;
  }

  // ------------------------------------------------- when the mirror is kept

  /** At the j-th command a no-op subtotal met accepted payments. */
  predicate Breaks(start: Tally, ops: seq<Op>, done: seq<bool>, setting: Option<string>, j: nat)
    requires |ops| == |done|
  {
    j < |ops| && NoOperation(ops[j]) && Counted(start, ops[..j], done[..j], setting).paid > 0
  }

  /** No such thing from the j-th command on. */
  predicate NoBreakFrom(start: Tally, ops: seq<Op>, done: seq<bool>, setting: Option<string>, j: nat)
    requires |ops| == |done|
  {
    forall k: nat :: j <= k < |ops| ==> !Breaks(start, ops, done, setting, k)
  }

  lemma BreaksInFront(start: Tally, ops: seq<Op>, done: seq<bool>, setting: Option<string>, k: nat)
    requires |ops| == |done| && ops != []
    ensures var n := |ops| - 1;
            k < n ==> (Breaks(start, ops, done, setting, k) <==> Breaks(start, ops[..n], done[..n], setting, k))
  {
    var n := |ops| - 1;
    hide Counted;
    if k < n {
      assert ops[..n][..k] == ops[..k] && done[..n][..k] == done[..k];
    }
  }

  lemma NoBreakInFront(start: Tally, ops: seq<Op>, done: seq<bool>, setting: Option<string>, j: nat)
    requires |ops| == |done| && ops != [] && j <= |ops|
    ensures var n := |ops| - 1;
            NoBreakFrom(start, ops, done, setting, j) <==>
              || j == n + 1
              || (NoBreakFrom(start, ops[..n], done[..n], setting, j) && !Breaks(start, ops, done, setting, n))
  {
    var n := |ops| - 1;
    forall k: nat | k < n
      ensures Breaks(start, ops, done, setting, k) <==> Breaks(start, ops[..n], done[..n], setting, k)
    {
      BreaksInFront(start, ops, done, setting, k);
    }
    hide Breaks;
  }

  /** A totalisation that went through, with no break after it. */
  ghost predicate Renewed(start: Tally, ops: seq<Op>, done: seq<bool>, setting: Option<string>)
    requires |ops| == |done|
  {
    exists j: nat :: RenewedAt(start, ops, done, setting, j)
  }

  predicate RenewedAt(start: Tally, ops: seq<Op>, done: seq<bool>, setting: Option<string>, j: nat)
    requires |ops| == |done|
  {
    j < |ops| && done[j] && Totalises(ops[j]) && NoBreakFrom(start, ops, done, setting, j + 1)
  }

  lemma RenewedStep(start: Tally, ops: seq<Op>, done: seq<bool>, setting: Option<string>)
    requires |ops| == |done| && ops != []
    ensures var n := |ops| - 1;
            Renewed(start, ops, done, setting) <==>
              || (done[n] && Totalises(ops[n]))
              || (Renewed(start, ops[..n], done[..n], setting) && !Breaks(start, ops, done, setting, n))
  {
    var n := |ops| - 1;
    forall j: nat | j <= n
      ensures RenewedAt(start, ops, done, setting, j) <==>
                || (j == n && done[n] && Totalises(ops[n]))
                || (RenewedAt(start, ops[..n], done[..n], setting, j) && !Breaks(start, ops, done, setting, n))
    {
      NoBreakInFront(start, ops, done, setting, j + 1);
      hide Totalises;
      hide Breaks;
      hide NoBreakFrom;
    }
    hide Breaks;
    hide NoBreakFrom;
    hide Totalises;
    assert RenewedAt(start, ops, done, setting, n) <==> done[n] && Totalises(ops[n]);
  }

  /** After a run the shadow list mirrors the printer exactly if it did at the
      start and no no-op subtotal has met payments, or if some totalisation went
      through and none has met any after it. */
  lemma {:induction false} MirrorsExactly(start: Tally, ops: seq<Op>, done: seq<bool>, setting: Option<string>)
    requires |ops| == |done| && start.noted <= start.paid
    ensures var t := Counted(start, ops, done, setting);
            && t.noted <= t.paid
            && (t.paid == t.noted <==>
                  || (start.paid == start.noted && NoBreakFrom(start, ops, done, setting, 0))
                  || Renewed(start, ops, done, setting))
  {
    if ops == [] {
    } else {
      var n := |ops| - 1;
      var t := Counted(start, ops[..n], done[..n], setting);
      MirrorsExactly(start, ops[..n], done[..n], setting);
      NoBreakInFront(start, ops, done, setting, 0);
      RenewedStep(start, ops, done, setting);
      CountIs(t, ops[n], done[n], setting);
      OpKinds(ops[n]);
      BreaksIs(start, ops, done, setting, n);
      CountedUnfolds(start, ops, done, setting);
      hide *;
    }
  }

  lemma BreaksIs(start: Tally, ops: seq<Op>, done: seq<bool>, setting: Option<string>, j: nat)
    requires |ops| == |done| && j < |ops|
    ensures Breaks(start, ops, done, setting, j) <==>
            NoOperation(ops[j]) && Counted(start, ops[..j], done[..j], setting).paid > 0
  {
  }

  lemma CountedUnfolds(start: Tally, ops: seq<Op>, done: seq<bool>, setting: Option<string>)
    requires |ops| == |done| && ops != []
    ensures var n := |ops| - 1;
            Counted(start, ops, done, setting)
            == Count(Counted(start, ops[..n], done[..n], setting), ops[n], done[n], setting)
  {
    hide Count;
  }

  // ---------------------------------------------------- when payments are off

  predicate NoCloseFrom(ops: seq<Op>, j: nat) {
    forall k :: j <= k < |ops| ==> !ops[k].CloseDocument?
  }

  /** The j-th command registered an outflow, and no receipt has been closed since. */
  predicate OutflowAt(ops: seq<Op>, setting: Option<string>, j: nat) {
    j < |ops| && ops[j].Register? && IsOutflow(setting, ops[j].tot) && NoCloseFrom(ops, j + 1)
  }

  ghost predicate OutflowOpen(ops: seq<Op>, setting: Option<string>) {
    exists j: nat :: OutflowAt(ops, setting, j)
  }

  lemma NoCloseStep(ops: seq<Op>, j: nat)
    requires ops != [] && j < |ops|
    ensures NoCloseFrom(ops, j) <==> NoCloseFrom(ops[..|ops| - 1], j) && !ops[|ops| - 1].CloseDocument?
  {
    var os := ops[..|ops| - 1];
    assert forall k :: 0 <= k < |os| ==> os[k] == ops[k];
  }

  lemma OutflowStep(ops: seq<Op>, setting: Option<string>)
    requires ops != []
    ensures var n := |ops| - 1;
            OutflowOpen(ops, setting) <==>
              || (ops[n].Register? && IsOutflow(setting, ops[n].tot))
              || (OutflowOpen(ops[..n], setting) && !ops[n].CloseDocument?)
  {
    var n := |ops| - 1;
    hide IsOutflow;
    forall j: nat | j < n
      ensures OutflowAt(ops, setting, j) <==> OutflowAt(ops[..n], setting, j) && !ops[n].CloseDocument?
    {
      NoCloseStep(ops, j + 1);
    }
    assert OutflowAt(ops, setting, n) <==> ops[n].Register? && IsOutflow(setting, ops[n].tot);
    hide NoCloseFrom;
  }

  /** Whatever the outcomes, payments are off exactly if an outflow was registered,
      or they were off at the start, and nothing was closed since: a registration
      that the printer refused suppresses the payments of the next sale. */
  lemma {:induction false} PaymentsAreOffIff(start: Tally, ops: seq<Op>, done: seq<bool>, setting: Option<string>)
    requires |ops| == |done|
    ensures Counted(start, ops, done, setting).mute <==>
            (start.mute && NoCloseFrom(ops, 0)) || OutflowOpen(ops, setting)
  {
    if ops == [] {
    } else {
      var n := |ops| - 1;
      PaymentsAreOffIff(start, ops[..n], done[..n], setting);
      NoCloseStep(ops, 0);
      OutflowStep(ops, setting);
      CountedUnfolds(start, ops, done, setting);
      OpKinds(ops[n]);
      CountIs(Counted(start, ops[..n], done[..n], setting), ops[n], done[n], setting);
      hide *;
    }
  }

  /** The same for a list of entries, as the program documents the setting: payments
      are off exactly if they were at the start, or a name that is part of an entry
      was registered, and nothing was closed since. */
  lemma PaymentsAreOffForList(start: Tally, ops: seq<Op>, done: seq<bool>, entries: seq<string>)
    requires |ops| == |done|
    requires forall k :: 0 <= k < |ops| && ops[k].Register? ==> '#' !in Trim(Cut(ops[k].tot))
    ensures Counted(start, ops, done, Some(Delimited(entries))).mute <==>
            || (start.mute && forall k :: 0 <= k < |ops| ==> !ops[k].CloseDocument?)
            || exists j :: ListedAt(ops, entries, j)
  {
    var setting := Some(Delimited(entries));
    PaymentsAreOffIff(start, ops, done, setting);
    forall j: nat ensures OutflowAt(ops, setting, j) <==> ListedAt(ops, entries, j) {
      if j < |ops| && ops[j].Register? {
        ListedOutflow(entries, ops[j].tot);
      }
      hide InsideOne;
      hide IsOutflow;
    }
    hide Counted;
    hide OutflowAt;
    hide ListedAt;
  }

  /** The j-th command registered a name that is part of an entry, and nothing has
      been closed since. */
  predicate ListedAt(ops: seq<Op>, entries: seq<string>, j: nat) {
    && j < |ops| && ops[j].Register?
    && (Trim(Cut(ops[j].tot)) == "" || InsideOne(entries, Trim(Cut(ops[j].tot))))
    && forall k :: j < k < |ops| ==> !ops[k].CloseDocument?
  }

  lemma OpKinds(op: Op)
    ensures NoOperation(op) <==> op.CloseNonFiscal? && op.tipo == '\0'
    ensures op.CloseSale? || op.CloseNonFiscal? <==> Totalises(op) || NoOperation(op)
    ensures !(Totalises(op) && NoOperation(op))
    ensures Totalises(op) <==> op.CloseSale? || (op.CloseNonFiscal? && op.tipo != '\0')
    ensures Programmable(op) && op.AddForm? ==> Usable(Cut(op.name)) && ',' !in Cut(op.name) && '\0' !in Cut(op.name)
    ensures Programmable(op) && op.AddTotal? ==> Usable(Cut(op.descr)) && '\0' !in Cut(op.descr)
  {
  }

  lemma NothingWritten(forms: seq<string>, totals: seq<string>)
    ensures FormsStay(forms, forms) && TotalsStay(totals, totals)
  {
  }

  lemma StayOn(f0: seq<string>, f1: seq<string>, f2: seq<string>, t0: seq<string>, t1: seq<string>, t2: seq<string>)
    requires FormsStay(f0, f1) && FormsStay(f1, f2) && TotalsStay(t0, t1) && TotalsStay(t1, t2)
    ensures FormsStay(f0, f2) && TotalsStay(t0, t2)
  {
    hide FormName;
    hide Trim;
    hide Cut;
  }

  /** No slot but the i-th was written. */
  predicate OnlyAt(before: seq<string>, after: seq<string>, i: int) {
    |before| == |after| && forall k :: 0 <= k < |before| && k != i ==> after[k] == before[k]
  }

  lemma UpdateIsOnlyAt(before: seq<string>, after: seq<string>, i: nat)
    requires i < |before| == |after| && after == before[i := after[i]]
    ensures OnlyAt(before, after, i)
  {
  }

  lemma SameIsOnlyAt(before: seq<string>, i: int)
    ensures OnlyAt(before, before, i)
  {
  }

  /** Occupied slots were not written. */
  predicate FormsStay(before: seq<string>, after: seq<string>) {
    |before| == |after| && forall k :: 0 <= k < |before| && FormName(before[k]) != "" ==> after[k] == before[k]
  }

  predicate TotalsStay(before: seq<string>, after: seq<string>) {
    |before| == |after| && forall k :: 0 <= k < |before| && TotalNames(before)[k] != "" ==> after[k] == before[k]
  }

  /** The subtotal of the type that skips the printer. */
  predicate NoOperation(op: Op) {
    op.CloseNonFiscal? && op.tipo == '\0'
  }

  lemma OneMoreLinked(flags: seq<bool>, at: int, linked: bool)
    ensures 0 <= at < |flags| && flags[at] ==> 0 <= at < |flags + [linked]| && (flags + [linked])[at]
  {
  }

  lemma FoundIs(slots: seq<string>, key: string, r: int)
    ensures Found(slots, key, r) && r != -1 ==> 1 <= r <= |slots| && IEquals(slots[r - 1], key)
  {
    hide IEquals;
  }

  lemma OneMoreIsLatest(noted: seq<bool>, paid: seq<bool>, linked: bool)
    requires Latest(noted, paid)
    ensures Latest(noted + [linked], paid + [linked])
  {
  }

  /** The noted payments are the last of those the printer took. */
  predicate Latest(noted: seq<bool>, paid: seq<bool>) {
    |noted| <= |paid| && paid[|paid| - |noted|..] == noted
  }

  /** A usable name is in the table exactly if a whole record has it. */
  lemma NamedByRecord(recs: seq<string>, key: string)
    requires Usable(key) && forall k :: 0 <= k < |recs| ==> GoodForm(recs[k])
    ensures Absent(FormNames(recs), key)
       <==> !exists k :: 0 <= k < |recs| && |recs[k]| == 45 && IEquals(recs[k][..15], key)
  {
    forall k | 0 <= k < |recs|
      ensures IEquals(FormName(recs[k]), key) <==> |recs[k]| == 45 && IEquals(recs[k][..15], key)
    {
      FormNameIs(recs[k]);
      if |recs[k]| == 45 {
        SameTrimmed(recs[k][..15], key);
      } else {
        Symmetric(key, Unavailable());
      }
    }
    hide IEquals;
    hide FormName;
  }

  /** A usable name is that of a whole record, whose last character is its flag. */
  lemma UsableRecord(rec: string, key: string)
    requires GoodForm(rec) && Usable(key) && IEquals(FormName(rec), key)
    ensures |rec| == 45 && IEquals(rec[..15], key) && (FormLinked(rec) <==> rec[44] == '1')
  {
    FormNameIs(rec);
    Symmetric(key, Unavailable());
    UsableFolds(FormName(rec), key);
    BlankIsNobody(key);
    if |rec| == 45 {
      SameTrimmed(rec[..15], key);
    }
    hide IEquals;
    hide FormName;
    hide AllSpace;
  }

  lemma SameTrimmed(a: string, key: string)
    ensures IEquals(Trim(a), key) <==> IEquals(a, key)
  {
    FoldIdempotent(a);
    IEqualsIsFoldEquality(Trim(a), key);
    IEqualsIsFoldEquality(a, key);
  }

  /** The least free slot is that of the first whole record without a name. */
  lemma LeastFreeByRecord(recs: seq<string>, i: int)
    requires forall k :: 0 <= k < |recs| ==> GoodForm(recs[k])
    ensures LeastFree(FormNames(recs), i) && i != -1 ==>
      0 <= i < |recs| && FreeForm(recs[i]) && forall j :: 0 <= j < i ==> !FreeForm(recs[j])
  {
    forall k | 0 <= k < |recs| ensures FormName(recs[k]) == "" <==> FreeForm(recs[k]) {
      FormNameIs(recs[k]);
    }
    hide FormName;
    hide FreeForm;
    if LeastFree(FormNames(recs), i) && i != -1 {
      assert forall j :: 0 <= j < i ==> FormNames(recs)[..i][j] == FormNames(recs)[j];
    }
  }

  lemma NamedTotal(recs: seq<string>, i: nat, name: string)
    requires i < |recs| && |name| <= 15 && Trim(name) == name
    ensures TotalNames(recs[i := Padded(name, TOTAL_SIZE)]) == TotalNames(recs)[i := name]
  {
    PaddedTrims(name, TOTAL_SIZE, 15);
    assert Cut(Padded(name, TOTAL_SIZE)) == Padded(name, TOTAL_SIZE)[..15];
    hide Trim;
    hide Cut;
    hide Padded;
  }

  lemma TotalName(recs: seq<string>, i: nat)
    requires i < |recs| && forall k :: 0 <= k < |recs| ==> GoodTotal(recs[k])
    ensures i * 20 + 15 <= |Joined(recs)| && Joined(recs)[i * 20..i * 20 + 15] == Cut(recs[i])
  {
    TotalsLayout(recs, i);
    hide Joined;
    assert Joined(recs)[i * 20..i * 20 + 15] == Joined(recs)[20 * i..20 * i + 19][..15];
  }

  lemma CacheIs(slots: seq<string>)
    ensures |CacheOf(slots)| == |slots|
  {
  }

  lemma NoTotalsShown()
    ensures CacheOf(TotalNames([])) == []
  {
  }

  lemma TotalShown(recs: seq<string>, i: nat)
    requires i < |recs|
    ensures var name := Trim(Cut(recs[i]));
            CacheOf(TotalNames(recs[..i + 1]))
            == CacheOf(TotalNames(recs[..i])) + [if name == "" then Available() else name]
  {
    hide Trim;
    hide CacheOf;
    assert recs[..i + 1] == recs[..i] + [recs[i]];
  }

  lemma SkippedBlanks(slots: seq<string>, key: string, idx: int)
    requires idx == -1 ==> forall k :: 0 <= k < |slots| && slots[k] != "" ==> !IEquals(key, slots[k])
    requires idx != -1 ==> 0 <= idx < |slots| && IEquals(key, slots[idx])
    ensures Usable(key) ==> Found(slots, key, if idx < 0 then idx else idx + 1)
  {
    if Usable(key) {
      BlankIsNobody(key);
      hide IEquals;
      hide Usable;
      ColdLookup(slots, key, idx);
    }
  }

  // ------------------------------------------------- tables, seen as names

  /** The answer of a lookup: the one slot of that name, or none. */
  ghost predicate Found(slots: seq<string>, key: string, r: int) {
    && (r == -1 ==> Absent(slots, key))
    && (r != -1 ==> 1 <= r <= |slots| && IEquals(slots[r - 1], key))
  }

  /** On the records: none that is short or has a name was written. */
  predicate FormRecordsStay(before: seq<string>, after: seq<string>) {
    && |after| == |before|
    && forall k :: 0 <= k < |before| && (|before[k]| < 45 || !AllSpace(before[k][..15])) ==> after[k] == before[k]
  }

  predicate TotalRecordsStay(before: seq<string>, after: seq<string>) {
    && |after| == |before|
    && forall k :: 0 <= k < |before| && (|before[k]| < 15 || !AllSpace(before[k][..15])) ==> after[k] == before[k]
  }

  lemma RecordsStay(forms: seq<string>, forms': seq<string>, totals: seq<string>, totals': seq<string>)
    requires forall k :: 0 <= k < |forms| ==> GoodForm(forms[k])
    requires forall k :: 0 <= k < |totals| ==> GoodTotal(totals[k])
    ensures FormsStay(forms, forms') <==> FormRecordsStay(forms, forms')
    ensures TotalsStay(totals, totals') <==> TotalRecordsStay(totals, totals')
  {
    forall k | 0 <= k < |forms| ensures FormName(forms[k]) == "" <==> FreeForm(forms[k]) {
      FormNameIs(forms[k]);
    }
    forall k | 0 <= k < |totals| ensures Trim(Cut(totals[k])) == "" <==> FreeTotal(totals[k]) {
      TotalNameIs(totals[k]);
    }
    hide FormName;
    hide Trim;
    hide Cut;
    hide AllSpace;
  }

  /** On the records: a name that a whole record has already changes nothing;
      otherwise the one record that changes is the first whole one without a name,
      and it has the name and the flag then. */
  ghost predicate FormWritten(before: seq<string>, after: seq<string>, key: string, linked: bool) {
    if exists k :: 0 <= k < |before| && |before[k]| == 45 && IEquals(before[k][..15], key) then after == before
    else exists k ::
      && 0 <= k < |before| && FreeForm(before[k]) && (forall j :: 0 <= j < k ==> !FreeForm(before[j]))
      && |after| == |before| && (forall j :: 0 <= j < |before| && j != k ==> after[j] == before[j])
      && HasForm(after[k], key, linked)
  }

  predicate HasForm(rec: string, key: string, linked: bool) {
    |rec| == 45 && Trim(rec[..15]) == Trim(key) && (rec[44] == '1' <==> linked)
  }

  lemma FormHeld(rec: string, key: string, linked: bool)
    requires |rec| == FORM_SIZE && |Trim(key)| <= 15 && Trim(Trim(key)) == Trim(key)
    requires rec[..16] == Padded(Trim(key), 16) && rec[FORM_SIZE - 1] == (if linked then '1' else '0')
    ensures HasForm(rec, key, linked)
  {
    hide Trim;
    PaddedTrims(Trim(key), 16, 15);
    assert rec[..15] == rec[..16][..15];
  }

  lemma FormIsWritten(before: seq<string>, after: seq<string>, i: int, key: string, linked: bool)
    requires Usable(key) && forall k :: 0 <= k < |before| ==> GoodForm(before[k])
    requires Absent(FormNames(before), key) && LeastFree(FormNames(before), i) && i != -1
    requires |after| == |before| && forall j :: 0 <= j < |before| && j != i ==> after[j] == before[j]
    requires 0 <= i < |after| && HasForm(after[i], key, linked)
    ensures FormWritten(before, after, key, linked)
  {
    NamedByRecord(before, key);
    LeastFreeByRecord(before, i);
    hide IEquals;
    hide FreeForm;
    hide Trim;
    hide Absent;
    hide LeastFree;
    hide Usable;
  }

  lemma DeviceIs(device: Device)
    ensures device.Valid() <==>
      && |device.forms| == FORMS && (forall k :: 0 <= k < FORMS ==> GoodForm(device.forms[k]))
      && |device.totals| == TOTALS && forall k :: 0 <= k < TOTALS ==> GoodTotal(device.totals[k])
  {
    hide GoodForm;
    hide GoodTotal;
  }

  lemma TableIsProper(slots: seq<string>)
    requires TableOk(slots)
    ensures Proper(slots)
  {
  }

  /** What programming the least free slot comes to, on names and on records. */
  lemma FormIsEntered(before: seq<string>, after: seq<string>, i: nat, key: string, linked: bool)
    requires Usable(key) && |key| <= 15 && forall k :: 0 <= k < |before| ==> GoodForm(before[k])
    requires TableOk(FormNames(before)) && Found(FormNames(before), key, -1) && LeastFree(FormNames(before), i)
    requires |after| == |before| && (forall j :: 0 <= j < |before| && j != i ==> after[j] == before[j])
    requires i < |before| && HasForm(after[i], key, linked)
    requires FormNames(after) == FormNames(before)[i := Trim(key)]
    requires FormLinked(after[i]) == (linked && Trim(key) != "")
    ensures TableOk(FormNames(after)) && Entered(FormNames(before), FormNames(after), key)
    ensures FormWritten(before, after, key, linked) && FormsStay(before, after)
    ensures LeastFree(FormNames(before), i) && FormLinked(after[i]) == linked
  {
    NotFoundIsAbsent(FormNames(before), key);
    FormIsWritten(before, after, i, key, linked);
    CutIsNothing(key);
    CutTrims(key);
    UsableIsNotBlank(key);
    NewNameEntered(FormNames(before), i, key);
    OthersStay(before, after, i);
    hide *;
  }

  predicate HasTotal(rec: string, key: string) {
    |rec| == 19 && Trim(rec[..15]) == Trim(key)
  }

  lemma TotalHeld(key: string)
    requires |Trim(key)| <= 15 && Trim(Trim(key)) == Trim(key)
    ensures HasTotal(Padded(Trim(key), TOTAL_SIZE), key)
  {
    hide Trim;
    PaddedTrims(Trim(key), TOTAL_SIZE, 15);
  }

  /** The same for totalisers. */
  ghost predicate TotalWritten(before: seq<string>, after: seq<string>, key: string) {
    if exists k :: 0 <= k < |before| && |before[k]| == 19 && IEquals(before[k][..15], key) then after == before
    else exists k ::
      && 0 <= k < |before| && FreeTotal(before[k]) && (forall j :: 0 <= j < k ==> !FreeTotal(before[j]))
      && |after| == |before| && (forall j :: 0 <= j < |before| && j != k ==> after[j] == before[j])
      && HasTotal(after[k], key)
  }

  lemma NamedTotals(recs: seq<string>, key: string)
    requires Usable(key) && forall k :: 0 <= k < |recs| ==> GoodTotal(recs[k])
    ensures Absent(TotalNames(recs), key)
       <==> !exists k :: 0 <= k < |recs| && |recs[k]| == 19 && IEquals(recs[k][..15], key)
  {
    forall k | 0 <= k < |recs| ensures IEquals(TotalNames(recs)[k], key) <==> IEquals(recs[k][..15], key) {
      TotalNameIs(recs[k]);
      SameTrimmed(recs[k][..15], key);
    }
    hide IEquals;
    hide TotalNames;
    hide Usable;
  }

  lemma LeastFreeTotal(recs: seq<string>, i: nat)
    requires forall k :: 0 <= k < |recs| ==> GoodTotal(recs[k])
    requires LeastFree(TotalNames(recs), i)
    ensures i < |recs| && FreeTotal(recs[i]) && forall j :: 0 <= j < i ==> !FreeTotal(recs[j])
  {
    forall k | 0 <= k < |recs| ensures Trim(Cut(recs[k])) == "" <==> FreeTotal(recs[k]) {
      TotalNameIs(recs[k]);
    }
    hide Trim;
    hide Cut;
    hide FreeTotal;
    assert forall j :: 0 <= j < i ==> TotalNames(recs)[..i][j] == TotalNames(recs)[j];
  }

  lemma TotalIsEntered(before: seq<string>, after: seq<string>, i: nat, key: string)
    requires Usable(key) && |key| <= 15 && forall k :: 0 <= k < |before| ==> GoodTotal(before[k])
    requires TableOk(TotalNames(before)) && Found(TotalNames(before), key, -1) && LeastFree(TotalNames(before), i)
    requires OnlyAt(before, after, i) && i < |before| && |after| == |before| && HasTotal(after[i], key)
    requires TotalNames(after) == TotalNames(before)[i := Trim(key)]
    ensures TableOk(TotalNames(after)) && Entered(TotalNames(before), TotalNames(after), key)
    ensures TotalWritten(before, after, key) && TotalsStay(before, after)
  {
    NotFoundIsAbsent(TotalNames(before), key);
    TotalIsWritten(before, after, i, key);
    CutIsNothing(key);
    CutTrims(key);
    NewNameEntered(TotalNames(before), i, key);
    hide *;
  }

  lemma TotalIsWritten(before: seq<string>, after: seq<string>, i: nat, key: string)
    requires Usable(key) && forall k :: 0 <= k < |before| ==> GoodTotal(before[k])
    requires Absent(TotalNames(before), key) && LeastFree(TotalNames(before), i)
    requires OnlyAt(before, after, i) && i < |before| && |after| == |before| && HasTotal(after[i], key)
    ensures TotalWritten(before, after, key) && TotalsStay(before, after)
  {
    NamedTotals(before, key);
    LeastFreeTotal(before, i);
    OneTotalWritten(before, after, i);
    hide IEquals;
    hide FreeTotal;
    hide HasTotal;
    hide Absent;
    hide LeastFree;
    hide Usable;
    hide TotalsStay;
  }

  lemma OneTotalWritten(before: seq<string>, after: seq<string>, i: nat)
    requires LeastFree(TotalNames(before), i) && OnlyAt(before, after, i) && i < |before|
    ensures TotalsStay(before, after)
  {
    hide Trim;
  }

  lemma TotalIsThere(recs: seq<string>, key: string, r: int)
    requires Usable(key) && forall k :: 0 <= k < |recs| ==> GoodTotal(recs[k])
    requires Found(TotalNames(recs), key, r) && r != -1
    ensures TotalWritten(recs, recs, key) && Entered(TotalNames(recs), TotalNames(recs), key)
  {
    NameThere(TotalNames(recs), key, r);
    NamedTotals(recs, key);
    hide IEquals;
    hide TotalNames;
    hide Usable;
    assert IEquals(TotalNames(recs)[r - 1], key);
    assert !Absent(TotalNames(recs), key);
    hide FreeTotal;
    hide HasTotal;
  }

  lemma NotFoundIsAbsent(slots: seq<string>, key: string)
    ensures Found(slots, key, -1) <==> Absent(slots, key)
  {
    hide IEquals;
  }

  lemma CutIsShort(name: string)
    ensures |Cut(name)| <= 15
  {
  }

  lemma CutIsNothing(key: string)
    requires |key| <= 15
    ensures Cut(key) == key
  {
  }

  lemma OthersStay(before: seq<string>, after: seq<string>, i: nat)
    requires LeastFree(FormNames(before), i) && i < |before| == |after|
    requires forall j :: 0 <= j < |before| && j != i ==> after[j] == before[j]
    ensures FormsStay(before, after)
  {
    hide FormName;
  }

  lemma FormIsThere(recs: seq<string>, key: string, r: int, linked: bool)
    requires Usable(key) && forall k :: 0 <= k < |recs| ==> GoodForm(recs[k])
    requires Found(FormNames(recs), key, r) && r != -1
    ensures FormWritten(recs, recs, key, linked)
    ensures Entered(FormNames(recs), FormNames(recs), key) && !Absent(FormNames(recs), key)
  {
    NameThere(FormNames(recs), key, r);
    NamedByRecord(recs, key);
    hide IEquals;
    hide FormName;
    hide Usable;
    assert IEquals(FormNames(recs)[r - 1], key);
    assert !Absent(FormNames(recs), key);
    hide FreeForm;
    hide Trim;
  }

  ghost predicate TableOk(slots: seq<string>) {
    SlotTable.Distinct(slots) && Proper(slots)
  }

  ghost predicate LeastFree(slots: seq<string>, i: int) {
    (i == -1 ==> "" !in slots) && (i != -1 ==> 0 <= i < |slots| && slots[i] == "" && "" !in slots[..i])
  }

  /** The table after a name was asked for: unchanged if it was there, otherwise
      the trimmed name stands in what was the least free slot. Looking the name
      up gives that slot. */
  ghost predicate Entered(before: seq<string>, after: seq<string>, key: string) {
    if Absent(before, key) then
      exists i :: LeastFree(before, i) && 0 <= i < |before| && after == before[i := Trim(key)]
                  && forall r :: Found(after, key, r) ==> r == i + 1
    else after == before
  }

  lemma WarmLookup(slots: seq<string>, key: string, idx: int, cache: seq<string>)
    requires cache == [] || cache == CacheOf(slots)
    requires idx == -1 ==> forall i :: 0 <= i < |cache| ==> !IEquals(cache[i], key)
    requires idx != -1 ==> 0 <= idx < |cache| && IEquals(cache[idx], key)
    ensures idx != -1 && Usable(key) ==> Found(slots, key, idx + 1)
  {
    if Usable(key) && idx != -1 {
      CacheHasSameNames(slots, key, idx);
      hide IEquals;
      hide Usable;
      hide CacheOf;
    }
  }

  lemma ColdLookup(slots: seq<string>, key: string, idx: int)
    requires idx == -1 ==> forall k :: 0 <= k < |slots| ==> !IEquals(key, slots[k])
    requires idx != -1 ==> 0 <= idx < |slots| && IEquals(key, slots[idx])
    ensures Found(slots, key, if idx < 0 then idx else idx + 1)
  {
    hide IEquals;
    forall k | 0 <= k < |slots| ensures IEquals(key, slots[k]) <==> IEquals(slots[k], key) {
      Symmetric(key, slots[k]);
    }
  }

  /** A lookup has one answer, whether it came from the cache or the printer. */
  lemma LookupIsUnique(slots: seq<string>, key: string, a: int, b: int)
    requires SlotTable.Distinct(slots) && Usable(key) && Found(slots, key, a) && Found(slots, key, b)
    ensures a == b
  {
    if a != -1 && b != -1 {
      hide IEquals;
      hide Usable;
      SameNameSameSlot(slots, key, a - 1, b - 1);
    } else {
      hide IEquals;
    }
  }

  lemma ShownAvailable(slots: seq<string>, idx: int)
    requires Proper(slots)
    requires idx == -1 ==> Available() !in CacheOf(slots)
    requires idx != -1 ==>
      0 <= idx < |slots| && CacheOf(slots)[idx] == Available() && Available() !in CacheOf(slots)[..idx]
    ensures LeastFree(slots, idx)
  {
    forall i: nat | i < |slots| ensures CacheOf(slots)[i] == Available() <==> slots[i] == "" {
      AvailableIsFree(slots, i);
    }
    hide CacheOf;
    hide Proper;
    var c := CacheOf(slots);
    if idx == -1 {
      assert forall i :: 0 <= i < |c| ==> c[i] in c;
    } else {
      assert forall i :: 0 <= i < idx ==> c[..idx][i] == c[i] && slots[..idx][i] == slots[i];
    }
  }

  lemma CutTrims(name: string)
    ensures |Trim(Cut(name))| <= 15
    ensures forall c :: c in Trim(Cut(name)) ==> c in Cut(name)
    ensures IEquals(Trim(Cut(name)), Cut(name)) && Trim(Trim(Cut(name))) == Trim(Cut(name))
  {
    var s := Cut(name);
    assert |s| <= 15;
    hide Cut;
    TrimIdempotent(s);
    IEqualsIsEquivalence(s, "", "");
    hide IEquals;
    var tail := RTrimDropsBlanks(s);
    var lead := LTrimDropsBlanks(RTrim(s));
    assert s == lead + Trim(s) + tail;
  }

  lemma TrimmedName(name: string)
    ensures |Trim(Cut(name))| <= 15 && Trim(Trim(Cut(name))) == Trim(Cut(name))
    ensures '\0' !in Cut(name) ==> '\0' !in Trim(Cut(name))
  {
    CutTrims(name);
  }

  /** The printer gives a programmed name back as it was. */
  lemma ProgrammedName(rec: string, name: string)
    requires |rec| == FORM_SIZE && |name| <= 15 && rec[..16] == Padded(name, 16) && Trim(name) == name
    ensures FormName(rec) == name
  {
    assert Cut(rec) == rec[..16][..15] == Padded(name, 16)[..15];
    PaddedTrims(name, 16, 15);
  }

  /** The text of the flag: "true" in any case, or anything that starts with 1. */
  predicate AsksForLink(vinc: string) {
    IEquals(vinc, "true") || (vinc != "" && vinc[0] == '1')
  }

  lemma AsksIs(vinc: string)
    ensures AsksForLink(vinc) <==> Upper(Trim(vinc)) == "TRUE" || (vinc != "" && vinc[0] == '1')
  {
    IEqualsIsFoldEquality(vinc, "true");
    TrimFixesCore("true");
    assert Upper("true") == "TRUE";
    hide IEquals;
    hide Trim;
  }

  lemma ProgrammedFlag(rec: string)
    requires |rec| == FORM_SIZE
    ensures FormLinked(rec) == (FormName(rec) != "" && rec[FORM_SIZE - 1] == '1')
  {
    hide FormName;
  }

  lemma PaddedTrims(name: string, n: nat, k: nat)
    requires |name| <= k <= n && Trim(name) == name
    ensures Trim(Padded(name, n)[..k]) == name
  {
    var s := Padded(name, n)[..k];
    TrimIsCore(name);
    var tail := s[|name|..];
    assert s == "" + name + tail && AllSpace("") && AllSpace(tail);
    assert IsCore(s, name);
    CoreIsUnique(s, name);
  }

  lemma FoundOnlyAt(slots: seq<string>, key: string, i: int)
    requires 0 <= i < |slots| && forall k :: 0 <= k < |slots| ==> (IEquals(slots[k], key) <==> k == i)
    ensures forall r :: Found(slots, key, r) ==> r == i + 1
  {
    hide IEquals;
    assert IEquals(slots[i], key);
  }

  lemma NewNameEntered(before: seq<string>, i: int, key: string)
    requires TableOk(before) && LeastFree(before, i) && i != -1 && Usable(key) && Absent(before, key)
    requires IEquals(Trim(key), key) && Trim(Trim(key)) == Trim(key)
    ensures TableOk(before[i := Trim(key)]) && Entered(before, before[i := Trim(key)], key)
  {
    var name := Trim(key);
    var after := before[i := name];
    UsableFolds(name, key);
    hide Trim;
    hide Usable;
    hide IEquals;
    SameClass(before, key, name);
    SameClass(after, key, name);
    hide Absent;
    hide LeastFree;
    assert 0 <= i < |before| by { LeastFreeInRange(before, i); }
    ProgramKeepsDistinct(before, i, name);
    FoundOnlyAt(after, key, i);
    hide Found;
    hide Proper;
    hide SlotTable.Distinct;
  }

  lemma NameThere(slots: seq<string>, key: string, r: int)
    requires Found(slots, key, r) && r != -1
    ensures Entered(slots, slots, key)
  {
    hide IEquals;
    assert IEquals(slots[r - 1], key);
  }

  lemma UsableIsNotBlank(key: string)
    requires Usable(key)
    ensures Trim(key) != ""
  {
  }

  lemma LeastFreeInRange(slots: seq<string>, i: int)
    requires LeastFree(slots, i)
    ensures -1 <= i < |slots|
  {
  }

  lemma SameClass(slots: seq<string>, a: string, b: string)
    requires IEquals(b, a)
    ensures forall i :: 0 <= i < |slots| ==> (IEquals(slots[i], a) <==> IEquals(slots[i], b))
    ensures Absent(slots, a) <==> Absent(slots, b)
  {
    forall i | 0 <= i < |slots| ensures IEquals(slots[i], a) <==> IEquals(slots[i], b) {
      IEqualsIsFoldEquality(slots[i], a);
      IEqualsIsFoldEquality(slots[i], b);
      IEqualsIsFoldEquality(b, a);
    }
    hide IEquals;
  }

  lemma NothingShown()
    ensures CacheOf(FormNames([])) == [] && FormFlags([]) == []
  {
  }

  /** What one more record adds to the lists, and where it stands. */
  lemma ShownStep(recs: seq<string>, i: nat)
    requires i < |recs|
    ensures Joined(recs[i..]) == recs[i] + "," + Joined(recs[i + 1..])
    ensures CacheOf(FormNames(recs[..i + 1]))
         == CacheOf(FormNames(recs[..i])) + [if FormName(recs[i]) == "" then Available() else FormName(recs[i])]
    ensures FormFlags(recs[..i + 1]) == FormFlags(recs[..i]) + [FormLinked(recs[i])]
  {
    hide FormName;
    hide FormLinked;
    assert recs[i..][1..] == recs[i + 1..];
    hide CacheOf;
    assert recs[..i + 1] == recs[..i] + [recs[i]];
  }

  /** The do loop that copies one record up to its comma. */
  method NextRecord(buffer: string, start: nat, ghost rec: string, ghost more: string) returns (reg: string, j: nat)
    requires GoodForm(rec) && start <= |buffer| && rec + "," + more <= buffer[start..]
    ensures reg == rec && j <= |buffer| && more <= buffer[j..]
  {
    j := start;
    reg := "";
    var found := false;
    ghost var s := rec + "," + more;
    assert forall k :: 0 <= k < |s| ==> buffer[start + k] == buffer[start..][k] == s[k];
    while !found
      invariant start <= j <= |buffer|
      invariant !found ==> j - start <= |rec| && reg == rec[..j - start]
      invariant found ==> j == start + |rec| + 1 && reg == rec
      decreases |rec| + 1 - (j - start), !found
    {
      assert s[j - start] == (if j - start < |rec| then rec[j - start] else ',');
      if buffer[j] != ',' {
        reg := reg + [buffer[j]];
      } else {
        found := true;
      }
      j := j + 1;
    }
    assert buffer[j..] == buffer[start..][|rec| + 1..];
  }
}
