/** The commands whose arguments can make the string library throw. The broker
    catches the exceptions of the program and no others (src/ecfbroker.cc), so
    these leave it and end the process (set_aliquota and snd_vende_item through
    src/aliquota.cc, memoria_fiscal through format_date in src/ecfbematech.cc). */
module EscapingCommands {
  import opened Text
  import opened Packets
  import opened Rates

  /** How a command ends: done, with an exception of the program, which becomes an
      answer, or with another one, which does not. */
  datatype Verdict = Accepted | Refused | Escaped

  predicate Has(ps: seq<Param>, name: string) {
    Lookup(ps, name).Some?
  }

  /** The value a command gets for a name. */
  function Value(ps: seq<Param>, name: string): string
    requires Has(ps, name)
  {
    LookupHasValues(ps, name);
    Lookup(ps, name).value.values[0]
  }

  // ------------------------------------------------------------------- rates

  /** The text of a rate that makes the parser run off its end: it has two colons
      and begins with one, or there is one among the last two characters. */
  predicate RunsOff(value: string) {
    && (exists i, j :: 0 <= i < j < |value| && value[i] == ':' && value[j] == ':')
    && (value[0] == ':' || ':' in value[|value| - 2..])
  }

  lemma RunsOffIff(value: string)
    ensures RunsOff(value) <==> Parsed(value) == Bad(OutOfRange)
  {
    var first, last := Find(value, ":"), RFind(value, ":");
    forall i | 0 <= i < |value| ensures OccursAt(value, ":", i) <==> value[i] == ':' {
      assert value[i..i + 1] == [value[i]];
    }
    hide Atoi;
    hide Atof;
    hide Find;
    hide RFind;
    if first >= 0 {
      assert OccursAt(value, ":", first) && OccursAt(value, ":", last);
    }
  }

  // ---------------------------------------------------------------- commands

  predicate RateEscapes(ps: seq<Param>) {
    Has(ps, "aliquota") && RunsOff(Value(ps, "aliquota"))
  }

  predicate SaleEscapes(ps: seq<Param>) {
    && Has(ps, "codigo") && Has(ps, "descricao") && Has(ps, "aliquota")
    && Has(ps, "quantidade") && Has(ps, "valor") && Has(ps, "desconto")
    && RunsOff(Value(ps, "aliquota"))
  }

  predicate ReadingEscapes(ps: seq<Param>) {
    && Has(ps, "tipo") && Has(ps, "data_inicio") && Has(ps, "data_fim") && Has(ps, "completa") && Has(ps, "saida")
    && IEquals(Value(ps, "tipo"), "data")
    && (|Value(ps, "data_inicio")| < 4 || |Value(ps, "data_fim")| < 4)
  }

  /** The requests that end the process. */
  predicate Escapes(req: Request) {
    || (req.id == "set_aliquota" && RateEscapes(req.params))
    || (req.id == "snd_vende_item" && SaleEscapes(req.params))
    || (req.id == "memoria_fiscal" && ReadingEscapes(req.params))
  }

  lemma NamesAreNotBlank()
    ensures Trim("aliquota") != "" && Trim("unidade") != "" && Trim("codigo") != "" && Trim("descricao") != ""
    ensures Trim("quantidade") != "" && Trim("valor") != "" && Trim("desconto") != ""
    ensures Trim("tipo") != "" && Trim("data_inicio") != "" && Trim("data_fim") != ""
    ensures Trim("completa") != "" && Trim("saida") != ""
  {
    var names := ["aliquota", "unidade", "codigo", "descricao", "quantidade", "valor", "desconto",
                  "tipo", "data_inicio", "data_fim", "completa", "saida"];
    forall i | 0 <= i < |names| ensures Trim(names[i]) != "" {
      FoldOfWord(names[i]);
    }
  }

  /** A parameter, as a command asks for it. */
  method Ask(name: string, pkt: Packet) returns (r: Option<string>)
    requires Trim(name) != ""
    modifies pkt`idx
    ensures r == if Has(pkt.params, name) then Some(Value(pkt.params, name)) else None
  {
    r := GetParamValueByName(name, pkt);
    hide Lookup;
  }

  /** What the constructor of a rate makes of a text. */
  method ParseRate(value: string) returns (v: Verdict)
    ensures v == Escaped <==> RunsOff(value)
  {
    RunsOffIff(value);
    var obj := new AliquotaObject();
    hide *;
    var error := obj.Parse(value);
    v := if error == NoError then Accepted else if error == OutOfRange then Escaped else Refused;
  }

  /** set_aliquota. */
  method SetAliquota(pkt: Packet) returns (v: Verdict)
    modifies pkt`idx
    ensures v == Escaped <==> RateEscapes(pkt.params)
  {
    NamesAreNotBlank();
    hide RunsOff;
    hide Has;
    hide Value;
    var value := Ask("aliquota", pkt);
    if value == None {
      return Refused;
    }
    v := ParseRate(value.value);
    if v == Accepted {
      var ok: bool := *;
      v := if ok then Accepted else Refused;
    }
  }

  /** snd_vende_item. */
  method VendeItem(pkt: Packet) returns (v: Verdict)
    modifies pkt`idx
    ensures v == Escaped <==> SaleEscapes(pkt.params)
  {
    NamesAreNotBlank();
    hide RunsOff;
    hide Has;
    hide Value;
    var unit := Ask("unidade", pkt);
    var code := Ask("codigo", pkt);
    if code == None { return Refused; }
    var descr := Ask("descricao", pkt);
    if descr == None { return Refused; }
    var rate := Ask("aliquota", pkt);
    if rate == None { return Refused; }
    var amount := Ask("quantidade", pkt);
    if amount == None { return Refused; }
    var price := Ask("valor", pkt);
    if price == None { return Refused; }
    var discount := Ask("desconto", pkt);
    if discount == None { return Refused; }
    v := ParseRate(rate.value);
    if v == Accepted {
      var ok: bool := *;
      v := if ok then Accepted else Refused;
    }
  }

  /** format_date: None for a text that is too short. */
  method FormatDate(date: string) returns (r: Option<string>)
    ensures r.Some? <==> |date| >= 4
    ensures r.Some? ==> r.value == date[..2] + "/" + date[2..4] + "/" + date[4..]
  {
    if |date| < 4 {
      return None;
    }
    var fmt := date[..2];
    fmt := fmt + "/";
    fmt := fmt + date[2..4];
    fmt := fmt + "/";
    fmt := fmt + date[4..];
    r := Some(fmt);
  }

  /** memoria_fiscal. */
  method MemoriaFiscal(pkt: Packet) returns (v: Verdict)
    modifies pkt`idx
    ensures v == Escaped <==> ReadingEscapes(pkt.params)
  {
    NamesAreNotBlank();
    hide Has;
    hide Value;
    hide IEquals;
    var tipo := Ask("tipo", pkt);
    if tipo == None { return Refused; }
    var first := Ask("data_inicio", pkt);
    if first == None { return Refused; }
    var last := Ask("data_fim", pkt);
    if last == None { return Refused; }
    var whole := Ask("completa", pkt);
    if whole == None { return Refused; }
    var output := Ask("saida", pkt);
    if output == None { return Refused; }
    if IEquals(tipo.value, "data") {
      var from := FormatDate(first.value);
      if from == None { return Escaped; }
      var to := FormatDate(last.value);
      if to == None { return Escaped; }
    }
    var ok: bool := *;
    v := if ok then Accepted else Refused;
  }
}
