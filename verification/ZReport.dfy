/** The text of the last Z report (src/ecfbematech.cc, dados_ult_reducao): the
    sixteen partial totals are laid out twice, once for ICMS and once for ISS. */
module ZReport {
  import opened Text
  import opened TaxTable

  const SLOTS := 16

  /** The printer's answer, fields cut out. The order is that of the report. */
  datatype Reduction = Reduction(
    head: seq<string>,       // grand total, ICMS cancellations, ICMS discounts
    middle: seq<string>,     // eight ICMS and document fields
    issHead: seq<string>,    // ISS cancellations, ISS discounts
    tail: seq<string>,       // four ISS fields
    rates: string,           // sixteen rates of four characters
    totals: string           // sixteen totals of fourteen characters
  )

  predicate Plain(s: string) {
    '|' !in s
  }

  predicate WellFormed(z: Reduction) {
    && |z.head| == 3 && |z.middle| == 8 && |z.issHead| == 2 && |z.tail| == 4
    && (forall i :: 0 <= i < 3 ==> Plain(z.head[i])) && (forall i :: 0 <= i < 8 ==> Plain(z.middle[i]))
    && (forall i :: 0 <= i < 2 ==> Plain(z.issHead[i])) && (forall i :: 0 <= i < 4 ==> Plain(z.tail[i]))
    && |z.rates| == 4 * SLOTS && Plain(z.rates)
    && |z.totals| == 14 * SLOTS && (forall i :: 0 <= i < |z.totals| ==> IsDigit(z.totals[i]))
  }

  function Rate(z: Reduction, i: nat): string
    requires WellFormed(z) && i < SLOTS
  {
    z.rates[4 * i..4 * i + 4]
  }

  function Total(z: Reduction, i: nat): (t: string)
    requires WellFormed(z) && i < SLOTS
    ensures |t| == 14 && IsNumber(t)
  {
    z.totals[14 * i..14 * i + 14]
  }

  function ZeroRate(): string { "0000" }

  function ZeroTotal(): string { "00000000000000" }

  /** Fields, each closed by a bar. */
  function Barred(fs: seq<string>): string {
    if fs == [] then "" else Barred(fs[..|fs| - 1]) + fs[|fs| - 1] + "|"
  }

  /** The two fields of a slot in the block of one tax. */
  datatype Cell = Cell(rate: string, total: string)

  function CellOf(z: Reduction, mine: bool, i: nat): (c: Cell)
    requires WellFormed(z) && i < SLOTS
    ensures IsNumber(c.total)
  {
    ZeroIsZero();
    if mine then Cell(Rate(z, i), Total(z, i)) else Cell(ZeroRate(), ZeroTotal())
  }

  /** The block of one tax; mine tells which slots belong to it. */
  function Block(z: Reduction, mine: seq<bool>): (b: seq<Cell>)
    requires WellFormed(z) && |mine| == SLOTS
    ensures |b| == SLOTS && forall k :: 0 <= k < SLOTS ==> b[k] == CellOf(z, mine[k], k)
  {
    seq(SLOTS, i requires 0 <= i < SLOTS => CellOf(z, mine[i], i))
  }

  function Flat(cells: seq<Cell>): (fs: seq<string>)
    ensures |fs| == 2 * |cells|
  {
    if cells == [] then []
    else Flat(cells[..|cells| - 1]) + [cells[|cells| - 1].rate, cells[|cells| - 1].total]
  }

  /** The cache after the first n slots were looked at. */
  function GrownTo(m: map<int, Aliquot>, n: nat): map<int, Aliquot> {
    if n == 0 then m else Grown(GrownTo(m, n - 1), n - 1)
  }

  /** Which slots belong to a tax, once all sixteen have been looked at. */
  function Mine(m: map<int, Aliquot>, tipo: char): (b: seq<bool>)
    ensures |b| == SLOTS
    ensures forall i :: 0 <= i < SLOTS ==> b[i] == (i in m && m[i].tipo == tipo)
  {
    seq(SLOTS, i => i in m && m[i].tipo == tipo)
  }

  /** The fields of the report, for the table after the look. */
  function ReportFields(z: Reduction, m: map<int, Aliquot>): (fs: seq<string>)
    requires WellFormed(z)
    ensures |fs| == 82
  {
    z.head + Flat(Block(z, Mine(m, ICMS))) + Middle(z) + Flat(Block(z, Mine(m, ISS))) + z.tail
  }

  // --------------------------------------------------------- what growing does

  /** Looking at entry n - 1 after all those before it: an entry that is there
      stays, one that is missing becomes ICMS 0%. */
  lemma {:induction false} GrownKeys(m: map<int, Aliquot>, n: nat)
    requires Contiguous(m) && m != map[]
    ensures forall x :: x in GrownTo(m, n) <==> 0 <= x < if |m| < n then n else |m|
    ensures Contiguous(GrownTo(m, n)) && |GrownTo(m, n)| == if |m| < n then n else |m|
    ensures forall x :: x in m ==> GrownTo(m, n)[x] == m[x]
    ensures forall x :: x in GrownTo(m, n) && x !in m ==> GrownTo(m, n)[x] == Aliquot(ICMS, 0, 0)
  {
    if n > 0 {
      GrownKeys(m, n - 1);
      KeysCount(GrownTo(m, n), if |m| < n then n else |m|);
    }
  }

  /** A look never changes an answer given before. */
  lemma {:induction false} GrownStays(m: map<int, Aliquot>, i: nat, n: nat)
    requires Contiguous(m) && m != map[] && i <= n
    ensures forall x :: x in GrownTo(m, i) ==> x in GrownTo(m, n) && GrownTo(m, n)[x] == GrownTo(m, i)[x]
  {
    GrownKeys(m, i);
    GrownKeys(m, n);
  }

  /** Every slot belongs to exactly one of the two taxes. */
  lemma EachSlotInOneBlock(m: map<int, Aliquot>, i: nat)
    requires Contiguous(m) && m != map[] && IcmsOrIss(m) && i < SLOTS
    ensures var g := GrownTo(m, SLOTS); Mine(g, ICMS)[i] != Mine(g, ISS)[i]
  {
    GrownKeys(m, SLOTS);
    hide GrownTo;
  }

  /** Growing leaves the lookup of every rate alone, except that of ICMS 0%. */
  lemma GrowingKeepsLookups(m: map<int, Aliquot>, n: nat, tipo: char, rate: nat, r: int)
    requires Contiguous(m) && m != map[] && !(tipo == ICMS && rate == 0)
    ensures Greatest(m, tipo, rate, r) <==> Greatest(GrownTo(m, n), tipo, rate, r)
  {
    GrownKeys(m, n);
    hide GrownTo;
  }

  /** In a table with fewer than sixteen entries ICMS 0% is then found in the
      last slot. */
  lemma ZeroRateMoves(m: map<int, Aliquot>)
    requires Contiguous(m) && m != map[] && |m| < SLOTS
    ensures Greatest(GrownTo(m, SLOTS), ICMS, 0, SLOTS) && !Greatest(m, ICMS, 0, SLOTS)
  {
    GrownKeys(m, SLOTS);
    hide GrownTo;
  }

  lemma {:induction false} NothingToGrow(m: map<int, Aliquot>, n: nat)
    requires Contiguous(m) && n <= |m|
    ensures GrownTo(m, n) == m
  {
    if n > 0 {
      NothingToGrow(m, n - 1);
    }
  }

  /** The lookup of ICMS 0% stays what it was exactly if the table has sixteen
      entries at least. */
  lemma ZeroRateStaysIff(m: map<int, Aliquot>)
    requires Contiguous(m) && m != map[]
    ensures (forall r :: Greatest(m, ICMS, 0, r) <==> Greatest(GrownTo(m, SLOTS), ICMS, 0, r)) <==> |m| >= SLOTS
  {
    GrownKeys(m, SLOTS);
    hide GrownTo;
    if |m| >= SLOTS {
      NothingToGrow(m, SLOTS);
    } else {
      ZeroRateMoves(m);
      hide Greatest;
    }
  }

  // ------------------------------------------------------- totals are conserved

  function Sum(z: Reduction, n: nat): nat
    requires WellFormed(z) && n <= SLOTS
  {
    if n == 0 then 0 else Sum(z, n - 1) + Number(Total(z, n - 1))
  }

  /** The sum of the first n totals of a block. */
  function BlockSum(b: seq<Cell>, n: nat): nat
    requires n <= |b| && forall k :: 0 <= k < n ==> IsNumber(b[k].total)
  {
    if n == 0 then 0
    else
      assert IsNumber(b[n - 1].total);
      BlockSum(b, n - 1) + Number(b[n - 1].total)
  }

  lemma ZeroIsZero()
    ensures IsNumber(ZeroTotal()) && Number(ZeroTotal()) == 0
  {
    ZerosAreZero(ZeroTotal());
  }

  lemma {:induction false} ZerosAreZero(s: string)
    requires forall i :: 0 <= i < |s| ==> s[i] == '0'
    ensures (forall i :: 0 <= i < |s| ==> IsDigit(s[i])) && Number(s) == 0
  {
    if s != "" {
      ZerosAreZero(s[..|s| - 1]);
    }
  }

  lemma {:induction false} SumsAgree(z: Reduction, icms: seq<bool>, iss: seq<bool>, n: nat)
    requires WellFormed(z) && n <= SLOTS && |icms| == |iss| == SLOTS
    requires forall k :: 0 <= k < n ==> icms[k] != iss[k]
    ensures BlockSum(Block(z, icms), n) + BlockSum(Block(z, iss), n) == Sum(z, n)
  {
    if n > 0 {
      SumsAgree(z, icms, iss, n - 1);
      ZeroIsZero();
      hide Number;
      hide WellFormed;
      hide Block;
    }
  }

  /** Each partial total stands in exactly one of the blocks and zeros in the
      other, so that the blocks add up to the totals of the printer. */
  lemma BlocksConserveTotals(z: Reduction, m: map<int, Aliquot>)
    requires WellFormed(z) && Contiguous(m) && m != map[] && IcmsOrIss(m)
    ensures var g := GrownTo(m, SLOTS);
      var a, b := Block(z, Mine(g, ICMS)), Block(z, Mine(g, ISS));
      && (forall k :: 0 <= k < SLOTS ==>
            || (a[k] == Cell(Rate(z, k), Total(z, k)) && b[k] == Cell(ZeroRate(), ZeroTotal()))
            || (b[k] == Cell(Rate(z, k), Total(z, k)) && a[k] == Cell(ZeroRate(), ZeroTotal())))
      && BlockSum(a, SLOTS) + BlockSum(b, SLOTS) == Sum(z, SLOTS)
  {
    var g := GrownTo(m, SLOTS);
    var icms, iss := Mine(g, ICMS), Mine(g, ISS);
    hide GrownTo;
    hide Mine;
    hide Rate;
    hide Total;
    forall k: nat | k < SLOTS ensures icms[k] != iss[k] { EachSlotInOneBlock(m, k); }
    hide Contiguous;
    SumsAgree(z, icms, iss, SLOTS);
    hide Sum;
    hide BlockSum;
    hide WellFormed;
  }

  lemma {:induction false} NothingSums(z: Reduction, none: seq<bool>, n: nat)
    requires WellFormed(z) && n <= SLOTS && |none| == SLOTS && forall k :: 0 <= k < SLOTS ==> !none[k]
    ensures BlockSum(Block(z, none), n) == 0
  {
    if n > 0 {
      NothingSums(z, none, n - 1);
      ZeroIsZero();
      hide Number;
      hide WellFormed;
      hide Block;
    }
  }

  /** For any table: the two blocks add up to the sixteen totals exactly if the
      cache was not empty or there was nothing to add up. */
  lemma BlocksConserveTotalsIff(z: Reduction, m: map<int, Aliquot>)
    requires WellFormed(z) && Contiguous(m) && IcmsOrIss(m)
    ensures var g := LookedAt(m);
      BlockSum(Block(z, Mine(g, ICMS)), SLOTS) + BlockSum(Block(z, Mine(g, ISS)), SLOTS) == Sum(z, SLOTS)
      <==> m != map[] || Sum(z, SLOTS) == 0
  {
    if m == map[] {
      var icms, iss := Mine(LookedAt(m), ICMS), Mine(LookedAt(m), ISS);
      hide LookedAt;
      hide WellFormed;
      hide Sum;
      hide Block;
      hide BlockSum;
      EmptyStaysEmpty(0);
      NothingSums(z, icms, SLOTS);
      NothingSums(z, iss, SLOTS);
    } else {
      assert LookedAt(m) == GrownTo(m, SLOTS);
      hide *;
      BlocksConserveTotals(z, m);
    }
  }

  // --------------------------------------------------------------- separators

  function Bars(s: string): nat {
    multiset(s)['|']
  }

  lemma {:induction false} OneBarEach(fs: seq<string>)
    requires forall i :: 0 <= i < |fs| ==> Plain(fs[i])
    ensures Bars(Barred(fs)) == |fs|
  {
    if fs != [] {
      OneBarEach(fs[..|fs| - 1]);
      assert Barred(fs) == Barred(fs[..|fs| - 1]) + fs[|fs| - 1] + "|";
    }
  }

  lemma {:induction false} FlatIsPlain(cells: seq<Cell>)
    requires forall k :: 0 <= k < |cells| ==> Plain(cells[k].rate) && Plain(cells[k].total)
    ensures forall k :: 0 <= k < |Flat(cells)| ==> Plain(Flat(cells)[k])
  {
    if cells != [] {
      FlatIsPlain(cells[..|cells| - 1]);
    }
  }

  lemma CellIsPlain(z: Reduction, mine: bool, i: nat)
    requires WellFormed(z) && i < SLOTS
    ensures Plain(CellOf(z, mine, i).rate) && Plain(CellOf(z, mine, i).total)
  {
  }

  /** The report always has 83 separators. */
  lemma ReportHas83Bars(z: Reduction, m: map<int, Aliquot>)
    requires WellFormed(z)
    ensures Bars("|" + Barred(ReportFields(z, m))) == 83
  {
    FieldsArePlain(z, m);
    var fs := ReportFields(z, m);
    hide ReportFields;
    OneBarEach(fs);
  }

  // ------------------------------------------------------------- the method

  lemma BarredAppend(fs: seq<string>, f: string)
    ensures Barred(fs + [f]) == Barred(fs) + f + "|"
  {
    assert (fs + [f])[..|fs|] == fs;
  }

  lemma FlatStep(cells: seq<Cell>, i: nat, fs: seq<string>)
    requires i < |cells|
    ensures Barred(fs + Flat(cells[..i + 1]))
         == Barred(fs + Flat(cells[..i])) + cells[i].rate + "|" + cells[i].total + "|"
  {
    assert cells[..i + 1][..i] == cells[..i];
    var a := fs + Flat(cells[..i]);
    BarredAppend(a, cells[i].rate);
    BarredAppend(a + [cells[i].rate], cells[i].total);
    assert fs + Flat(cells[..i + 1]) == a + [cells[i].rate] + [cells[i].total];
  }

  lemma {:induction false} NothingGrows(n: nat)
    ensures GrownTo(map[], n) == map[]
  {
    if n > 0 {
      NothingGrows(n - 1);
    }
  }

  /** Looking at slot i, for the first or the second time, shows what it will
      show in the end. */
  lemma SlotKind(m: map<int, Aliquot>, now: map<int, Aliquot>, i: nat)
    requires Contiguous(m) && i < SLOTS && (now == LookedAt(m) || now == GrownTo(m, i))
    ensures Grown(now, i) == LookedAt(m) || Grown(now, i) == GrownTo(m, i + 1)
    ensures i in Grown(now, i) <==> i in LookedAt(m)
    ensures i in Grown(now, i) ==> Grown(now, i)[i] == LookedAt(m)[i]
  {
    hide *;
    if m == map[] {
      NothingGrows(i);
      NothingGrows(i + 1);
      EmptyStaysEmpty(i);
    } else {
      FirstLook(m, i);
      SecondLook(m, i);
    }
  }

  lemma EmptyStaysEmpty(i: nat)
    ensures LookedAt(map[]) == map[] && Grown(map[], i) == map[]
  {
    NothingGrows(SLOTS);
  }

  lemma FirstLook(m: map<int, Aliquot>, i: nat)
    requires Contiguous(m) && m != map[] && i < SLOTS
    ensures var g := Grown(GrownTo(m, i), i);
            g == GrownTo(m, i + 1) && i in g && i in LookedAt(m) && g[i] == LookedAt(m)[i]
  {
    GrownKeys(m, i + 1);
    GrownStays(m, i + 1, SLOTS);
    assert GrownTo(m, i + 1) == Grown(GrownTo(m, i), i);
    assert LookedAt(m) == GrownTo(m, SLOTS);
    hide *;
  }

  lemma SecondLook(m: map<int, Aliquot>, i: nat)
    requires Contiguous(m) && m != map[] && i < SLOTS
    ensures i in LookedAt(m) && Grown(LookedAt(m), i) == LookedAt(m)
  {
    GrownKeys(m, SLOTS);
    hide GrownTo;
    hide Contiguous;
  }

  /** One slot of a block. */
  method AddCell(cache: TaxCache, z: Reduction, tipo: char, i: nat, dados: string, ghost m: map<int, Aliquot>)
    returns (out: string)
    requires cache.Valid() && WellFormed(z) && i < SLOTS && (tipo == ICMS || tipo == ISS)
    requires Contiguous(m) && (cache.aliqs == LookedAt(m) || cache.aliqs == GrownTo(m, i))
    modifies cache`aliqs
    ensures cache.Valid() && (cache.aliqs == LookedAt(m) || cache.aliqs == GrownTo(m, i + 1))
    ensures var c := CellOf(z, Mine(LookedAt(m), tipo)[i], i); out == dados + c.rate + "|" + c.total + "|"
  {
    var mine;
    SlotKind(m, cache.aliqs, i);
    hide WellFormed;
    hide LookedAt;
    hide GrownTo;
    hide Rate;
    hide Total;
    hide Contiguous;
    hide ZeroRate;
    hide ZeroTotal;
    if tipo == ICMS {
      mine := cache.AliqIsIcms(i);
    } else {
      mine := cache.AliqIsIss(i);
    }
    out := dados;
    if mine {
      out := out + Rate(z, i);
      out := out + "|";
      out := out + Total(z, i);
      out := out + "|";
    } else {
      out := out + ZeroRate();
      out := out + "|";
      out := out + ZeroTotal();
      out := out + "|";
    }
  }

  /** One block: every slot is looked at, which may make the cache grow. */
  method AddBlock(cache: TaxCache, z: Reduction, tipo: char, dados: string,
                  ghost fs: seq<string>, ghost m: map<int, Aliquot>)
    returns (out: string)
    requires cache.Valid() && WellFormed(z) && dados == "|" + Barred(fs) && (tipo == ICMS || tipo == ISS)
    requires Contiguous(m) && (cache.aliqs == m || cache.aliqs == LookedAt(m))
    modifies cache`aliqs
    ensures cache.Valid() && cache.aliqs == LookedAt(m)
    ensures out == "|" + Barred(fs + Flat(Block(z, Mine(LookedAt(m), tipo))))
  {
    hide *;
    ghost var cells := Block(z, Mine(LookedAt(m), tipo));
    AddBlockEnds(m, cells, fs);
    out := dados;
    var i := 0;
    while i < SLOTS
      invariant 0 <= i <= SLOTS && cache.Valid()
      invariant cache.aliqs == LookedAt(m) || cache.aliqs == GrownTo(m, i)
      invariant out == "|" + Barred(fs + Flat(cells[..i]))
    {
      FlatStep(cells, i, fs);
      out := AddCell(cache, z, tipo, i, out, m);
      i := i + 1;
    }
  }

  lemma AddBlockEnds(m: map<int, Aliquot>, cells: seq<Cell>, fs: seq<string>)
    requires |cells| == SLOTS
    ensures GrownTo(m, 0) == m && GrownTo(m, SLOTS) == LookedAt(m)
    ensures Barred(fs + Flat(cells[..0])) == Barred(fs) && cells[..SLOTS] == cells
  {
    assert fs + Flat(cells[..0]) == fs;
    NothingGrows(SLOTS);
  }

  /** Single fields. */
  method AddFields(more: seq<string>, dados: string, ghost fs: seq<string>) returns (out: string)
    requires dados == "|" + Barred(fs)
    ensures out == "|" + Barred(fs + more)
  {
    out := dados;
    var i := 0;
    assert fs + more[..0] == fs;
    while i < |more|
      invariant 0 <= i <= |more| && out == "|" + Barred(fs + more[..i])
    {
      BarredAppend(fs + more[..i], more[i]);
      assert fs + more[..i + 1] == fs + more[..i] + [more[i]];
      hide Barred;
      out := out + more[i];
      out := out + "|";
      i := i + 1;
    }
    assert more[..i] == more;
  }

  /** dados_ult_reducao, from the printer's answer on. */
  method DadosUltReducao(cache: TaxCache, z: Reduction) returns (dados: string)
    requires cache.Valid() && WellFormed(z)
    modifies cache`aliqs
    ensures cache.Valid() && cache.aliqs == LookedAt(old(cache.aliqs))
    ensures dados == "|" + Barred(ReportFields(z, cache.aliqs))
    ensures Shows(Pieces(dados, '|'), z, cache.aliqs)
  {
    hide *;
    ghost var m := cache.aliqs;
    CacheIsContiguous(cache);
    ghost var f1 := z.head + Flat(Block(z, Mine(LookedAt(m), ICMS)));
    ghost var f2 := f1 + Middle(z);
    ghost var f3 := f2 + Flat(Block(z, Mine(LookedAt(m), ISS)));
    ReportLayout(z, LookedAt(m), f1, f2, f3);
    dados := AddFields(z.head, "|", []);
    dados := AddBlock(cache, z, ICMS, dados, z.head, m);
    dados := AddFields(Middle(z), dados, f1);
    dados := AddBlock(cache, z, ISS, dados, f2, m);
    dados := AddFields(z.tail, dados, f3);
    ReportShows(z, LookedAt(m));
  }

  // ------------------------------------------------------- the text, cut at bars

  /** The two pieces of slot k in the block that begins at base: the characters of
      the printer's answer if the slot is of that tax, and zeros otherwise. */
  predicate SlotShown(ps: seq<string>, z: Reduction, m: map<int, Aliquot>, tipo: char, base: nat, k: nat)
    requires base + 2 * k + 1 < |ps| && |z.rates| == 64 && |z.totals| == 224 && k < 16
  {
    if k in m && m[k].tipo == tipo then
      ps[base + 2 * k] == z.rates[4 * k..4 * k + 4] && ps[base + 2 * k + 1] == z.totals[14 * k..14 * k + 14]
    else ps[base + 2 * k] == "0000" && ps[base + 2 * k + 1] == "00000000000000"
  }

  /** What stands between the bars of the report. */
  predicate Shows(ps: seq<string>, z: Reduction, m: map<int, Aliquot>)
    requires WellFormed(z)
  {
    && |ps| == 84 && ps[0] == "" && ps[1..4] == z.head
    && (forall k :: 0 <= k < 16 ==> SlotShown(ps, z, m, 'T', 4, k))
    && ps[36..44] == z.middle && ps[44] == "00000000000000" && ps[45..47] == z.issHead
    && (forall k :: 0 <= k < 16 ==> SlotShown(ps, z, m, 'S', 47, k))
    && ps[79..83] == z.tail && ps[83] == ""
  }

  lemma BarredParts(fs: seq<string>, tail: string)
    requires fs != []
    ensures var n := |fs| - 1; Barred(fs) + tail == Barred(fs[..n]) + (fs[n] + ['|'] + tail)
  {
    var n := |fs| - 1;
    var a, f := Barred(fs[..n]), fs[n];
    Regroup(a, f, tail);
  }

  lemma Regroup(a: string, f: string, tail: string)
    ensures a + f + "|" + tail == a + (f + ['|'] + tail)
  {
  }

  lemma {:induction false} PiecesOfBarred(fs: seq<string>, tail: string)
    requires forall i :: 0 <= i < |fs| ==> '|' !in fs[i]
    ensures Pieces(Barred(fs) + tail, '|') == fs + Pieces(tail, '|')
    decreases |fs|
  {
    if fs == [] {
      assert Barred(fs) + tail == tail;
    } else {
      hide *;
      var before, f := fs[..|fs| - 1], fs[|fs| - 1];
      PiecesOfBarred(before, f + ['|'] + tail);
      PiecesCons(f, '|', tail);
      BarredParts(fs, tail);
      Associates(before, [f], Pieces(tail, '|'));
      assert fs == before + [f];
    }
  }

  lemma OpeningBar(text: string)
    ensures "" + ['|'] + text == "|" + text && text + "" == text
  {
  }

  lemma PiecesOfReport(fs: seq<string>)
    requires forall i :: 0 <= i < |fs| ==> '|' !in fs[i]
    ensures Pieces("|" + Barred(fs), '|') == [""] + fs + [""]
  {
    hide *;
    PiecesOfBarred(fs, "");
    PiecesCons("", '|', Barred(fs));
    PiecesCons("", '|', "");
    OpeningBar(Barred(fs));
    OpeningBar("");
    Associates([""], fs, [""]);
  }

  lemma {:induction false} FlatAt(cells: seq<Cell>, k: nat)
    requires k < |cells|
    ensures Flat(cells)[2 * k] == cells[k].rate && Flat(cells)[2 * k + 1] == cells[k].total
    decreases |cells|
  {
    var n := |cells| - 1;
    if k < n {
      FlatAt(cells[..n], k);
      assert cells[..n][k] == cells[k];
    }
  }

  lemma FieldsArePlain(z: Reduction, m: map<int, Aliquot>)
    requires WellFormed(z)
    ensures forall i :: 0 <= i < |ReportFields(z, m)| ==> Plain(ReportFields(z, m)[i])
  {
    forall mine: bool, k: nat | k < SLOTS
      ensures Plain(CellOf(z, mine, k).rate) && Plain(CellOf(z, mine, k).total)
    {
      CellIsPlain(z, mine, k);
    }
    hide CellOf;
    hide Mine;
    FlatIsPlain(Block(z, Mine(m, ICMS)));
    FlatIsPlain(Block(z, Mine(m, ISS)));
    hide Block;
    hide Flat;
  }

  lemma PartsOfReport(z: Reduction, m: map<int, Aliquot>, ps: seq<string>)
    requires WellFormed(z) && ps == [""] + ReportFields(z, m) + [""]
    ensures |ps| == 84 && ps[0] == "" && ps[1..4] == z.head && ps[4..36] == Flat(Block(z, Mine(m, ICMS)))
    ensures ps[36..44] == z.middle && ps[44] == "00000000000000" && ps[45..47] == z.issHead
    ensures ps[47..79] == Flat(Block(z, Mine(m, ISS))) && ps[79..83] == z.tail && ps[83] == ""
  {
    hide Flat;
    hide Block;
    hide Mine;
  }

  lemma BlockShown(z: Reduction, m: map<int, Aliquot>, ps: seq<string>, tipo: char, base: nat, k: nat)
    requires WellFormed(z) && base + 32 <= |ps| && ps[base..base + 32] == Flat(Block(z, Mine(m, tipo))) && k < 16
    ensures SlotShown(ps, z, m, tipo, base, k)
  {
    var cells := Block(z, Mine(m, tipo));
    FlatAt(cells, k);
    hide Flat;
    assert ps[base + 2 * k] == ps[base..base + 32][2 * k] && ps[base + 2 * k + 1] == ps[base..base + 32][2 * k + 1];
  }

  lemma ReportShows(z: Reduction, m: map<int, Aliquot>)
    requires WellFormed(z)
    ensures Shows(Pieces("|" + Barred(ReportFields(z, m)), '|'), z, m)
  {
    var fs := ReportFields(z, m);
    var ps := [""] + fs + [""];
    FieldsArePlain(z, m);
    PlainIs();
    WidthsOf(z);
    hide *;
    PiecesOfReport(fs);
    PartsOfReport(z, m, ps);
    forall k | 0 <= k < 16 ensures SlotShown(ps, z, m, 'T', 4, k) && SlotShown(ps, z, m, 'S', 47, k) {
      BlockShown(z, m, ps, 'T', 4, k);
      BlockShown(z, m, ps, 'S', 47, k);
    }
    ShowsIs(ps, z, m);
  }

  lemma PlainIs()
    ensures forall s :: Plain(s) <==> '|' !in s
  {
  }

  lemma WidthsOf(z: Reduction)
    requires WellFormed(z)
    ensures |z.rates| == 64 && |z.totals| == 224
  {
  }

  lemma ShowsIs(ps: seq<string>, z: Reduction, m: map<int, Aliquot>)
    requires WellFormed(z) && |ps| == 84
    requires |z.rates| == 64 && |z.totals| == 224
    ensures Shows(ps, z, m) <==>
      && ps[0] == "" && ps[1..4] == z.head
      && (forall k :: 0 <= k < 16 ==> SlotShown(ps, z, m, 'T', 4, k))
      && ps[36..44] == z.middle && ps[44] == "00000000000000" && ps[45..47] == z.issHead
      && (forall k :: 0 <= k < 16 ==> SlotShown(ps, z, m, 'S', 47, k))
      && ps[79..83] == z.tail && ps[83] == ""
  {
    hide SlotShown;
  }

  /** The fields between the two blocks; the zeros stand for a tax that exists no
      more. */
  function Middle(z: Reduction): seq<string> {
    z.middle + [ZeroTotal()] + z.issHead
  }

  lemma CacheIsContiguous(cache: TaxCache)
    requires cache.Valid()
    ensures Contiguous(cache.aliqs)
  {
  }

  lemma ReportLayout(z: Reduction, m: map<int, Aliquot>, f1: seq<string>, f2: seq<string>, f3: seq<string>)
    requires WellFormed(z)
    requires f1 == z.head + Flat(Block(z, Mine(m, ICMS))) && f2 == f1 + Middle(z)
    requires f3 == f2 + Flat(Block(z, Mine(m, ISS)))
    ensures ReportFields(z, m) == f3 + z.tail
    ensures "|" == "|" + Barred([]) && [] + z.head == z.head
  {
    hide WellFormed;
    hide Mine;
    hide Block;
    hide Flat;
    hide ZeroTotal;
    assert "|" + "" == "|";
  }

  /** The cache once all slots were looked at. */
  ghost function LookedAt(m: map<int, Aliquot>): map<int, Aliquot> {
    if m == map[] then map[] else GrownTo(m, SLOTS)
  }
}
