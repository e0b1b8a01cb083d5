/** The cached table of tax rates (src/ecfbematech.cc, src/ecfbematechcv0909.cc):
    how it is split out of the printer's answers, searched, and made to grow by
    being looked at. Rates are in hundredths of a percent. */
module TaxTable {
  import opened Text

  datatype Aliquot = Aliquot(tipo: char, cst: nat, rate: nat)

  const ICMS := 'T'
  const ISS := 'S'

  // ------------------------------------------------------------- the buffers

  predicate IsDigit(c: char) {
    '0' <= c <= '9'
  }

  function DigitValue(c: char): (d: nat)
    requires IsDigit(c)
    ensures d < 10
  {
    c as int - '0' as int
  }

  /** atoi of a run of digits. */
  function Number(s: string): nat
    requires forall i :: 0 <= i < |s| ==> IsDigit(s[i])
  {
    if s == "" then 0 else 10 * Number(s[..|s| - 1]) + DigitValue(s[|s| - 1])
  }

  predicate IsNumber(s: string) {
    s != "" && forall i :: 0 <= i < |s| ==> IsDigit(s[i])
  }

  /** The fields of a comma-separated text; an empty text has one empty field. */
  function Fields(s: string): (fs: seq<string>)
    ensures fs != []
  {
    Pieces(s, ',')
  }

  function JoinFields(fs: seq<string>): string
    requires fs != []
  {
    if |fs| == 1 then fs[0] else fs[0] + "," + JoinFields(fs[1..])
  }

  /** Splitting undoes joining. */
  lemma {:induction false} FieldsOfJoin(fs: seq<string>)
    requires fs != [] && forall i :: 0 <= i < |fs| ==> ',' !in fs[i]
    ensures Fields(JoinFields(fs)) == fs
    decreases |fs|
  {
    if |fs| > 1 {
      FieldsOfJoin(fs[1..]);
      hide Pieces;
      PiecesCons(fs[0], ',', JoinFields(fs[1..]));
    } else {
      hide Pieces;
      PiecesCons(fs[0], ',', "");
    }
  }

  /** strncpy into the work buffer, which is not cleared every time. */
  function CopyInto(buf: string, src: string): (r: string)
    requires |src| <= |buf|
    ensures |r| == |buf|
  {
    src + buf[|src|..]
  }

  lemma {:induction false} CStrOfCopy(buf: string, src: string)
    requires |src| < |buf| && '\0' !in src && buf[|src|] == '\0'
    ensures CStr(CopyInto(buf, src)) == src
  {
    var c := CopyInto(buf, src);
    if src == "" {
      assert c[0] == '\0';
    } else {
      CStrOfCopy(buf[1..], src[1..]);
      assert c[1..] == CopyInto(buf[1..], src[1..]);
      assert c[0] == src[0];
    }
  }

  // ------------------------------------------------------ what they must hold

  /** An index of the printer's list of ISS rates: blank, or one or two digits
      whose slot is in the table. */
  predicate GoodIndex(f: string, offset: nat, size: nat) {
    f == "" || (IsNumber(f) && |f| <= 2 && Number(f) + offset < size)
  }

  predicate GoodRate(f: string) {
    |f| == 4 && IsNumber(f)
  }

  /** Slot x is on the ISS list. */
  predicate Marked(fs: seq<string>, offset: nat, x: nat) {
    exists k :: 0 <= k < |fs| && IsNumber(fs[k]) && Number(fs[k]) + offset == x
  }

  /** The table the two answers of the printer describe. */
  ghost predicate Describes(m: map<int, Aliquot>, iss: seq<string>, rates: seq<string>, offset: nat) {
    && (forall x :: x in m <==> 0 <= x < |rates|)
    && (forall x :: 0 <= x < |rates| && GoodRate(rates[x]) ==>
          m[x] == Aliquot(if Marked(iss, offset, x) then ISS else ICMS, 0, Number(rates[x])))
  }

  /** Keys run from 0 without a gap. */
  ghost predicate Contiguous(m: map<int, Aliquot>) {
    forall x :: x in m <==> 0 <= x < |m|
  }

  ghost predicate IcmsOrIss(m: map<int, Aliquot>) {
    forall x :: x in m ==> m[x].tipo == ICMS || m[x].tipo == ISS
  }

  // -------------------------------------------------------------- the loops

  ghost predicate FlagsShow(flags: seq<char>, fs: seq<string>, offset: nat) {
    forall x :: 0 <= x < |flags| ==> flags[x] == if Marked(fs, offset, x) then ISS else ICMS
  }

  predicate ShortInside(buf: string) {
    |buf| >= 16 && forall k :: 2 <= k < |buf| ==> buf[k] == '\0'
  }

  /** One index. */
  method MarkField(flag: array<char>, f: string, offset: nat, ghost fs: seq<string>, ghost n: nat)
    returns (buf: string)
    requires flag.Length >= 16
    requires n < |fs| && f == fs[n] && GoodIndex(f, offset, flag.Length) && FlagsShow(flag[..], fs[..n], offset)
    modifies flag
    ensures FlagsShow(flag[..], fs[..n + 1], offset) && ShortInside(buf)
  {
    var zeros := seq(flag.Length, _ => '\0');
    buf := CopyInto(zeros, f);
    CStrOfCopy(zeros, f);
    var one := Trim(CStr(buf));
    assert one == f by {
      hide CStr;
      if f != "" { assert IsDigit(f[0]) && IsDigit(f[|f| - 1]); }
      TrimFixesCore(f);
    }
    MarkedMore(fs, offset, n);
    hide Trim;
    hide CStr;
    hide Number;
    hide Marked;
    if one != "" {
      flag[Number(one) + offset] := ISS;
    }
  }

  /** Where a splitting loop stands: field n of fs begins at pv and no comma was
      met up to j. */
  ghost predicate Scanning(s: string, fs: seq<string>, pv: nat, j: nat, n: nat) {
    pv <= j <= |s| && ',' !in s[pv..j] && n < |fs| && fs[n..] == Fields(s[pv..])
  }

  lemma ScanStart(s: string)
    ensures Scanning(s, Fields(s), 0, 0, 0)
  {
    assert s[0..] == s && Fields(s)[0..] == Fields(s);
  }

  lemma ScanOn(s: string, fs: seq<string>, pv: nat, j: nat, n: nat)
    requires Scanning(s, fs, pv, j, n) && j < |s| && s[j] != ','
    ensures Scanning(s, fs, pv, j + 1, n)
  {
    assert s[pv..j + 1] == s[pv..j] + [s[j]];
  }

  lemma ScanField(s: string, fs: seq<string>, pv: nat, j: nat, n: nat)
    requires Scanning(s, fs, pv, j, n) && (j == |s| || s[j] == ',')
    ensures fs[n] == s[pv..j]
    ensures j < |s| ==> Scanning(s, fs, j + 1, j + 1, n + 1)
    ensures j == |s| ==> n + 1 == |fs|
  {
    FieldAt(s, pv, j);
    assert fs[n] == fs[n..][0] && fs[n + 1..] == fs[n..][1..];
  }

  /** The loop over the ISS indices. The work buffer ends with the last field. */
  method MarkIss(flag: array<char>, idxIss: string, offset: nat) returns (buf: string)
    requires flag.Length >= 16
    requires forall k :: 0 <= k < |Fields(idxIss)| ==> GoodIndex(Fields(idxIss)[k], offset, flag.Length)
    requires forall x :: 0 <= x < flag.Length ==> flag[x] == ICMS
    modifies flag
    ensures FlagsShow(flag[..], Fields(idxIss), offset) && ShortInside(buf)
  {
    buf := seq(flag.Length, _ => '\0');
    ghost var fs := Fields(idxIss);
    ghost var n := 0;
    var pv, j, t := 0, 0, |idxIss|;
    ScanStart(idxIss);
    assert FlagsShow(flag[..], fs[..0], offset);
    hide Fields;
    hide GoodIndex;
    hide FlagsShow;
    while j <= t
      invariant 0 <= pv <= j <= t + 1
      invariant if j <= t then Scanning(idxIss, fs, pv, j, n) else n == |fs|
      invariant ShortInside(buf)
      invariant n <= |fs| && FlagsShow(flag[..], fs[..n], offset)
    {
      buf := seq(flag.Length, _ => '\0');
      if j == t || idxIss[j] == ',' {
        ScanField(idxIss, fs, pv, j, n);
        hide Scanning;
        buf := MarkField(flag, idxIss[pv..j], offset, fs, n);
        pv := j + 1;
        n := n + 1;
      } else {
        ScanOn(idxIss, fs, pv, j, n);
      }
      j := j + 1;
    }
    assert fs[..n] == fs;
  }

  lemma FieldAt(s: string, pv: nat, j: nat)
    requires pv <= j <= |s| && ',' !in s[pv..j] && (j < |s| ==> s[j] == ',')
    ensures Fields(s[pv..]) == if j == |s| then [s[pv..j]] else [s[pv..j]] + Fields(s[j + 1..])
  {
    var r := s[pv..];
    assert r[..j - pv] == s[pv..j];
    hide Pieces;
    FirstPiece(r, ',', j - pv);
    if j < |s| {
      assert r[j - pv + 1..] == s[j + 1..];
    }
  }

  lemma MarkedMore(fs: seq<string>, offset: nat, n: nat)
    requires n < |fs|
    ensures forall x: nat :: Marked(fs[..n + 1], offset, x) <==>
      Marked(fs[..n], offset, x) || (IsNumber(fs[n]) && Number(fs[n]) + offset == x)
  {
    assert fs[..n + 1] == fs[..n] + [fs[n]];
    forall x: nat | Marked(fs[..n], offset, x) ensures Marked(fs[..n + 1], offset, x) {
      var k :| 0 <= k < n && IsNumber(fs[..n][k]) && Number(fs[..n][k]) + offset == x;
      assert fs[..n + 1][k] == fs[..n][k];
    }
  }

  /** atof of a text like 17.00, in hundredths. */
  function Hundredths(text: string): nat
    requires |text| == 5 && text[2] == '.' && IsNumber(text[..2]) && IsNumber(text[3..])
  {
    100 * Number(text[..2]) + Number(text[3..])
  }

  lemma RateAsNumber(f: string)
    requires GoodRate(f)
    ensures var text := f[..2] + "." + f[2..];
            && |text| == 5 && text[2] == '.' && text[..2] == f[..2] && text[3..] == f[2..]
            && Hundredths(text) == Number(f) < 10000
  {
    var text := f[..2] + "." + f[2..];
    assert text[..2] == f[..2] && text[3..] == f[2..];
    TwoDigits(f[..2]);
    TwoDigits(f[2..]);
    assert f[..3][..2] == f[..2] && f[..4] == f && f[..4][..3] == f[..3];
    assert Number(f[..3]) == 10 * Number(f[..2]) + DigitValue(f[2]);
    assert Number(f) == 10 * Number(f[..3]) + DigitValue(f[3]);
  }

  lemma TwoDigits(s: string)
    requires |s| == 2 && IsNumber(s)
    ensures Number(s) == 10 * DigitValue(s[0]) + DigitValue(s[1])
  {
    assert s[..1] == [s[0]] && s[..1][..0] == "";
    assert Number(s[..1]) == DigitValue(s[0]);
  }

  predicate ZeroFrom4(buf: string) {
    |buf| >= 16 && forall k :: 4 <= k < |buf| ==> buf[k] == '\0'
  }

  /** One rate. */
  method TakeRate(tipo: char, f: string, buf: string) returns (buf': string, obj: Aliquot)
    requires GoodRate(f) && ZeroFrom4(buf)
    ensures ZeroFrom4(buf') && obj == Aliquot(tipo, 0, Number(f))
  {
    buf' := CopyInto(buf, f);
    assert '\0' !in f;
    CStrOfCopy(buf, f);
    var fmt := CStr(buf');
    RateAsNumber(f);
    hide CStr;
    hide Number;
    var oneAliq := fmt[..2];
    oneAliq := oneAliq + ".";
    oneAliq := oneAliq + fmt[2..];
    obj := Aliquot(tipo, 0, Hundredths(oneAliq));
  }

  ghost predicate FirstEntries(m: map<int, Aliquot>, flags: seq<char>, rates: seq<string>, n: nat) {
    && n <= |rates| && n <= |flags|
    && (forall x :: x in m <==> 0 <= x < n)
    && (forall x :: 0 <= x < n && GoodRate(rates[x]) ==> m[x] == Aliquot(flags[x], 0, Number(rates[x])))
  }

  /** The loop over the rates, which goes on with the work buffer as the loop over
      the indices left it. */
  method LoadRates(flag: array<char>, retAliq: string, buft: string) returns (m: map<int, Aliquot>)
    requires |Fields(retAliq)| <= flag.Length && ShortInside(buft)
    requires forall k :: 0 <= k < |Fields(retAliq)| ==> GoodRate(Fields(retAliq)[k])
    ensures FirstEntries(m, flag[..], Fields(retAliq), |Fields(retAliq)|)
  {
    hide *;
    m := map[];
    var buf := buft;
    var x := 0;
    ghost var fs := Fields(retAliq);
    var pv, j, t := 0, 0, |retAliq|;
    ScanStart(retAliq);
    NoEntries(flag[..], fs, buf);
    while j <= t
      invariant 0 <= pv <= j <= t + 1
      invariant if j <= t then Scanning(retAliq, fs, pv, j, x) else x == |fs|
      invariant ZeroFrom4(buf)
      invariant x <= |fs| && FirstEntries(m, flag[..], fs, x)
    {
      if j == t || retAliq[j] == ',' {
        ScanField(retAliq, fs, pv, j, x);
        var obj;
        buf, obj := TakeRate(flag[x], retAliq[pv..j], buf);
        OneMoreEntry(m, flag[..], fs, x, obj);
        m := m[x := obj];
        pv := j + 1;
        x := x + 1;
      } else {
        ScanOn(retAliq, fs, pv, j, x);
      }
      j := j + 1;
    }
  }

  lemma NoEntries(flags: seq<char>, rates: seq<string>, buf: string)
    requires ShortInside(buf)
    ensures FirstEntries(map[], flags, rates, 0) && ZeroFrom4(buf)
  {
  }

  lemma OneMoreEntry(m: map<int, Aliquot>, flags: seq<char>, rates: seq<string>, n: nat, obj: Aliquot)
    requires FirstEntries(m, flags, rates, n) && n < |rates| && n < |flags| && GoodRate(rates[n])
    requires obj == Aliquot(flags[n], 0, Number(rates[n]))
    ensures FirstEntries(m[n := obj], flags, rates, n + 1)
  {
    hide Number;
    hide GoodRate;
  }

  // -------------------------------------------------------------- the cache

  /** The lookup's promise: one more than the greatest slot of that type and
      rate, or -1. */
  ghost predicate Greatest(m: map<int, Aliquot>, tipo: char, rate: nat, r: int) {
    && (r == -1 ==> forall x :: x in m ==> !(m[x].tipo == tipo && m[x].rate == rate))
    && (r != -1 ==>
          && r - 1 in m && m[r - 1].tipo == tipo && m[r - 1].rate == rate
          && forall x :: x in m && m[x].tipo == tipo && m[x].rate == rate ==> x <= r - 1)
  }

  class TaxCache {
    const offset: nat   // 0 in the base driver, 29 for 09/09 printers
    const size: nat     // 16 and 60
    const issList: string
    const rateList: string
    var aliqs: map<int, Aliquot>

    ghost predicate Valid()
      reads this
    {
      && Contiguous(aliqs) && IcmsOrIss(aliqs) && size >= 16
      && |Fields(rateList)| <= size
      && (forall k :: 0 <= k < |Fields(rateList)| ==> GoodRate(Fields(rateList)[k]))
      && (forall k :: 0 <= k < |Fields(issList)| ==> GoodIndex(Fields(issList)[k], offset, size))
    }

    constructor (offset: nat, size: nat, issList: string, rateList: string)
      requires 16 <= size && |Fields(rateList)| <= size
      requires forall k :: 0 <= k < |Fields(rateList)| ==> GoodRate(Fields(rateList)[k])
      requires forall k :: 0 <= k < |Fields(issList)| ==> GoodIndex(Fields(issList)[k], offset, size)
      ensures Valid() && aliqs == map[]
    {
      this.offset, this.size, this.issList, this.rateList := offset, size, issList, rateList;
      aliqs := map[];
    }

    /** Fills an empty cache from the printer. */
    method Load()
      requires Valid()
      modifies `aliqs
      ensures Valid() && aliqs != map[]
      ensures Describes(aliqs, Fields(issList), Fields(rateList), offset)
    {
      var flag := new char[size](_ => ICMS);
      var buft := MarkIss(flag, issList, offset);
      ghost var flags := flag[..];
      var m := LoadRates(flag, rateList, buft);
      TableDescribed(m, flags, Fields(issList), Fields(rateList), offset);
      hide Fields;
      hide GoodRate;
      hide GoodIndex;
      hide Marked;
      hide FirstEntries;
      hide FlagsShow;
      aliqs := m;
    }

    /** get_idx_aliquota. A failing printer leaves the cache alone. */
    method GetIdxAliquota(tipo: char, rate: nat) returns (ok: bool, r: int)
      requires Valid()
      modifies `aliqs
      ensures Valid()
      ensures aliqs == old(aliqs)
           || (old(aliqs) == map[] && Describes(aliqs, Fields(issList), Fields(rateList), offset))
      ensures !ok ==> aliqs == old(aliqs)
      ensures ok ==> aliqs != map[] && Greatest(aliqs, tipo, rate, r)
    {
      hide Describes;
      hide Fields;
      hide GoodRate;
      hide GoodIndex;
      ok, r := true, -1;
      if aliqs == map[] {
        ok := *;
        if !ok {
          return;
        }
        Load();
      }
      var idx := -1;
      var i := 0;
      while i < |aliqs|
        invariant 0 <= i <= |aliqs|
        invariant idx == -1 ==> forall x :: 0 <= x < i ==> !(aliqs[x].tipo == tipo && aliqs[x].rate == rate)
        invariant idx != -1 ==> 0 <= idx < i && aliqs[idx].tipo == tipo && aliqs[idx].rate == rate
        invariant idx != -1 ==> forall x :: 0 <= x < i && aliqs[x].tipo == tipo && aliqs[x].rate == rate ==> x <= idx
      {
        if aliqs[i].tipo == tipo && aliqs[i].rate == rate {
          idx := i;
        }
        i := i + 1;
      }
      r := if idx < 0 then idx else idx + 1;
    }

    /** aliq_is_icms: operator[] makes the entry just past the end when asked for
        it, an ICMS entry of 0%. */
    method AliqIsIcms(idx: nat) returns (found: bool)
      requires Valid()
      modifies `aliqs
      ensures Valid() && aliqs == Grown(old(aliqs), idx)
      ensures found <==> idx in aliqs && aliqs[idx].tipo == ICMS
    {
      found := Probe(idx, ICMS);
    }

    method AliqIsIss(idx: nat) returns (found: bool)
      requires Valid()
      modifies `aliqs
      ensures Valid() && aliqs == Grown(old(aliqs), idx)
      ensures found <==> idx in aliqs && aliqs[idx].tipo == ISS
    {
      found := Probe(idx, ISS);
    }

    method Probe(idx: nat, tipo: char) returns (found: bool)
      requires Valid()
      modifies `aliqs
      ensures Valid() && aliqs == Grown(old(aliqs), idx)
      ensures found <==> idx in aliqs && aliqs[idx].tipo == tipo
    {
      hide Fields;
      hide GoodRate;
      hide GoodIndex;
      found := false;
      if aliqs != map[] {
        if |aliqs| >= idx {
          if idx !in aliqs {
            aliqs := aliqs[idx := Aliquot(ICMS, 0, 0)];
          }
          found := aliqs[idx].tipo == tipo;
        }
      }
    }
  }

  /** The cache after entry idx was looked at. */
  function Grown(m: map<int, Aliquot>, idx: nat): map<int, Aliquot> {
    if m != map[] && |m| == idx && idx !in m then m[idx := Aliquot(ICMS, 0, 0)] else m
  }

  lemma TableDescribed(m: map<int, Aliquot>, flags: seq<char>, iss: seq<string>, rates: seq<string>, offset: nat)
    requires FirstEntries(m, flags, rates, |rates|) && FlagsShow(flags, iss, offset) && rates != []
    requires forall k :: 0 <= k < |rates| ==> GoodRate(rates[k])
    ensures Describes(m, iss, rates, offset) && Contiguous(m) && IcmsOrIss(m) && m != map[]
  {
    hide Number;
    hide GoodRate;
    hide Marked;
    KeysCount(m, |rates|);
    assert 0 in m;
  }

  lemma {:induction false} KeysCount(m: map<int, Aliquot>, n: nat)
    requires forall x :: x in m <==> 0 <= x < n
    ensures |m| == n
  {
    if n > 0 {
      var rest := map x | x in m && x != n - 1 :: m[x];
      KeysCount(rest, n - 1);
      assert m == rest[n - 1 := m[n - 1]];
    } else {
      assert m == map[];
    }
  }
}
