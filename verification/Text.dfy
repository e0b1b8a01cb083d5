/** String helpers shared by the whole spooler: trimming and case folding
    (src/utils.h), substring search, and the splitting of a text into lines. */
module Text {

  datatype Option<+T> = None | Some(value: T)

  // ---------------------------------------------------------------- trimming

  /** isspace in the "C" locale. */
  predicate IsSpace(c: char) {
    c == ' ' || '\t' <= c <= '\r'
  }

  predicate AllSpace(s: string) {
    forall i :: 0 <= i < |s| ==> IsSpace(s[i])
  }

  /** t is s without its outer blanks: only blanks are dropped, and none is
      left at either end. */
  ghost predicate IsCore(s: string, t: string) {
    (exists lead: string, tail: string :: s == lead + t + tail && AllSpace(lead) && AllSpace(tail))
    && (t != "" ==> !IsSpace(t[0]) && !IsSpace(t[|t| - 1]))
  }

  function LTrim(s: string): string {
    if s != "" && IsSpace(s[0]) then LTrim(s[1..]) else s
  }

  function RTrim(s: string): string {
    if s != "" && IsSpace(s[|s| - 1]) then RTrim(s[..|s| - 1]) else s
  }

  function Trim(s: string): string {
    LTrim(RTrim(s))
  }

  lemma {:induction false} LTrimDropsBlanks(s: string) returns (lead: string)
    ensures s == lead + LTrim(s) && AllSpace(lead)
    ensures LTrim(s) != "" ==> !IsSpace(LTrim(s)[0]) && LTrim(s)[|LTrim(s)| - 1] == s[|s| - 1]
  {
    if s != "" && IsSpace(s[0]) {
      lead := LTrimDropsBlanks(s[1..]);
      lead := [s[0]] + lead;
    } else {
      lead := "";
    }
  }

  lemma {:induction false} RTrimDropsBlanks(s: string) returns (tail: string)
    ensures s == RTrim(s) + tail && AllSpace(tail)
    ensures RTrim(s) != "" ==> !IsSpace(RTrim(s)[|RTrim(s)| - 1])
  {
    if s != "" && IsSpace(s[|s| - 1]) {
      tail := RTrimDropsBlanks(s[..|s| - 1]);
      tail := tail + [s[|s| - 1]];
    } else {
      tail := "";
    }
  }

  lemma {:induction false} TrimIsCore(s: string)
    ensures IsCore(s, Trim(s))
  {
    var tail := RTrimDropsBlanks(s);
    var lead := LTrimDropsBlanks(RTrim(s));
    assert s == lead + Trim(s) + tail;
  }

  /** The six characters that are dropped, by their codes. */
  predicate BlankCode(c: char) {
    c as int in {9, 10, 11, 12, 13, 32}
  }

  lemma TrimDropsBlanks(s: string) returns (lead: string, tail: string)
    ensures s == lead + Trim(s) + tail
    ensures (forall i :: 0 <= i < |lead| ==> BlankCode(lead[i])) && forall i :: 0 <= i < |tail| ==> BlankCode(tail[i])
    ensures var t := Trim(s); t != "" ==> !BlankCode(t[0]) && !BlankCode(t[|t| - 1])
  {
    TrimIsCore(s);
    lead, tail :| s == lead + Trim(s) + tail && AllSpace(lead) && AllSpace(tail);
    hide Trim;
  }

  lemma CoreSpan(s: string, t: string) returns (i: nat)
    requires IsCore(s, t)
    ensures i + |t| <= |s| && s[i..i + |t|] == t
    ensures forall j :: 0 <= j < i ==> IsSpace(s[j])
    ensures forall j :: i + |t| <= j < |s| ==> IsSpace(s[j])
    ensures t != "" ==> !IsSpace(s[i]) && !IsSpace(s[i + |t| - 1])
  {
    var lead: string, tail: string :| s == lead + t + tail && AllSpace(lead) && AllSpace(tail);
    i := |lead|;
    assert forall j :: i + |t| <= j < |s| ==> s[j] == tail[j - i - |t|];
  }

  /** A string has exactly one core, so IsCore defines Trim. */
  lemma CoreIsUnique(s: string, t: string)
    requires IsCore(s, t)
    ensures t == Trim(s)
  {
    TrimIsCore(s);
    var i := CoreSpan(s, t);
    var j := CoreSpan(s, Trim(s));
    assert |t| == |Trim(s)|;
    assert t != "" ==> i == j;
  }

  lemma TrimFixesCore(t: string)
    requires t != "" ==> !IsSpace(t[0]) && !IsSpace(t[|t| - 1])
    ensures Trim(t) == t
  {
    assert t == "" + t + "" && AllSpace("");
    CoreIsUnique(t, t);
  }

  lemma BlankIffTrimmedAway(s: string)
    ensures Trim(s) == "" <==> AllSpace(s)
  {
    if AllSpace(s) {
      assert s == "" + "" + s && AllSpace("");
      CoreIsUnique(s, "");
    } else {
      TrimIsCore(s);
      var i := CoreSpan(s, Trim(s));
    }
  }

  lemma TrimIdempotent(s: string)
    ensures Trim(Trim(s)) == Trim(s)
  {
    TrimIsCore(s);
    TrimFixesCore(Trim(s));
  }

  // ------------------------------------------------------------ case folding

  function ToUpper(c: char): char {
    if 'a' <= c <= 'z' then (c as int - 32) as char else c
  }

  function Upper(s: string): (r: string)
    ensures |r| == |s|
    ensures forall i :: 0 <= i < |s| ==> r[i] == ToUpper(s[i])
  {
    if s == "" then "" else [ToUpper(s[0])] + Upper(s[1..])
  }

  /** The form under which str_iequals compares two strings. */
  function Fold(s: string): string {
    Upper(Trim(s))
  }

  /** src/utils.h str_iequals, with its early exit. */
  predicate IEquals(a: string, b: string) {
    var c1, c2 := Upper(Trim(a)), Upper(Trim(b));
    if |c1| != |c2| && (|c1| == 0 || |c2| == 0) then false else c1 == c2
  }

  lemma IEqualsIsFoldEquality(a: string, b: string)
    ensures IEquals(a, b) <==> Fold(a) == Fold(b)
  {
  }

  /** The same character but for case. */
  predicate SameLetter(c: char, d: char) {
    || c == d
    || ('A' <= c <= 'Z' && d as int == c as int + 32)
    || ('A' <= d <= 'Z' && c as int == d as int + 32)
  }

  /** What equal names are: the same characters but for case, once the outer blanks
      are gone. */
  lemma SameButForCase(a: string, b: string)
    ensures IEquals(a, b) <==>
      |Trim(a)| == |Trim(b)| && forall i :: 0 <= i < |Trim(a)| ==> SameLetter(Trim(a)[i], Trim(b)[i])
  {
    var s, t := Trim(a), Trim(b);
    hide Trim;
    hide Upper;
    forall c: char, d: char ensures ToUpper(c) == ToUpper(d) <==> SameLetter(c, d) {
    }
    if |s| == |t| && forall i :: 0 <= i < |s| ==> SameLetter(s[i], t[i]) {
      assert Upper(s) == Upper(t);
    }
    if Upper(s) == Upper(t) {
      forall i | 0 <= i < |s| ensures SameLetter(s[i], t[i]) {
        assert Upper(s)[i] == Upper(t)[i];
      }
    }
    IEqualsIsFoldEquality(a, b);
  }

  lemma {:induction false} UpperIdempotent(s: string)
    ensures Upper(Upper(s)) == Upper(s)
  {
    if s != "" {
      UpperIdempotent(s[1..]);
      assert Upper(s)[1..] == Upper(s[1..]);
    }
  }

  lemma FoldIdempotent(a: string)
    ensures Fold(Fold(a)) == Fold(a)
    ensures Fold(Trim(a)) == Fold(a)
  {
    TrimIdempotent(a);
    TrimIsCore(a);
    TrimFixesCore(Fold(a));
    UpperIdempotent(Trim(a));
  }

  /** str_iequals is equality of folded strings, hence an equivalence relation,
      and neither trimming nor folding leaves a class. */
  lemma IEqualsIsEquivalence(a: string, b: string, c: string)
    ensures IEquals(a, b) <==> Fold(a) == Fold(b)
    ensures IEquals(a, a)
    ensures IEquals(a, b) ==> IEquals(b, a)
    ensures IEquals(a, b) && IEquals(b, c) ==> IEquals(a, c)
    ensures IEquals(Trim(a), a) && IEquals(Fold(a), a)
  {
    FoldIdempotent(a);
    IEqualsIsFoldEquality(Trim(a), a);
    IEqualsIsFoldEquality(Fold(a), a);
  }

  // The in-place forms of src/utils.h: a scan for the first (last) character
  // that is kept, then one erase.

  method LTrimInPlace(s: string) returns (r: string)
    ensures r == LTrim(s)
  {
    var i := 0;
    while i < |s| && IsSpace(s[i])
      invariant 0 <= i <= |s|
      invariant LTrim(s[i..]) == LTrim(s)
    {
      assert s[i..][1..] == s[i + 1..];
      i := i + 1;
    }
    r := s[i..];
  }

  method RTrimInPlace(s: string) returns (r: string)
    ensures r == RTrim(s)
  {
    var n := |s|;
    assert s[..n] == s;
    while n > 0 && IsSpace(s[n - 1])
      invariant 0 <= n <= |s|
      invariant RTrim(s[..n]) == RTrim(s)
    {
      assert s[..n][..n - 1] == s[..n - 1];
      n := n - 1;
    }
    r := s[..n];
  }

  // ----------------------------------------------------------------- search

  predicate OccursAt(s: string, pat: string, i: int) {
    0 <= i && i + |pat| <= |s| && s[i..i + |pat|] == pat
  }

  /** std::string::find; -1 stands for npos. */
  function Find(s: string, pat: string): (r: int)
    ensures -1 <= r <= |s|
    ensures r >= 0 ==> OccursAt(s, pat, r) && forall j :: 0 <= j < r ==> !OccursAt(s, pat, j)
    ensures r < 0 ==> forall j :: !OccursAt(s, pat, j)
  {
    FindFrom(s, pat, 0)
  }

  function FindFrom(s: string, pat: string, i: nat): (r: int)
    requires i <= |s|
    ensures r == -1 || i <= r <= |s|
    ensures r >= 0 ==> OccursAt(s, pat, r) && forall j :: i <= j < r ==> !OccursAt(s, pat, j)
    ensures r < 0 ==> forall j :: i <= j ==> !OccursAt(s, pat, j)
    decreases |s| - i
  {
    if OccursAt(s, pat, i) then i
    else if i == |s| then -1
    else FindFrom(s, pat, i + 1)
  }

  /** std::string::rfind. */
  function RFind(s: string, pat: string): (r: int)
    ensures -1 <= r <= |s|
    ensures r >= 0 ==> OccursAt(s, pat, r) && forall j :: r < j ==> !OccursAt(s, pat, j)
    ensures r < 0 ==> forall j :: !OccursAt(s, pat, j)
  {
    RFindFrom(s, pat, |s|)
  }

  function RFindFrom(s: string, pat: string, i: int): (r: int)
    requires -1 <= i <= |s|
    ensures -1 <= r <= i
    ensures r >= 0 ==> OccursAt(s, pat, r) && forall j :: r < j <= i ==> !OccursAt(s, pat, j)
    ensures r < 0 ==> forall j :: j <= i ==> !OccursAt(s, pat, j)
    decreases i + 1
  {
    if i < 0 then -1
    else if OccursAt(s, pat, i) then i
    else RFindFrom(s, pat, i - 1)
  }

  predicate Contains(s: string, pat: string) {
    Find(s, pat) >= 0
  }

  lemma ContainsChar(s: string, c: char)
    ensures Contains(s, [c]) <==> c in s
    ensures c in s ==> s[Find(s, [c])] == c && c !in s[..Find(s, [c])]
  {
    var k := Find(s, [c]);
    if c in s {
      var i :| 0 <= i < |s| && s[i] == c;
      assert OccursAt(s, [c], i);
      forall j | 0 <= j < k ensures s[j] != c { assert s[j..j + 1] == [s[j]] && !OccursAt(s, [c], j); }
    }
    if k >= 0 {
      assert s[k] == s[k..k + 1][0] == c;
    }
  }

  /** std::string::substr(n), for callers that know the string is long enough. */
  function Drop(s: string, n: nat): string {
    if n <= |s| then s[n..] else ""
  }

  /** What a C function sees of a string: everything before the first NUL. */
  function CStr(s: string): (t: string)
    ensures t <= s && '\0' !in t
    ensures |t| < |s| ==> s[|t|] == '\0'
  {
    if s == "" || s[0] == '\0' then "" else [s[0]] + CStr(s[1..])
  }

  // ----------------------------------------------------------------- pieces

  /** Offset of the first separator, or |s|. */
  function PieceEnd(s: string, sep: char): (k: nat)
    ensures k <= |s| && sep !in s[..k]
    ensures k < |s| ==> s[k] == sep
  {
    if s == "" || s[0] == sep then 0
    else
      assert s[..PieceEnd(s[1..], sep) + 1] == [s[0]] + s[1..][..PieceEnd(s[1..], sep)];
      PieceEnd(s[1..], sep) + 1
  }

  /** A text split at every separator; an empty text has one empty piece. */
  function Pieces(s: string, sep: char): (ps: seq<string>)
    ensures ps != []
    decreases |s|
  {
    var k := PieceEnd(s, sep);
    if k == |s| then [s] else [s[..k]] + Pieces(s[k + 1..], sep)
  }

  lemma PieceEndUnique(s: string, sep: char, k: nat)
    requires k <= |s| && sep !in s[..k] && (k < |s| ==> s[k] == sep)
    ensures PieceEnd(s, sep) == k
  {
    var e := PieceEnd(s, sep);
    assert forall i :: 0 <= i < k ==> s[i] == s[..k][i];
    assert forall i :: 0 <= i < e ==> s[i] == s[..e][i];
  }

  /** What the first separator of a text at k says about its pieces. */
  lemma FirstPiece(s: string, sep: char, k: nat)
    requires k <= |s| && sep !in s[..k] && (k < |s| ==> s[k] == sep)
    ensures Pieces(s, sep) == if k == |s| then [s[..k]] else [s[..k]] + Pieces(s[k + 1..], sep)
  {
    PieceEndUnique(s, sep, k);
    hide PieceEnd;
    assert k == |s| ==> s[..k] == s;
  }

  lemma PiecesCons(p: string, sep: char, rest: string)
    requires sep !in p
    ensures Pieces(p + [sep] + rest, sep) == [p] + Pieces(rest, sep)
    ensures Pieces(p, sep) == [p]
  {
    var s := p + [sep] + rest;
    assert s[..|p|] == p && p[..|p|] == p && s[|p| + 1..] == rest;
    hide Pieces;
    FirstPiece(s, sep, |p|);
    FirstPiece(p, sep, |p|);
  }

  // ------------------------------------------------------------------ lines

  /** The successive results of std::getline: every element but the last was
      closed by a newline; the last is what the read that hit end of file got. */
  function Lines(s: string): (ls: seq<string>)
    ensures ls != []
  {
    Pieces(s, '\n')
  }

  function Unlines(ls: seq<string>): string {
    if ls == [] then "" else ls[0] + "\n" + Unlines(ls[1..])
  }

  predicate NewlineFree(ls: seq<string>) {
    forall i :: 0 <= i < |ls| ==> '\n' !in ls[i]
  }

  lemma LinesCons(l: string, rest: string)
    requires '\n' !in l
    ensures Lines(l + "\n" + rest) == [l] + Lines(rest)
  {
    hide Pieces;
    PiecesCons(l, '\n', rest);
  }

  lemma UnlinesCons(l: string, ls: seq<string>, tail: string)
    ensures Unlines([l] + ls) + tail == l + "\n" + (Unlines(ls) + tail)
  {
    assert ([l] + ls)[1..] == ls;
  }

  lemma Associates<T>(a: seq<T>, b: seq<T>, c: seq<T>)
    ensures a + b + c == a + (b + c)
  {
  }

  lemma LinesOfUnlinesStep(l: string, ls: seq<string>, tail: string)
    requires '\n' !in l && Lines(Unlines(ls) + tail) == ls + Lines(tail)
    ensures Lines(Unlines([l] + ls) + tail) == [l] + ls + Lines(tail)
  {
    hide *;
    UnlinesCons(l, ls, tail);
    LinesCons(l, Unlines(ls) + tail);
    Associates([l], ls, Lines(tail));
  }

  /** Splitting undoes joining: the newline-free lines come back, followed by
      the lines of whatever text comes after them. */
  lemma {:induction false} LinesOfUnlines(ls: seq<string>, tail: string)
    requires NewlineFree(ls)
    ensures Lines(Unlines(ls) + tail) == ls + Lines(tail)
  {
    if ls == [] {
      assert Unlines(ls) + tail == tail;
    } else {
      LinesOfUnlines(ls[1..], tail);
      LinesOfUnlinesStep(ls[0], ls[1..], tail);
      assert ls == [ls[0]] + ls[1..];
    }
  }

  lemma {:induction false} PiecesAreFree(s: string, sep: char)
    ensures forall i :: 0 <= i < |Pieces(s, sep)| ==> sep !in Pieces(s, sep)[i]
    decreases |s|
  {
    var k := PieceEnd(s, sep);
    if k < |s| {
      PiecesAreFree(s[k + 1..], sep);
    } else {
      assert s[..k] == s;
    }
  }

  lemma LinesAreNewlineFree(s: string)
    ensures NewlineFree(Lines(s))
  {
    PiecesAreFree(s, '\n');
    hide Pieces;
  }

  lemma {:induction false} UnlinesInjective(a: seq<string>, b: seq<string>)
    requires NewlineFree(a) && NewlineFree(b) && Unlines(a) == Unlines(b)
    ensures a == b
  {
    LinesOfUnlines(a, "");
    LinesOfUnlines(b, "");
    assert a + Lines("") == b + Lines("");
    assert a == (a + Lines(""))[..|a|] && b == (b + Lines(""))[..|b|];
  }

  lemma UnlinesAppend(a: seq<string>, b: seq<string>)
    ensures Unlines(a + b) == Unlines(a) + Unlines(b)
  {
    if a == [] {
      assert a + b == b;
    } else {
      assert (a + b)[1..] == a[1..] + b;
      UnlinesAppend(a[1..], b);
      assert a[0] + "\n" + (Unlines(a[1..]) + Unlines(b)) == (a[0] + "\n" + Unlines(a[1..])) + Unlines(b);
    }
  }
}
