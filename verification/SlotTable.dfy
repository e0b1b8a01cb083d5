/** Tables of named slots in the printer and the cached list of their names
    (src/ecfbematech.cc, src/ecfbematechcv0909.cc). A free slot has the name "". */
module SlotTable {
  import opened Text

  function Available(): string { "<available>" }

  function Unavailable(): string { "<unavailable>" }

  /** Names longer than fifteen characters are cut. */
  function Cut(name: string): string {
    if |name| < 15 then name else name[..15]
  }

  /** What the cache shows of the slots. */
  function CacheOf(slots: seq<string>): (c: seq<string>)
    ensures |c| == |slots|
    ensures forall i :: 0 <= i < |slots| ==> c[i] == if slots[i] == "" then Available() else slots[i]
  {
    if slots == [] then []
    else CacheOf(slots[..|slots| - 1]) + [if slots[|slots| - 1] == "" then Available() else slots[|slots| - 1]]
  }

  /** A name a slot can be asked for: not blank and not one of the markers. */
  predicate Usable(name: string) {
    Fold(name) != "" && !IEquals(name, Available()) && !IEquals(name, Unavailable())
  }

  /** No two usable names are the same but for case and outer blanks. */
  ghost predicate Distinct(slots: seq<string>) {
    forall i, j :: 0 <= i < j < |slots| && Usable(slots[i]) ==> !IEquals(slots[i], slots[j])
  }

  /** Blank names are free slots, and nobody is called like the marker of one. */
  ghost predicate Proper(slots: seq<string>) {
    forall i :: 0 <= i < |slots| ==> Trim(slots[i]) == slots[i] && !IEquals(slots[i], Available())
  }

  ghost predicate IsAt(slots: seq<string>, key: string, i: int) {
    0 <= i < |slots| && IEquals(slots[i], key)
  }

  /** idx_element: the first match in the cache. */
  method IdxElement(item: string, vct: seq<string>) returns (idx: int)
    ensures idx == -1 ==> forall i :: 0 <= i < |vct| ==> !IEquals(vct[i], item)
    ensures idx != -1 ==> 0 <= idx < |vct| && IEquals(vct[idx], item)
    ensures forall i :: 0 <= i < idx ==> !IEquals(vct[i], item)
  {
    hide IEquals;
    idx := -1;
    var i := 0;
    while i < |vct|
      invariant 0 <= i <= |vct|
      invariant forall k :: 0 <= k < i ==> !IEquals(vct[k], item)
    {
      if IEquals(vct[i], item) {
        return i;
      }
      i := i + 1;
    }
  }

  /** The first slot marked as available. */
  method FirstAvailable(vct: seq<string>) returns (idx: int)
    ensures idx == -1 ==> Available() !in vct
    ensures idx != -1 ==> 0 <= idx < |vct| && vct[idx] == Available() && Available() !in vct[..idx]
  {
    idx := -1;
    var i := 0;
    while i < |vct|
      invariant 0 <= i <= |vct|
      invariant idx == -1 ==> Available() !in vct[..i]
      invariant idx != -1 ==> 0 <= idx < i && vct[idx] == Available() && Available() !in vct[..idx]
    {
      if idx < 0 {
        if vct[i] == Available() {
          idx := i;
        }
      }
      i := i + 1;
    }
  }

  lemma SameNameSameSlot(slots: seq<string>, key: string, i: nat, j: nat)
    requires Distinct(slots) && Usable(key) && IsAt(slots, key, i) && IsAt(slots, key, j)
    ensures i == j
  {
    IEqualsIsEquivalence(slots[i], key, slots[j]);
    IEqualsIsEquivalence(slots[j], key, slots[i]);
    IEqualsIsEquivalence(key, slots[i], key);
    IEqualsIsEquivalence(key, slots[j], key);
    UsableFolds(key, slots[i]);
    UsableFolds(key, slots[j]);
    hide IEquals;
    hide Usable;
    hide Fold;
  }

  lemma UsableFolds(a: string, b: string)
    requires IEquals(a, b)
    ensures Usable(a) <==> Usable(b)
  {
    IEqualsIsFoldEquality(a, b);
    IEqualsIsFoldEquality(a, Available());
    IEqualsIsFoldEquality(b, Available());
    IEqualsIsFoldEquality(a, Unavailable());
    IEqualsIsFoldEquality(b, Unavailable());
    hide IEquals;
    hide Fold;
  }

  /** The cache and the table hold a usable name in the same places. */
  lemma CacheHasSameNames(slots: seq<string>, key: string, i: int)
    requires Usable(key)
    ensures IsAt(CacheOf(slots), key, i) <==> IsAt(slots, key, i)
  {
    hide CacheOf;
    if 0 <= i < |slots| && slots[i] == "" {
      IEqualsIsEquivalence(key, Available(), key);
      IEqualsIsEquivalence(Available(), key, Available());
      BlankIsNobody(key);
      hide IEquals;
    }
  }

  lemma BlankIsNobody(key: string)
    requires Fold(key) != ""
    ensures !IEquals("", key) && !IEquals(key, "")
  {
    IEqualsIsFoldEquality("", key);
    IEqualsIsFoldEquality(key, "");
    assert Fold("") == "";
  }

  lemma Symmetric(a: string, b: string)
    ensures IEquals(a, b) <==> IEquals(b, a)
    ensures IEquals(a, a)
  {
    IEqualsIsEquivalence(a, b, a);
    IEqualsIsEquivalence(b, a, b);
    hide IEquals;
  }

  /** Nobody in the table has that name. */
  ghost predicate Absent(slots: seq<string>, name: string) {
    forall i :: 0 <= i < |slots| ==> !IEquals(slots[i], name)
  }

  /** Programming a free slot with a new usable name keeps the names distinct,
      and the name is then found there and nowhere else. */
  lemma ProgramKeepsDistinct(slots: seq<string>, free: nat, name: string)
    requires Distinct(slots) && Proper(slots) && free < |slots|
    requires Usable(name) && Trim(name) == name && Absent(slots, name)
    ensures var t := slots[free := name];
            && Distinct(t) && Proper(t)
            && forall i :: 0 <= i < |t| ==> (IEquals(t[i], name) <==> i == free)
  {
    hide Trim;
    hide Fold;
    var t := slots[free := name];
    Symmetric(name, name);
    assert Proper(t) by { hide IEquals; }
    hide Proper;
    hide IEquals;
    forall i, j | 0 <= i < j < |t| && Usable(t[i]) ensures !IEquals(t[i], t[j]) {
      Symmetric(t[i], t[j]);
    }
  }

  /** The least slot shown as available is the least free one. */
  lemma AvailableIsFree(slots: seq<string>, i: nat)
    requires Proper(slots) && i < |slots|
    ensures CacheOf(slots)[i] == Available() <==> slots[i] == ""
  {
    IEqualsIsEquivalence(Available(), Available(), Available());
    hide IEquals;
  }
}
