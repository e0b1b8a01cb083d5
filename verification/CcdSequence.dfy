/** Which payments get a linked receipt, and in which order the driver hands out
    their sequence numbers (src/ecfbematechcv0909.cc, get_next_pgto_ccd). */
module CcdSequence {

  /** The least linked position from i on, or -1. */
  function NextFrom(flags: seq<bool>, i: nat): int
    decreases |flags| - i
  {
    if i >= |flags| then -1 else if flags[i] then i else NextFrom(flags, i + 1)
  }

  /** The sequence field after a request. An empty list stands for a spooler that
      was restarted: the first payment is tried. */
  function Next(flags: seq<bool>, at: int): int
    requires at >= -1
  {
    if flags == [] then 0 else NextFrom(flags, at + 1)
  }

  /** The linked positions from i on. */
  function LinkedFrom(flags: seq<bool>, i: nat): seq<nat>
    decreases |flags| - i
  {
    if i >= |flags| then [] else if flags[i] then [i] + LinkedFrom(flags, i + 1) else LinkedFrom(flags, i + 1)
  }

  function Linked(flags: seq<bool>): seq<nat> {
    LinkedFrom(flags, 0)
  }

  /** The sequence field after n requests since the last totalisation. */
  function After(flags: seq<bool>, n: nat): (r: int)
    ensures r >= -1
  {
    if n == 0 then -1
    else
      NextIsValid(flags, After(flags, n - 1));
      Next(flags, After(flags, n - 1))
  }

  lemma {:induction false} NextIsValid(flags: seq<bool>, at: int)
    requires at >= -1
    ensures Next(flags, at) >= -1
    ensures flags != [] && Next(flags, at) != -1 ==>
      at < Next(flags, at) < |flags| && flags[Next(flags, at)]
  {
    if flags != [] {
      NextIsFirst(flags, at + 1);
    }
  }

  lemma {:induction false} NextIsFirst(flags: seq<bool>, i: nat)
    ensures NextFrom(flags, i) == if LinkedFrom(flags, i) == [] then -1 else LinkedFrom(flags, i)[0]
    ensures NextFrom(flags, i) >= -1
    ensures NextFrom(flags, i) != -1 ==> i <= NextFrom(flags, i) < |flags| && flags[NextFrom(flags, i)]
    decreases |flags| - i
  {
    if i < |flags| && !flags[i] {
      NextIsFirst(flags, i + 1);
    }
  }

  /** Linked lists exactly the linked positions, in strictly increasing order. */
  lemma {:induction false} LinkedIsExact(flags: seq<bool>, i: nat)
    ensures forall k :: 0 <= k < |LinkedFrom(flags, i)| ==>
      i <= LinkedFrom(flags, i)[k] < |flags| && flags[LinkedFrom(flags, i)[k]]
    ensures forall k, m :: 0 <= k < m < |LinkedFrom(flags, i)| ==> LinkedFrom(flags, i)[k] < LinkedFrom(flags, i)[m]
    ensures forall j :: i <= j < |flags| && flags[j] ==> j in LinkedFrom(flags, i)
    decreases |flags| - i
  {
    if i < |flags| {
      LinkedIsExact(flags, i + 1);
    }
  }

  lemma {:induction false} RestOfLinked(flags: seq<bool>, i: nat, k: nat)
    requires k < |LinkedFrom(flags, i)|
    ensures LinkedFrom(flags, LinkedFrom(flags, i)[k] + 1) == LinkedFrom(flags, i)[k + 1..]
    decreases |flags| - i
  {
    if !flags[i] {
      RestOfLinked(flags, i + 1, k);
    } else if k > 0 {
      RestOfLinked(flags, i + 1, k - 1);
    }
  }

  /** One round of requests: the linked positions in turn, each once, and then
      the failure. */
  lemma {:induction false} OneRound(flags: seq<bool>, k: nat)
    requires flags != [] && k <= |Linked(flags)|
    ensures After(flags, k) == if k == 0 then -1 else Linked(flags)[k - 1]
    ensures k == |Linked(flags)| ==> After(flags, k + 1) == -1
  {
    if k > 0 {
      OneRound(flags, k - 1);
      if k > 1 {
        RestOfLinked(flags, 0, k - 2);
      }
      NextIsFirst(flags, After(flags, k - 1) + 1);
    }
    if k == |Linked(flags)| {
      if k > 0 {
        RestOfLinked(flags, 0, k - 1);
      }
      NextIsFirst(flags, After(flags, k) + 1);
    }
  }

  /** After the failure it starts again from the first, for ever. */
  lemma {:induction false} RoundsRepeat(flags: seq<bool>, n: nat)
    requires flags != []
    ensures After(flags, n + |Linked(flags)| + 1) == After(flags, n)
  {
    if n == 0 {
      OneRound(flags, |Linked(flags)|);
    } else {
      RoundsRepeat(flags, n - 1);
    }
  }

  /** Without a payment list the answer is always the first position. */
  lemma EmptyListYieldsFirst(n: nat)
    requires n > 0
    ensures After([], n) == 0
  {
  }

  /** A spooler that was restarted has an empty list. What it hands out for the
      payments the printer still has is right for the whole round exactly if the
      first payment is linked and no other is. */
  lemma RestartIsRightIff(paid: seq<bool>)
    requires paid != []
    ensures Next([], -1) == Next(paid, -1) <==> paid[0]
    ensures (Linked(paid) != [] && forall k :: 1 <= k <= |Linked(paid)| ==> After([], k) == After(paid, k))
            <==> Linked(paid) == [0]
  {
    NextIsFirst(paid, 0);
    LinkedIsExact(paid, 0);
    forall k | 1 <= k <= |Linked(paid)| ensures After([], k) == 0 && After(paid, k) == Linked(paid)[k - 1] {
      EmptyListYieldsFirst(k);
      OneRound(paid, k);
    }
    if Linked(paid) == [0] {
      assert forall k :: 1 <= k <= 1 ==> After([], k) == 0 == After(paid, k);
    } else if Linked(paid) != [] {
      var l := Linked(paid);
      if |l| > 1 {
        assert l[0] < l[1] && After([], 2) != After(paid, 2);
      } else {
        assert l == [l[0]] && After([], 1) != After(paid, 1);
      }
    }
  }
}
