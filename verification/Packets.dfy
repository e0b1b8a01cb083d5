/** Parameters and packets (src/pktparam.cc, src/packet.cc) and the search for
    a parameter by name (src/ecfbroker.cc). A thrown exception is a None. */
module Packets {
  import opened Text

  datatype PacketType = NotTyped | BeginSession | Execut | EndSession | Status | Reset

  /** What a parameter holds, cursors apart. */
  datatype Param = Param(name: string, values: seq<string>)

  /** What a request holds, cursors apart. */
  datatype Request = Request(tp: PacketType, session: string, id: string, params: seq<Param>)

  class PktParam {
    var name: string
    var vals: seq<string>
    var idx: int  // offset of the cursor; left unset by the constructors and by Copy

    constructor (name: string, vals: seq<string>)
      ensures this.name == name && this.vals == vals
    {
      this.name, this.vals := name, vals;
    }

    function View(): Param
      reads this
    {
      Param(name, vals)
    }

    ghost predicate Positioned()
      reads this
    {
      0 <= idx <= |vals|
    }

    method SetValue(txt: string)
      modifies this
      ensures vals == [txt] && name == old(name) && idx == old(idx)
    {
      if vals != [] {
        vals := [];
      }
      AddValue(txt);
    }

    method AddValue(txt: string)
      modifies `vals
      ensures vals == old(vals) + [txt]
    {
      vals := vals + [txt];
    }

    method Value() returns (r: Option<string>)
      modifies `idx
      ensures vals == [] ==> r == None && idx == old(idx)
      ensures vals != [] ==> r == Some(vals[0]) && idx == 1
    {
      if vals != [] {
        idx := 0;
        idx := idx + 1;
        return Some(vals[0]);
      }
      return None;
    }

    method NextValue() returns (r: Option<string>)
      requires vals != [] ==> Positioned()
      modifies `idx
      ensures vals == [] || old(idx) == |vals| ==> r == None && idx == old(idx)
      ensures vals != [] && old(idx) < |vals| ==> r == Some(vals[old(idx)]) && idx == old(idx) + 1
    {
      if vals != [] && idx != |vals| {
        r := Some(vals[idx]);
        idx := idx + 1;
        return;
      }
      return None;
    }

    /** Takes over another parameter. A source without values passes on its
        name only: whatever values the target had stay. */
    method Copy(obj: PktParam)
      requires obj != this
      modifies `name, `vals, obj`idx
      ensures name == obj.name
      ensures vals == if obj.vals == [] then old(vals) else obj.vals
      ensures obj.vals != [] ==> obj.idx == |obj.vals|
    {
      var lines := |obj.vals|;
      name := obj.name;
      var i := 0;
      while i < lines
        invariant 0 <= i <= lines
        invariant name == obj.name
        invariant i == 0 ==> vals == old(vals)
        invariant i > 0 ==> obj.idx == i && vals == obj.vals[..i]
      {
        if i == 0 {
          var v := obj.Value();
          match v
          case Some(txt) => vals := [txt];
          case None =>
        } else {
          var v := obj.NextValue();
          match v
          case Some(txt) => AddValue(txt);
          case None =>
        }
        i := i + 1;
      }
    }
  }

  /** The vector of a packet owns its elements, so they are kept as values. An
      element handed out is an object with those contents whose cursor stands
      anywhere: earlier readers may have left it in any position. */
  class Packet {
    var params: seq<Param>
    var idx: int  // offset of the parameter cursor
    var tp: PacketType
    var session: string
    var id: string

    /** The type of a new packet is whatever its memory held. */
    constructor (garbage: PacketType)
      ensures View() == Request(garbage, "", "", [])
    {
      params, idx, tp, session, id := [], 0, garbage, "", "";
    }

    function View(): Request
      reads this
    {
      Request(tp, session, id, params)
    }

    /** add_param(const pkt_param&): stores what the copy constructor makes. */
    method AddParam(param: PktParam)
      modifies `params, `idx, param`idx
      ensures params == old(params) + [param.View()]
    {
      var tmp := new PktParam("", []);
      tmp.Copy(param);
      params := params + [tmp.View()];
      idx := idx + 1;
    }

    method AddPair(key: string, val: string)
      modifies `params, `idx
      ensures params == old(params) + [Param(key, [val])]
    {
      var tmp := new PktParam(key, []);
      tmp.SetValue(val);
      params := params + [tmp.View()];
      idx := idx + 1;
    }

    method FirstParam() returns (r: Option<PktParam>)
      modifies `idx
      ensures params == [] ==> r == None && idx == old(idx)
      ensures params != [] ==>
        && r.Some? && fresh(r.value) && idx == 1
        && r.value.name == params[0].name && r.value.vals == params[0].values
    {
      if params != [] {
        idx := 0;
        idx := idx + 1;
        var e := new PktParam(params[0].name, params[0].values);
        return Some(e);
      }
      return None;
    }

    method NextParam() returns (r: Option<PktParam>)
      requires params != [] ==> 0 <= idx <= |params|
      modifies `idx
      ensures params == [] || old(idx) == |params| ==> r == None && idx == old(idx)
      ensures params != [] && old(idx) < |params| ==>
        && r.Some? && fresh(r.value) && idx == old(idx) + 1
        && r.value.name == params[old(idx)].name && r.value.vals == params[old(idx)].values
    {
      if params != [] && idx != |params| {
        var e := new PktParam(params[idx].name, params[idx].values);
        idx := idx + 1;
        return Some(e);
      }
      return None;
    }
  }

  // ------------------------------------------------------- lookup by name

  /** The values that reading params[0..k] one after the other into a single
      pkt_param leaves there: those of the last of them that had any. */
  function Held(ps: seq<Param>, k: nat): seq<string>
    requires k < |ps|
  {
    if ps[k].values != [] then ps[k].values
    else if k == 0 then []
    else Held(ps, k - 1)
  }

  predicate IsFirstMatch(ps: seq<Param>, name: string, k: nat) {
    k < |ps| && IEquals(ps[k].name, name) && forall j :: 0 <= j < k ==> !IEquals(ps[j].name, name)
  }

  /** What get_param_by_name answers from position k on; None for an exception. */
  function LookupFrom(ps: seq<Param>, name: string, k: nat): Option<Param>
    requires k <= |ps|
    decreases |ps| - k
  {
    if k == |ps| then None
    else if !IEquals(ps[k].name, name) then LookupFrom(ps, name, k + 1)
    else if Held(ps, k) == [] then None
    else Some(Param(ps[k].name, Held(ps, k)))
  }

  function Lookup(ps: seq<Param>, name: string): Option<Param> {
    LookupFrom(ps, name, 0)
  }

  /** Cursors are the only thing a lookup changes, and their earlier position
      has no influence. A blank name would make the search run for ever. */
  method GetParamByName(name: string, pkt: Packet) returns (r: Option<PktParam>)
    requires Trim(name) != ""
    modifies pkt`idx
    ensures r.Some? ==> fresh(r.value) && Lookup(pkt.params, name) == Some(Param(r.value.name, r.value.vals))
    ensures r.None? ==> Lookup(pkt.params, name) == None
  {
    hide *;
    var param := new PktParam("", []);
    var found := new PktParam("", []);
    ghost var ps := pkt.params;
    BlankMatchesNothing(name);
    LookupStep(ps, name, 0);
    var p := pkt.FirstParam();
    if p.None? {
      return None;
    }
    param.Copy(p.value);
    var same := IEquals(param.name, name);
    ghost var k := 0;
    if same {
      found.Copy(param);
    } else {
      while found.name == ""
        invariant pkt.idx == k + 1 <= |ps|
        invariant param.name == ps[k].name && param.vals == Held(ps, k)
        invariant Lookup(ps, name) == LookupFrom(ps, name, if same then k else k + 1)
        invariant same == IEquals(param.name, name)
        invariant if same then found.name == param.name && found.vals == param.vals
                  else found.name == "" && found.vals == []
        invariant fresh(found) && fresh(param) && found != param
        decreases |ps| - k
      {
        LookupStep(ps, name, k + 1);
        p := pkt.NextParam();
        match p {
          case Some(next) =>
            param.Copy(next);
          case None =>
            if !IEquals(found.name, name) {
              return None;
            }
        }
        k := k + 1;
        same := IEquals(param.name, name);
        if same {
          found.Copy(param);
        }
      }
    }
    LookupStep(ps, name, k);
    var logged := found.Value();
    if logged.None? {
      return None;
    }
    var copy := new PktParam("", []);
    copy.Copy(found);
    r := Some(copy);
  }

  lemma LookupStep(ps: seq<Param>, name: string, k: nat)
    requires k <= |ps|
    ensures Lookup(ps, name) == LookupFrom(ps, name, 0)
    ensures LookupFrom(ps, name, k)
         == if k == |ps| then None
            else if !IEquals(ps[k].name, name) then LookupFrom(ps, name, k + 1)
            else if Held(ps, k) == [] then None
            else Some(Param(ps[k].name, Held(ps, k)))
    ensures k < |ps| ==>
      Held(ps, k) == if ps[k].values != [] then ps[k].values else if k == 0 then [] else Held(ps, k - 1)
  {
    hide IEquals;
  }

  lemma BlankMatchesNothing(name: string)
    requires Trim(name) != ""
    ensures !IEquals("", name)
  {
    assert Upper(Trim("")) == "";
  }

  /** The promise of a lookup, the first parameter of that name with the values
      it has, is kept exactly for parameters that have a value. */
  lemma {:induction false} LookupReturnsFirstMatch(ps: seq<Param>, name: string, k: nat)
    requires IsFirstMatch(ps, name, k)
    ensures Lookup(ps, name) == LookupFrom(ps, name, k)
    ensures Lookup(ps, name) == Some(ps[k]) <==> ps[k].values != []
  {
    hide IEquals;
    var j := 0;
    while j < k
      invariant j <= k && Lookup(ps, name) == LookupFrom(ps, name, j)
    {
      j := j + 1;
    }
  }

  lemma {:induction false} LookupFailsWithoutMatch(ps: seq<Param>, name: string, k: nat)
    requires k <= |ps| && forall j :: k <= j < |ps| ==> !IEquals(ps[j].name, name)
    ensures LookupFrom(ps, name, k) == None
    decreases |ps| - k
  {
    if k < |ps| {
      LookupFailsWithoutMatch(ps, name, k + 1);
    }
  }

  /** A parameter without values is answered with those of the last one before it
      that has some, and not at all if none has. */
  lemma {:induction false} ValuesTakenOver(ps: seq<Param>, name: string, k: nat, j: int)
    requires IsFirstMatch(ps, name, k) && -1 <= j <= k
    requires forall i :: j < i <= k ==> ps[i].values == []
    requires j >= 0 ==> ps[j].values != []
    ensures Lookup(ps, name) == if j == -1 then None else Some(Param(ps[k].name, ps[j].values))
  {
    hide IEquals;
    LookupReturnsFirstMatch(ps, name, k);
    HeldFrom(ps, k, j);
    hide Lookup;
    hide Held;
  }

  lemma {:induction false} HeldFrom(ps: seq<Param>, k: nat, j: int)
    requires k < |ps| && -1 <= j <= k && forall i :: j < i <= k ==> ps[i].values == []
    requires j >= 0 ==> ps[j].values != []
    ensures Held(ps, k) == if j == -1 then [] else ps[j].values
  {
    if j < k && k > 0 {
      HeldFrom(ps, k - 1, j);
    }
  }

  /** A message without lines is answered with the values of the parameter
      that came before it. */
  lemma LookupOfEmptyMessage(title: string)
    ensures Lookup([Param("titulo", [title]), Param("mensagem", [])], "mensagem")
         == Some(Param("mensagem", [title]))
  {
    NamesDiffer();
    var ps := [Param("titulo", [title]), Param("mensagem", [])];
    LookupReturnsFirstMatch(ps, "mensagem", 1);
    hide IEquals;
    assert Held(ps, 0) == [title];
    assert Held(ps, 1) == [title];
  }

  lemma NamesDiffer()
    ensures !IEquals("titulo", "mensagem") && IEquals("mensagem", "mensagem")
  {
    FoldOfWord("titulo");
    FoldOfWord("mensagem");
    IEqualsIsFoldEquality("titulo", "mensagem");
    IEqualsIsFoldEquality("mensagem", "mensagem");
  }

  lemma FoldOfWord(s: string)
    requires s != "" && !IsSpace(s[0]) && !IsSpace(s[|s| - 1])
    ensures |Fold(s)| == |s|
  {
    TrimFixesCore(s);
  }

  lemma {:induction false} LookupFromHasValues(ps: seq<Param>, name: string, k: nat)
    requires k <= |ps|
    ensures var r := LookupFrom(ps, name, k); r.Some? ==> r.value.values != [] && IEquals(r.value.name, name)
    decreases |ps| - k
  {
    hide IEquals;
    if k < |ps| {
      LookupFromHasValues(ps, name, k + 1);
    }
  }

  lemma LookupHasValues(ps: seq<Param>, name: string)
    ensures var r := Lookup(ps, name); r.Some? ==> r.value.values != [] && IEquals(r.value.name, name)
  {
    LookupFromHasValues(ps, name, 0);
  }

  /** get_param_value_by_name. */
  method GetParamValueByName(name: string, pkt: Packet) returns (r: Option<string>)
    requires Trim(name) != ""
    modifies pkt`idx
    ensures r.Some? <==> Lookup(pkt.params, name).Some?
    ensures r.Some? ==>
      var found := Lookup(pkt.params, name).value; found.values != [] && r.value == found.values[0]
  {
    hide *;
    LookupHasValues(pkt.params, name);
    var found := GetParamByName(name, pkt);
    match found {
      case None => r := None;
      case Some(param) =>
        if IEquals(param.name, name) {
          r := param.Value();
        } else {
          r := Some("");
        }
    }
  }
}
