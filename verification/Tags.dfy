/** The tags of the text protocol (src/pkttags.cc, src/txttags.h) and the
    classification of one line (src/txtreader.cc). */
module Tags {
  import opened Text
  import opened Packets

  function BeginTag(): string { "<ecf_sgi_begin>" }

  function EndTag(): string { "<ecf_sgi_end>" }

  function SessionTag(): string { "session_id:" }

  function CommandTag(): string { "command_id:" }

  function MessageTag(): string { "mensagem{" }

  function RequestSuffix(): string { "_request" }

  function TypeTag(tp: PacketType): string {
    match tp
    case NotTyped => ""
    case BeginSession => "ecf_begin_session"
    case Execut => "ecf_execute"
    case EndSession => "ecf_end_session"
    case Status => "ecf_status"
    case Reset => "ecf_reset"
  }

  function RequestTag(tp: PacketType): string {
    TypeTag(tp) + RequestSuffix()
  }

  /** The enumerators between not_typed and tp_dead_end. */
  function TypeNumber(i: nat): PacketType {
    if i == 1 then BeginSession
    else if i == 2 then Execut
    else if i == 3 then EndSession
    else if i == 4 then Status
    else if i == 5 then Reset
    else NotTyped
  }

  function NumberOf(tp: PacketType): (i: nat)
    ensures TypeNumber(i) == tp && i < 6
  {
    match tp
    case NotTyped => 0
    case BeginSession => 1
    case Execut => 2
    case EndSession => 3
    case Status => 4
    case Reset => 5
  }

  ghost predicate IsRequestTag(token: string) {
    exists tp: PacketType :: tp != NotTyped && token == RequestTag(tp)
  }

  lemma TypeTagsDiffer(a: PacketType, b: PacketType)
    requires TypeTag(a) == TypeTag(b)
    ensures a == b
  {
    assert TypeTag(BeginSession)[4] == 'b' && |TypeTag(EndSession)| == 15;
    assert TypeTag(Execut)[5] == 'x' && TypeTag(EndSession)[5] == 'n';
    assert TypeTag(Status)[4] == 's' && TypeTag(Reset)[4] == 'r' && TypeTag(EndSession)[4] == 'e';
  }

  lemma RequestTagsDiffer(a: PacketType, b: PacketType)
    requires RequestTag(a) == RequestTag(b)
    ensures a == b
  {
    assert TypeTag(a) == RequestTag(a)[..|RequestTag(a)| - |RequestSuffix()|];
    assert TypeTag(b) == RequestTag(b)[..|RequestTag(b)| - |RequestSuffix()|];
    TypeTagsDiffer(a, b);
  }

  method ValidPacketType(token: string) returns (ret: bool)
    ensures ret <==> IsRequestTag(token)
  {
    var typeTags: seq<string> := [];
    var i := 1;
    while i != 6
      invariant 1 <= i <= 6 && |typeTags| == i - 1
      invariant forall k :: 0 <= k < |typeTags| ==> typeTags[k] == RequestTag(TypeNumber(k + 1))
    {
      typeTags := typeTags + [TypeTag(TypeNumber(i)) + RequestSuffix()];
      i := i + 1;
    }
    ret := false;
    for test := 0 to |typeTags|
      invariant ret <==> exists k :: 0 <= k < test && token == typeTags[k]
    {
      if token == typeTags[test] {
        ret := true;
      }
    }
    if IsRequestTag(token) {
      var tp: PacketType :| tp != NotTyped && token == RequestTag(tp);
      assert token == typeTags[NumberOf(tp) - 1];
    }
  }

  method TypeFromString(line: string) returns (tp: PacketType)
    ensures tp != NotTyped ==> line == TypeTag(tp)
    ensures tp == NotTyped ==> forall t: PacketType :: t != NotTyped ==> line != TypeTag(t)
  {
    tp := NotTyped;
    for i := 1 to 6
      invariant tp != NotTyped ==> line == TypeTag(tp)
      invariant tp == NotTyped ==>
        forall k: nat :: k < i ==> TypeNumber(k) == NotTyped || line != TypeTag(TypeNumber(k))
    {
      if line == TypeTag(TypeNumber(i)) {
        tp := TypeNumber(i);
      }
    }
    forall t: PacketType | tp == NotTyped && t != NotTyped ensures line != TypeTag(t) {
      assert TypeNumber(NumberOf(t)) == t;
    }
  }

  // --------------------------------------------------- classifying a line

  datatype Phase = InUnknown | InIdle | InStart | InRequest | InSsid | InCmdid | InParam | InText | InStop

  /** Not one of the lines that the protocol gives a meaning of their own. */
  ghost predicate TagFree(line: string) {
    line != BeginTag() && !IsRequestTag(line) && !(SessionTag() <= line) && !(CommandTag() <= line) && line != EndTag()
  }

  /** What qualify_token answers. */
  ghost function Qualify(line: string, dfl: Phase): Phase {
    if line == BeginTag() then InStart
    else if IsRequestTag(line) then InRequest
    else if SessionTag() <= line then InSsid
    else if CommandTag() <= line then InCmdid
    else if line == EndTag() then InStop
    else if Contains(line, ":") then (if dfl != InText then InParam else dfl)
    else if Contains(line, MessageTag()) then InText
    else dfl
  }

  method QualifyToken(line: string, dfl: Phase) returns (ret: Phase)
    ensures ret == Qualify(line, dfl)
  {
    ret := dfl;
    var valid := ValidPacketType(line);
    if line == BeginTag() {
      ret := InStart;
    } else if valid {
      ret := InRequest;
    } else if line[..if |line| < 11 then |line| else 11] == SessionTag() {
      ret := InSsid;
    } else if line[..if |line| < 11 then |line| else 11] == CommandTag() {
      ret := InCmdid;
    } else if line == EndTag() {
      ret := InStop;
    } else if Find(line, ":") != -1 {
      if dfl != InText {
        ret := InParam;
      }
    } else if Find(line, MessageTag()) != -1 {
      ret := InText;
    }
  }

  lemma RequestTagStartsWithE(token: string)
    requires IsRequestTag(token)
    ensures |token| > 0 && token[0] == 'e' && ':' !in token
  {
  }

  lemma QualifyTags(tp: PacketType, s: string, dfl: Phase)
    requires tp != NotTyped
    ensures Qualify(BeginTag(), dfl) == InStart
    ensures Qualify(RequestTag(tp), dfl) == InRequest
    ensures Qualify(SessionTag() + s, dfl) == InSsid
    ensures Qualify(CommandTag() + s, dfl) == InCmdid
    ensures Qualify(EndTag(), dfl) == InStop
  {
    assert RequestTag(tp)[0] == 'e';
    assert (SessionTag() + s)[0] == 's' && (CommandTag() + s)[0] == 'c';
    assert EndTag()[0] == '<' && BeginTag()[0] == '<' && |EndTag()| != |BeginTag()|;
    if IsRequestTag(SessionTag() + s) { RequestTagStartsWithE(SessionTag() + s); }
    if IsRequestTag(CommandTag() + s) { RequestTagStartsWithE(CommandTag() + s); }
    if IsRequestTag(EndTag()) { RequestTagStartsWithE(EndTag()); }
  }

  /** A line key:value is a parameter unless the key is one of the two
      identifiers that have a line of their own. */
  lemma QualifyPair(key: string, value: string)
    requires ':' !in key
    ensures Find(key + ":" + value, ":") == |key|
    ensures TagFree(key + ":" + value) <==> key != "session_id" && key != "command_id"
  {
    var line := key + ":" + value;
    ContainsChar(line, ':');
    assert line[|key|] == ':' && line[..|key|] == key;
    var k := Find(line, ":");
    assert forall i :: 0 <= i < |key| ==> line[i] == key[i];
    assert OccursAt(line, ":", |key|);
    PrefixOfPair(key, value, "session_id");
    PrefixOfPair(key, value, "command_id");
    assert ':' in line;
    assert ':' !in BeginTag() && ':' !in EndTag();
    if IsRequestTag(line) { RequestTagStartsWithE(line); }
  }

  lemma PrefixOfPair(key: string, value: string, id: string)
    requires ':' !in key && ':' !in id
    ensures id + ":" <= key + ":" + value <==> key == id
  {
    var line := key + ":" + value;
    assert forall i :: 0 <= i < |key| ==> line[i] == key[i];
    assert line[|key|] == ':';
    if id + ":" <= line {
      assert line[|id|] == ':';
      assert forall i :: 0 <= i < |id| ==> line[i] == (id + ":")[i] == id[i];
      assert |key| == |id|;
      assert key == line[..|key|] == id;
    }
  }
}
