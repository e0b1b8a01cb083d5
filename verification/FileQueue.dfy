/** The file queue (src/filequeue.cc): directory scans first, kernel events
    afterwards. */
module FileQueue {
  import opened Text

  type byte = b: int | 0 <= b < 256

  // ------------------------------------------------------ the event buffer

  /** An event as the kernel lays it out: twelve bytes of header, the length of
      the name field, and the name padded with zeros. */
  datatype Event = Event(head: seq<byte>, name: seq<byte>, pad: nat)

  const HEAD_SIZE := 16

  ghost predicate WellFormed(e: Event) {
    && |e.head| == 12 && 0 !in e.name && |e.name| + e.pad < 0x1_0000_0000
    && (e.name != [] ==> e.pad > 0) && (e.name == [] ==> e.pad == 0)
  }

  function Zeros(n: nat): (z: seq<byte>)
    ensures |z| == n && forall i :: 0 <= i < n ==> z[i] == 0
  {
    if n == 0 then [] else [0] + Zeros(n - 1)
  }

  /** A 32-bit number, low byte first. */
  function Word(n: nat): (w: seq<byte>)
    requires n < 0x1_0000_0000
    ensures |w| == 4
  {
    [n % 256, n / 256 % 256, n / 65536 % 256, n / 16777216]
  }

  function WordValue(w: seq<byte>): nat
    requires |w| == 4
  {
    w[0] as int + 256 * (w[1] as int) + 65536 * (w[2] as int) + 16777216 * (w[3] as int)
  }

  lemma WordRoundTrip(n: nat)
    requires n < 0x1_0000_0000
    ensures WordValue(Word(n)) == n
  {
    var a, b, c := n / 256, n / 65536, n / 16777216;
    assert b == a / 256 && c == b / 256;
  }

  ghost function Encode(e: Event): (s: seq<byte>)
    requires WellFormed(e)
    ensures |s| == HEAD_SIZE + |e.name| + e.pad
  {
    e.head + Word(|e.name| + e.pad) + e.name + Zeros(e.pad)
  }

  ghost function EncodeAll(evs: seq<Event>): seq<byte>
    requires forall i :: 0 <= i < |evs| ==> WellFormed(evs[i])
  {
    if evs == [] then [] else Encode(evs[0]) + EncodeAll(evs[1..])
  }

  function AsString(s: seq<byte>): (r: string)
    ensures |r| == |s| && forall i :: 0 <= i < |s| ==> r[i] == s[i] as char
  {
    if s == [] then "" else [s[0] as char] + AsString(s[1..])
  }

  /** The names that carry the prefix, in order. */
  function Matching(names: seq<string>, prefix: string): seq<string> {
    if names == [] then []
    else (if prefix <= names[0] then [names[0]] else []) + Matching(names[1..], prefix)
  }

  ghost function NameOf(e: Event): seq<string> {
    if e.name == [] then [] else [AsString(e.name)]
  }

  ghost function Names(evs: seq<Event>): seq<string> {
    if evs == [] then [] else NameOf(evs[0]) + Names(evs[1..])
  }

  /** The C string at the start of a name field. */
  method ReadName(buffer: seq<byte>, at: nat, ghost name: seq<byte>) returns (r: string)
    requires at + |name| < |buffer| && buffer[at..at + |name|] == name && 0 !in name && buffer[at + |name|] == 0
    ensures r == AsString(name)
  {
    r := "";
    var i := 0;
    assert forall k :: 0 <= k < |name| ==> buffer[at + k] == buffer[at..at + |name|][k] == name[k];
    while buffer[at + i] != 0
      invariant 0 <= i <= |name|
      invariant r == AsString(name[..i])
      decreases |name| - i
    {
      assert name[..i + 1] == name[..i] + [name[i]];
      AsStringAppend(name[..i], name[i]);
      r := r + [buffer[at + i] as char];
      i := i + 1;
    }
    assert name[..i] == name;
  }

  lemma AsStringAppend(s: seq<byte>, b: byte)
    ensures AsString(s + [b]) == AsString(s) + [b as char]
  {
    if s != [] {
      assert (s + [b])[1..] == s[1..] + [b];
      AsStringAppend(s[1..], b);
    }
  }

  lemma EncodedParts(e: Event)
    requires WellFormed(e)
    ensures var s := Encode(e);
            && WordValue(s[12..16]) == |e.name| + e.pad
            && s[16..16 + |e.name|] == e.name
            && (e.pad > 0 ==> s[16 + |e.name|] == 0)
  {
    var s := Encode(e);
    WordRoundTrip(|e.name| + e.pad);
    assert s[12..16] == Word(|e.name| + e.pad);
    hide WordValue;
    hide Word;
  }

  lemma {:induction false} MatchingAppend(a: seq<string>, b: seq<string>, prefix: string)
    ensures Matching(a + b, prefix) == Matching(a, prefix) + Matching(b, prefix)
  {
    if a == [] {
      assert a + b == b;
    } else {
      assert (a + b)[1..] == a[1..] + b;
      MatchingAppend(a[1..], b, prefix);
    }
  }

  lemma {:induction false} MatchingHavePrefix(names: seq<string>, prefix: string)
    ensures forall i :: 0 <= i < |Matching(names, prefix)| ==> prefix <= Matching(names, prefix)[i]
    ensures forall n :: n in Matching(names, prefix) <==> n in names && prefix <= n
  {
    if names != [] {
      MatchingHavePrefix(names[1..], prefix);
    }
  }

  /** Strictly increasing positions of a list of n names. */
  predicate Rising(at: seq<nat>, n: nat) {
    && (forall i :: 0 <= i < |at| ==> at[i] < n)
    && (forall i, j :: 0 <= i < j < |at| ==> at[i] < at[j])
  }

  /** The matching names, each as often as it is listed and in the order of the
      list: those at the positions whose name has the prefix. */
  lemma {:induction false} MatchingAt(names: seq<string>, prefix: string) returns (at: seq<nat>)
    ensures Rising(at, |names|) && |at| == |Matching(names, prefix)|
    ensures forall i :: 0 <= i < |at| ==> Matching(names, prefix)[i] == names[at[i]]
    ensures forall j :: 0 <= j < |names| ==> (j in at <==> prefix <= names[j])
  {
    at := [];
    if names != [] {
      var n := |names| - 1;
      at := MatchingAt(names[..n], prefix);
      assert names == names[..n] + [names[n]];
      MatchingAppend(names[..n], [names[n]], prefix);
      if prefix <= names[n] {
        at := at + [n];
      }
    }
  }

  /** The first event of a non-empty buffer. */
  lemma FirstEvent(evs: seq<Event>, prefix: string)
    requires forall i :: 0 <= i < |evs| ==> WellFormed(evs[i])
    ensures EncodeAll(evs) == [] <==> evs == []
    ensures evs == [] ==> Matching(Names(evs), prefix) == []
    ensures evs != [] ==> EncodeAll(evs) == Encode(evs[0]) + EncodeAll(evs[1..])
    ensures evs != [] ==>
      Matching(Names(evs), prefix) == Matching(NameOf(evs[0]), prefix) + Matching(Names(evs[1..]), prefix)
  {
    if evs != [] {
      MatchingAppend(NameOf(evs[0]), Names(evs[1..]), prefix);
    }
  }

  // --------------------------------------------------------------- the queue

  datatype ScanType = DirScan | EventScan

  /** What the directory and the kernel will show: directory listings, and the
      batches of events that reads of the event descriptor return. When there is
      no more to see the wait is interrupted. */
  class World {
    var listings: seq<seq<string>>
    var buffers: seq<seq<byte>>
    ghost var batches: seq<seq<Event>>

    constructor (listings: seq<seq<string>>, buffers: seq<seq<byte>>, ghost batches: seq<seq<Event>>)
      requires Sound(buffers, batches)
      ensures this.listings == listings && this.buffers == buffers && this.batches == batches
    {
      this.listings, this.buffers, this.batches := listings, buffers, batches;
    }
  }

  ghost predicate Sound(buffers: seq<seq<byte>>, batches: seq<seq<Event>>) {
    && |batches| == |buffers|
    && (forall k :: 0 <= k < |batches| ==> forall i :: 0 <= i < |batches[k]| ==> WellFormed(batches[k][i]))
    && (forall k :: 0 <= k < |batches| ==> buffers[k] == EncodeAll(batches[k]))
  }

  /** What the next wait adds to an empty queue, and the mode, listings and
      batches after it: one scan while the directory is scanned, and from the
      first scan without a match on, one batch of events after the other. */
  datatype Wait = Wait(names: seq<string>, mode: ScanType, listings: seq<seq<string>>, batches: seq<seq<Event>>)

  ghost function NextWait(mode: ScanType, listings: seq<seq<string>>, batches: seq<seq<Event>>, prefix: string): Wait
    decreases |listings| + |batches|
  {
    if mode == DirScan then
      if listings == [] then Wait([], mode, listings, batches)
      else if Matching(listings[0], prefix) != [] then
        Wait(Matching(listings[0], prefix), DirScan, listings[1..], batches)
      else NextWait(EventScan, listings[1..], batches, prefix)
    else if batches == [] then Wait([], mode, listings, batches)
    else if Matching(Names(batches[0]), prefix) != [] then
      Wait(Matching(Names(batches[0]), prefix), EventScan, listings, batches[1..])
    else NextWait(EventScan, listings, batches[1..], prefix)
  }

  class FileQueue {
    const prefix: string
    var items: seq<string>
    var scanType: ScanType
    var fd: int
    var wd: int
    ghost var entered: seq<string>
    ghost var left: seq<string>

    ghost predicate Valid()
      reads this
    {
      && entered == left + items
      && (forall i :: 0 <= i < |entered| ==> prefix <= entered[i])
      && (fd > 0 ==> scanType == EventScan) && (wd > 0 ==> fd > 0)
    }

    constructor (prefix: string)
      ensures Valid() && this.prefix == prefix && items == [] && entered == [] && left == []
      ensures scanType == DirScan && fd == 0 && wd == 0
    {
      this.prefix, items, scanType, fd, wd := prefix, [], DirScan, 0, 0;
      entered, left := [], [];
    }

    method Push(name: string)
      requires Valid() && prefix <= name
      modifies `items, `entered
      ensures Valid() && items == old(items) + [name] && entered == old(entered) + [name]
    {
      items := items + [name];
      entered := entered + [name];
    }

    method StartMonitoring()
      requires Valid() && scanType == EventScan
      modifies `fd, `wd
      ensures Valid() && fd > 0 && wd > 0
      ensures old(fd) > 0 ==> fd == old(fd)
      ensures old(wd) > 0 ==> wd == old(wd)
    {
      if fd <= 0 {
        var f: int :| f > 0;
        fd := f;
      }
      if wd <= 0 {
        var w: int :| w > 0;
        wd := w;
      }
    }

    /** Every matching entry of the directory, in the order it is listed. */
    method DirectoryScan(listing: seq<string>) returns (gotOne: bool)
      requires Valid()
      modifies `items, `entered
      ensures Valid() && items == old(items) + Matching(listing, prefix)
      ensures gotOne <==> Matching(listing, prefix) != []
    {
      gotOne := false;
      var i := 0;
      while i < |listing|
        invariant 0 <= i <= |listing| && Valid()
        invariant items == old(items) + Matching(listing[..i], prefix)
        invariant gotOne <==> Matching(listing[..i], prefix) != []
      {
        var name := listing[i];
        assert listing[..i + 1] == listing[..i] + [name];
        MatchingAppend(listing[..i], [name], prefix);
        FoundAtStart(name, prefix);
        if Find(name, prefix) == 0 {
          gotOne := true;
          Push(name);
        }
        i := i + 1;
      }
      assert listing[..i] == listing;
    }

    /** One record of the buffer. */
    method TakeEvent(buffer: seq<byte>, ptr: nat, ghost e: Event, ghost more: seq<byte>)
      returns (len: nat, pushed: bool)
      requires Valid() && WellFormed(e) && ptr <= |buffer| && buffer[ptr..] == Encode(e) + more
      modifies `items, `entered
      ensures Valid() && ptr + HEAD_SIZE + len <= |buffer| && buffer[ptr + HEAD_SIZE + len..] == more
      ensures items == old(items) + Matching(NameOf(e), prefix)
      ensures pushed <==> Matching(NameOf(e), prefix) != []
    {
      var name;
      len, name := ReadEvent(buffer, ptr, e, more);
      hide Encode;
      hide WellFormed;
      pushed := false;
      if len != 0 {
        if name[..if |name| < |prefix| then |name| else |prefix|] == prefix {
          pushed := true;
          Push(name);
        }
      }
    }

    /** The walk over the variable-length records of an event buffer puts exactly
        the matching names of the events into the queue. */
    method KernelScan(buffer: seq<byte>, ghost evs: seq<Event>) returns (gotOne: bool)
      requires Valid() && scanType == EventScan
      requires forall i :: 0 <= i < |evs| ==> WellFormed(evs[i])
      requires buffer == EncodeAll(evs)
      modifies `items, `entered, `fd, `wd
      ensures Valid() && fd > 0 && wd > 0
      ensures items == old(items) + Matching(Names(evs), prefix)
      ensures gotOne <==> Matching(Names(evs), prefix) != []
    {
      hide EncodeAll;
      hide Encode;
      hide Names;
      hide NameOf;
      hide WellFormed;
      hide Matching;
      StartMonitoring();
      gotOne := false;
      var ptr := 0;
      ghost var rest := evs;
      FirstEvent(rest, prefix);
      while ptr < |buffer|
        invariant forall i :: 0 <= i < |rest| ==> WellFormed(rest[i])
        invariant 0 <= ptr <= |buffer| && buffer[ptr..] == EncodeAll(rest) && Valid() && fd > 0 && wd > 0
        invariant items + Matching(Names(rest), prefix) == old(items) + Matching(Names(evs), prefix)
        invariant gotOne <==> items != old(items)
        invariant |items| >= |old(items)|
        decreases |buffer| - ptr
      {
        FirstEvent(rest, prefix);
        var len, pushed := TakeEvent(buffer, ptr, rest[0], EncodeAll(rest[1..]));
        if pushed {
          gotOne := true;
        }
        ptr := ptr + HEAD_SIZE + len;
        rest := rest[1..];
      }
      FirstEvent(rest, prefix);
    }

    /** One turn of the loop of scan_files. */
    method ScanOnce(world: World) returns (interrupted: bool)
      requires Valid() && Sound(world.buffers, world.batches) && items == []
      modifies `items, `entered, `scanType, `fd, `wd, world
      ensures Valid() && Sound(world.buffers, world.batches) && left == old(left)
      ensures NextWait(old(scanType), old(world.listings), old(world.batches), prefix)
           == if items == [] && !interrupted then NextWait(scanType, world.listings, world.batches, prefix)
              else Wait(items, scanType, world.listings, world.batches)
      ensures interrupted ==> items == []
      ensures !interrupted ==>
        |world.listings| + |world.batches| < |old(world.listings)| + |old(world.batches)|
    {
      hide Matching;
      hide Names;
      hide EncodeAll;
      hide WellFormed;
      interrupted := false;
      if scanType == DirScan {
        if world.listings == [] {
          interrupted := true;
        } else {
          var listing := world.listings[0];
          world.listings := world.listings[1..];
          var gotOne := DirectoryScan(listing);
          assert [] + Matching(listing, prefix) == Matching(listing, prefix);
          if !gotOne {
            scanType := EventScan;
          }
        }
      } else {
        if world.buffers == [] {
          interrupted := true;
        } else {
          var buffer := world.buffers[0];
          ghost var evs := world.batches[0];
          world.buffers, world.batches := world.buffers[1..], world.batches[1..];
          var gotOne := KernelScan(buffer, evs);
          assert [] + Matching(Names(evs), prefix) == Matching(Names(evs), prefix);
        }
      }
    }

    /** The loop of scan_files: waits until there is a name or the wait is
        interrupted. */
    method WaitForNames(world: World)
      requires Valid() && Sound(world.buffers, world.batches) && items == []
      modifies `items, `entered, `scanType, `fd, `wd, world
      ensures Valid() && Sound(world.buffers, world.batches) && left == old(left)
      ensures NextWait(old(scanType), old(world.listings), old(world.batches), prefix)
           == Wait(items, scanType, world.listings, world.batches)
    {
      hide NextWait;
      hide Sound;
      var interrupted := false;
      while items == [] && !interrupted
        invariant Valid() && Sound(world.buffers, world.batches) && left == old(left)
        invariant NextWait(old(scanType), old(world.listings), old(world.batches), prefix)
               == if items == [] && !interrupted then NextWait(scanType, world.listings, world.batches, prefix)
                  else Wait(items, scanType, world.listings, world.batches)
        decreases !interrupted, |world.listings| + |world.batches|
      {
        interrupted := ScanOnce(world);
      }
    }

    /** scan_files: the oldest name, after waiting for one if there is none. The
        empty name stands for an interruption. */
    method ScanFiles(world: World) returns (next: string)
      requires Valid() && Sound(world.buffers, world.batches)
      modifies this, world
      ensures Valid() && Sound(world.buffers, world.batches)
      ensures old(items) != [] ==>
        next == old(items)[0] && items == old(items)[1..] && entered == old(entered)
        && scanType == old(scanType) && world.listings == old(world.listings) && world.batches == old(world.batches)
      ensures old(items) == [] ==>
        var w := NextWait(old(scanType), old(world.listings), old(world.batches), prefix);
        && entered == old(left) + w.names
        && (if w.names == [] then next == "" && items == [] else next == w.names[0] && items == w.names[1..])
        && scanType == w.mode && world.listings == w.listings && world.batches == w.batches
    {
      next := "";
      if items == [] {
        WaitForNames(world);
      }
      if items != [] {
        next := items[0];
        left := left + [items[0]];
        items := items[1..];
      }
    }
  }

  lemma FoundAtStart(name: string, prefix: string)
    ensures Find(name, prefix) == 0 <==> prefix <= name
  {
    assert prefix <= name ==> OccursAt(name, prefix, 0);
  }

  /** One record. */
  method ReadEvent(buffer: seq<byte>, ptr: nat, ghost e: Event, ghost more: seq<byte>) returns (len: nat, name: string)
    requires WellFormed(e) && ptr <= |buffer| && buffer[ptr..] == Encode(e) + more
    ensures ptr + HEAD_SIZE + len <= |buffer| && buffer[ptr + HEAD_SIZE + len..] == more
    ensures len == 0 <==> e.name == []
    ensures len != 0 ==> name == AsString(e.name)
  {
    EncodedParts(e);
    ghost var s := Encode(e);
    assert forall a, b :: 0 <= a <= b <= |s| ==> buffer[ptr + a..ptr + b] == buffer[ptr..][a..b] == s[a..b];
    hide Encode;
    len := WordValue(buffer[ptr + 12..ptr + 16]);
    name := "";
    if len != 0 {
      assert buffer[ptr + 16 + |e.name|] == buffer[ptr..][16 + |e.name|];
      name := ReadName(buffer, ptr + 16, e.name);
    }
    assert buffer[ptr + HEAD_SIZE + len..] == buffer[ptr..][HEAD_SIZE + len..] == more;
  }

  // --------------------------------------------------------- many calls

  /** No name carries the prefix. */
  predicate NoneMatches(names: seq<string>, prefix: string) {
    forall i :: 0 <= i < |names| ==> !(prefix <= names[i])
  }

  /** Everything the listings show, and everything the batches name. */
  ghost function Listed(listings: seq<seq<string>>): seq<string> {
    if listings == [] then [] else Listed(listings[..|listings| - 1]) + listings[|listings| - 1]
  }

  ghost function Named(batches: seq<seq<Event>>): seq<string> {
    if batches == [] then [] else Named(batches[..|batches| - 1]) + Names(batches[|batches| - 1])
  }

  /** What has been consumed, p listings and q batches, and what came of it: only
      the last listing may be one without a match, events are awaited exactly if
      there was one, and the names that entered are the matching ones of the
      listings and then of the batches, in order. */
  ghost predicate Took(l: seq<seq<string>>, b: seq<seq<Event>>, prefix: string,
                       p: nat, q: nat, mode: ScanType, entered: seq<string>) {
    && p <= |l| && q <= |b|
    && (mode == EventScan <==> exists k :: 0 <= k < p && NoneMatches(l[k], prefix))
    && (forall k :: 0 <= k && k + 1 < p ==> !NoneMatches(l[k], prefix))
    && (mode == DirScan ==> q == 0)
    && entered == Matching(Listed(l[..p]), prefix) + Matching(Named(b[..q]), prefix)
  }

  /** There is no more to see in the mode. */
  predicate Exhausted(mode: ScanType, listings: nat, batches: nat) {
    if mode == DirScan then listings == 0 else batches == 0
  }

  lemma {:induction false} NoneMatchesIff(names: seq<string>, prefix: string)
    ensures NoneMatches(names, prefix) <==> Matching(names, prefix) == []
  {
    if names != [] {
      NoneMatchesIff(names[1..], prefix);
      assert forall i :: 1 <= i < |names| ==> names[i] == names[1..][i - 1];
    }
  }

  lemma OneMoreListing(l: seq<seq<string>>, p: nat, prefix: string)
    requires p < |l|
    ensures Matching(Listed(l[..p + 1]), prefix) == Matching(Listed(l[..p]), prefix) + Matching(l[p], prefix)
  {
    assert l[..p + 1][..p] == l[..p];
    MatchingAppend(Listed(l[..p]), l[p], prefix);
  }

  lemma OneMoreBatch(b: seq<seq<Event>>, q: nat, prefix: string)
    requires q < |b|
    ensures Matching(Named(b[..q + 1]), prefix) == Matching(Named(b[..q]), prefix) + Matching(Names(b[q]), prefix)
  {
    assert b[..q + 1][..q] == b[..q];
    MatchingAppend(Named(b[..q]), Names(b[q]), prefix);
  }

  lemma TookListing(l: seq<seq<string>>, b: seq<seq<Event>>, prefix: string, p: nat, q: nat, entered: seq<string>)
    requires Took(l, b, prefix, p, q, DirScan, entered) && p < |l|
    ensures Took(l, b, prefix, p + 1, q, if Matching(l[p], prefix) == [] then EventScan else DirScan,
                 entered + Matching(l[p], prefix))
  {
    OneMoreListing(l, p, prefix);
    NoneMatchesIff(l[p], prefix);
    assert Matching(Named(b[..0]), prefix) == [];
    hide NoneMatches;
    hide Listed;
  }

  lemma TookBatch(l: seq<seq<string>>, b: seq<seq<Event>>, prefix: string, p: nat, q: nat, entered: seq<string>)
    requires Took(l, b, prefix, p, q, EventScan, entered) && q < |b|
    ensures Took(l, b, prefix, p, q + 1, EventScan, entered + Matching(Names(b[q]), prefix))
  {
    OneMoreBatch(b, q, prefix);
    Associates(Matching(Listed(l[..p]), prefix), Matching(Named(b[..q]), prefix), Matching(Names(b[q]), prefix));
    hide Names;
    hide NoneMatches;
    hide Listed;
    hide Named;
    hide Matching;
  }

  lemma {:induction false} NextWaitTakes(l: seq<seq<string>>, b: seq<seq<Event>>, prefix: string,
                                         p: nat, q: nat, mode: ScanType, entered: seq<string>)
    returns (p': nat, q': nat)
    requires Took(l, b, prefix, p, q, mode, entered)
    ensures p' <= |l| && q' <= |b|
    ensures var w := NextWait(mode, l[p..], b[q..], prefix);
            && Took(l, b, prefix, p', q', w.mode, entered + w.names)
            && w.listings == l[p'..] && w.batches == b[q'..]
            && (w.names == [] ==> Exhausted(w.mode, |w.listings|, |w.batches|))
    decreases |l| - p + |b| - q
  {
    p', q' := p, q;
    assert entered + [] == entered;
    hide Took;
    assert p <= |l| && q <= |b| by { TookInRange(l, b, prefix, p, q, mode, entered); }
    if mode == DirScan && p < |l| {
      assert l[p..][1..] == l[p + 1..] && l[p..][0] == l[p];
      TookListing(l, b, prefix, p, q, entered);
      p' := p + 1;
      if Matching(l[p], prefix) == [] {
        p', q' := NextWaitTakes(l, b, prefix, p + 1, q, EventScan, entered);
      }
    } else if mode == EventScan && q < |b| {
      assert b[q..][1..] == b[q + 1..] && b[q..][0] == b[q];
      TookBatch(l, b, prefix, p, q, entered);
      q' := q + 1;
      if Matching(Names(b[q]), prefix) == [] {
        p', q' := NextWaitTakes(l, b, prefix, p, q + 1, EventScan, entered);
      }
    }
  }

  lemma TookInRange(l: seq<seq<string>>, b: seq<seq<Event>>, prefix: string,
                    p: nat, q: nat, mode: ScanType, entered: seq<string>)
    requires Took(l, b, prefix, p, q, mode, entered)
    ensures p <= |l| && q <= |b|
  {
  }

  lemma TookNothing(l: seq<seq<string>>, b: seq<seq<Event>>, prefix: string)
    ensures Took(l, b, prefix, 0, 0, DirScan, [])
  {
    assert l[..0] == [] && b[..0] == [];
  }

  lemma NothingLeft(mode: ScanType, listings: seq<seq<string>>, batches: seq<seq<Event>>, prefix: string)
    requires Exhausted(mode, |listings|, |batches|)
    ensures NextWait(mode, listings, batches, prefix) == Wait([], mode, listings, batches)
  {
  }

  /** The names handed out: those that left the queue, and empty ones from the
      first interruption on. */
  predicate HandedOut(names: seq<string>, left: seq<string>) {
    && |left| <= |names| && left == names[..|left|]
    && forall i :: |left| <= i < |names| ==> names[i] == ""
  }

  lemma OneMoreHandedOut(names: seq<string>, left: seq<string>, next: string)
    requires HandedOut(names, left)
    ensures |left| == |names| ==> HandedOut(names + [next], left + [next])
    ensures HandedOut(names + [""], left)
  {
  }

  /** The name that left the queue, told from what is left in it. */
  lemma OneLeft(left: seq<string>, items: seq<string>, left': seq<string>, next: string)
    requires left + ([next] + items) == left' + items
    ensures left' == left + [next]
  {
    var entered := left' + items;
    assert entered == (left + [next]) + items;
    assert left' == entered[..|entered| - |items|] == left + [next];
  }

  /** One call of scan_files, in the light of all listings and batches. */
  method TakeName(queue: FileQueue, world: World,
                  ghost l: seq<seq<string>>, ghost b: seq<seq<Event>>, ghost p: nat, ghost q: nat)
    returns (next: string, ghost p': nat, ghost q': nat)
    requires queue.Valid() && Sound(world.buffers, world.batches) && p <= |l| && q <= |b|
    requires Took(l, b, queue.prefix, p, q, queue.scanType, queue.entered)
    requires world.listings == l[p..] && world.batches == b[q..]
    modifies queue, world
    ensures queue.Valid() && Sound(world.buffers, world.batches) && p' <= |l| && q' <= |b|
    ensures Took(l, b, queue.prefix, p', q', queue.scanType, queue.entered)
    ensures world.listings == l[p'..] && world.batches == b[q'..]
    ensures || queue.left == old(queue.left) + [next]
            || (next == "" && queue.left == old(queue.left) && queue.items == []
                && Exhausted(queue.scanType, |world.listings|, |world.batches|))
    ensures old(queue.items) == [] && Exhausted(old(queue.scanType), old(|world.listings|), old(|world.batches|)) ==>
      next == "" && queue.left == old(queue.left) && queue.items == []
      && Exhausted(queue.scanType, |world.listings|, |world.batches|)
  {
    hide *;
    ghost var left, items, w := queue.left, queue.items,
      NextWait(queue.scanType, world.listings, world.batches, queue.prefix);
    EnteredIs(queue);
    p', q' := p, q;
    if queue.items == [] {
      assert left + [] == left;
      p', q' := NextWaitTakes(l, b, queue.prefix, p, q, queue.scanType, queue.entered);
      if Exhausted(queue.scanType, |world.listings|, |world.batches|) {
        NothingLeft(queue.scanType, world.listings, world.batches, queue.prefix);
      }
    }
    next := queue.ScanFiles(world);
    EnteredIs(queue);
    if items != [] {
      assert items == [next] + queue.items;
      OneLeft(left, queue.items, queue.left, next);
    } else if w.names != [] {
      assert w.names == [next] + queue.items;
      OneLeft(left, queue.items, queue.left, next);
    } else {
      assert left + [] == left && queue.left + [] == queue.left;
    }
  }

  lemma EnteredIs(queue: FileQueue)
    requires queue.Valid()
    ensures queue.entered == queue.left + queue.items
  {
  }

  /** scan_files any number of times, on a queue that is new: which names come out,
      and what has been looked at. Names come out in the order they entered; the
      empty name stands for an interruption, which comes when there is no more to
      see, and from then on. */
  method TakeNames(queue: FileQueue, world: World, n: nat) returns (names: seq<string>, ghost p: nat, ghost q: nat)
    requires queue.Valid() && queue.entered == [] && queue.scanType == DirScan && Sound(world.buffers, world.batches)
    modifies queue, world
    ensures p <= |old(world.listings)| && q <= |old(world.batches)|
    ensures Took(old(world.listings), old(world.batches), queue.prefix, p, q, queue.scanType, queue.entered)
    ensures world.listings == old(world.listings)[p..] && world.batches == old(world.batches)[q..]
    ensures queue.entered == queue.left + queue.items && |names| == n && HandedOut(names, queue.left)
    ensures |queue.left| < n ==>
      queue.items == [] && Exhausted(queue.scanType, |world.listings|, |world.batches|)
  {
    names, p, q := [], 0, 0;
    ghost var l, b := world.listings, world.batches;
    TookNothing(l, b, queue.prefix);
    EnteredIs(queue);
    hide *;
    NoneHandedOut();
    while |names| < n
      invariant queue.Valid() && Sound(world.buffers, world.batches) && p <= |l| && q <= |b|
      invariant Took(l, b, queue.prefix, p, q, queue.scanType, queue.entered)
      invariant world.listings == l[p..] && world.batches == b[q..]
      invariant |names| <= n && HandedOut(names, queue.left) && |queue.left| <= |names|
      invariant |queue.left| < |names| ==>
        queue.items == [] && Exhausted(queue.scanType, |world.listings|, |world.batches|)
    {
      ghost var left := queue.left;
      var next;
      next, p, q := TakeName(queue, world, l, b, p, q);
      OneMoreHandedOut(names, left, next);
      names := names + [next];
    }
    EnteredIs(queue);
  }

  lemma NoneHandedOut()
    ensures HandedOut([], [])
  {
  }
}
