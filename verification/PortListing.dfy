/** `list_ports`: a nested enumeration with a filter, then a sort by a tiered key. */
module PortListing {
  import opened Base

  /** Negated `errno.ENOENT`, the regular end of an enumeration. */
  const NO_ENTRY: int := -2

  /** A flag word, as the set of the weights of its bits: `a & b == b` is `b <= a`. */
  type Flags = set<nat>

  const CAP_READ := 1
  const CAP_WRITE := 2
  const CAP_SUBS_READ := 32
  const CAP_SUBS_WRITE := 64
  const CAP_NO_EXPORT := 128

  const MIDI_GENERIC := 2
  const MIDI_GM := 4
  const SYNTHESIZER := 0x4_0000

  const MIDI_THROUGH := "Midi Through"

  const READ_PREFERRED: seq<Flags> := [{MIDI_GENERIC}]
  const RW_PREFERRED: seq<Flags> := READ_PREFERRED
  const WRITE_PREFERRED: seq<Flags> :=
    [{MIDI_GENERIC, MIDI_GM, SYNTHESIZER}, {MIDI_GENERIC, SYNTHESIZER}, {MIDI_GENERIC, MIDI_GM}, {MIDI_GENERIC}]

  datatype PortInfo = PortInfo(clientId: int, portId: int, name: string, capability: Flags, portType: Flags, clientName: string)

  /** What the kernel enumerates: ports of clients, each enumeration with the code that ends it. */
  datatype PortEntry = PortEntry(portId: int, name: string, capability: Flags, portType: Flags)
  datatype ClientEntry = ClientEntry(clientId: int, name: string, ports: seq<PortEntry>, stop: StopCode)
  datatype Sequencer = Sequencer(clients: seq<ClientEntry>, stop: StopCode)

  /** An answer that is not negative is an entry and does not end the enumeration. */
  type StopCode = code: int | code < 0 witness NO_ENTRY

  datatype Query = Query(
    input: bool, output: bool, portType: Flags, includeSystem: bool, includeMidiThrough: bool,
    includeNoExport: bool, onlyConnectable: bool, sorted: bool)

  function Info(c: ClientEntry, p: PortEntry): PortInfo {
    PortInfo(c.clientId, p.portId, p.name, p.capability, p.portType, c.name)
  }

  /* ---------- The filter, as a reader would state it ---------- */

  predicate Readable(q: Query, p: PortInfo) {
    CAP_READ in p.capability && (q.onlyConnectable ==> CAP_SUBS_READ in p.capability)
  }

  predicate Writable(q: Query, p: PortInfo) {
    CAP_WRITE in p.capability && (q.onlyConnectable ==> CAP_SUBS_WRITE in p.capability)
  }

  predicate Direction(q: Query, p: PortInfo) {
    if q.input && q.output then Readable(q, p) && Writable(q, p)
    else if q.input then Readable(q, p)
    else if q.output then Writable(q, p)
    else Readable(q, p) || Writable(q, p)
  }

  predicate ClientListed(q: Query, clientId: int, clientName: string) {
    && (clientId == 0 ==> q.includeSystem)
    && (clientName == MIDI_THROUGH ==> q.includeMidiThrough)
  }

  predicate Matches(q: Query, p: PortInfo) {
    && ClientListed(q, p.clientId, p.clientName)
    && q.portType <= p.portType
    && (CAP_NO_EXPORT in p.capability ==> q.includeNoExport)
    && Direction(q, p)
  }

  /** `s` without the ports that do not match, in the same order. */
  function Select(q: Query, s: seq<PortInfo>): (r: seq<PortInfo>)
    ensures forall p :: p in r <==> p in s && Matches(q, p)
  {
    if s == [] then []
    else
      var last := s[|s| - 1];
      Select(q, s[..|s| - 1]) + if Matches(q, last) then [last] else []
  }

  function PortsOf(c: ClientEntry): seq<PortInfo> {
    seq(|c.ports|, i requires 0 <= i < |c.ports| => Info(c, c.ports[i]))
  }

  /** Every port of every client, in enumeration order. */
  function AllPorts(clients: seq<ClientEntry>): seq<PortInfo> {
    if clients == [] then [] else AllPorts(clients[..|clients| - 1]) + PortsOf(clients[|clients| - 1])
  }

  /** A client whose ports are asked for and whose enumeration ends with an error. */
  predicate Fails(q: Query, c: ClientEntry) {
    ClientListed(q, c.clientId, c.name) && c.stop != NO_ENTRY
  }

  /** The first error of the enumeration. The ports of a skipped client are not asked for. */
  function FirstError(q: Query, clients: seq<ClientEntry>, stop: int): Option<int> {
    if clients == [] then (if stop == NO_ENTRY then None else Some(stop))
    else if Fails(q, clients[0]) then Some(clients[0].stop)
    else FirstError(q, clients[1..], stop)
  }

  /* ---------- The sort key ---------- */

  datatype Key = Key(midiThrough: bool, tier: nat, clientId: int, portId: int) {
    /** Tuple comparison; False comes before True. */
    predicate Less(other: Key) {
      if midiThrough != other.midiThrough then other.midiThrough
      else if tier != other.tier then tier < other.tier
      else if clientId != other.clientId then clientId < other.clientId
      else portId < other.portId
    }
  }

  /** The least index of a preferred type all of whose flags the port has, or the number of types. */
  function Tier(portType: Flags, preferred: seq<Flags>): (t: nat)
    ensures t <= |preferred|
    ensures t < |preferred| ==> preferred[t] <= portType
    ensures forall i :: 0 <= i < t ==> !(preferred[i] <= portType)
  {
    if preferred == [] then 0
    else if preferred[0] <= portType then 0
    else 1 + Tier(portType, preferred[1..])
  }

  function KeyOf(preferred: seq<Flags>, p: PortInfo): Key {
    Key(p.clientName == MIDI_THROUGH, Tier(p.portType, preferred), p.clientId, p.portId)
  }

  function Preferred(q: Query): seq<Flags> {
    if q.output && !q.input then WRITE_PREFERRED else RW_PREFERRED
  }

  /** The key function `get_port_info_sort_key` returns, with its loop over the preferred types. */
  method SortKey(preferred: seq<Flags>, p: PortInfo) returns (key: Key)
    ensures key == KeyOf(preferred, p)
  {
    var preference := |preferred|;
    var i := 0;
    while i < |preferred|
      invariant i <= |preferred| && preference == |preferred|
      invariant forall j :: 0 <= j < i ==> !(preferred[j] <= p.portType)
    {
      if preferred[i] <= p.portType {
        preference := i;
        break;
      }
      i := i + 1;
    }
    key := Key(p.clientName == MIDI_THROUGH, preference, p.clientId, p.portId);
  }

  /** `list.sort`: a stable insertion of each element behind those with a key that is not greater. */
  function Insert(preferred: seq<Flags>, p: PortInfo, s: seq<PortInfo>): (r: seq<PortInfo>)
    ensures multiset(r) == multiset(s) + multiset{p}
  {
    if s == [] then [p]
    else
      var n := |s| - 1;
      assert s == s[..n] + [s[n]];
      if KeyOf(preferred, p).Less(KeyOf(preferred, s[n])) then Insert(preferred, p, s[..n]) + [s[n]]
      else s + [p]
  }

  function SortPorts(preferred: seq<Flags>, s: seq<PortInfo>): (r: seq<PortInfo>)
    ensures multiset(r) == multiset(s)
  {
    if s == [] then []
    else
      var n := |s| - 1;
      assert s == s[..n] + [s[n]];
      Insert(preferred, s[n], SortPorts(preferred, s[..n]))
  }

  /** The ports the two loops collect, or the code of the `ALSAError` they raise. */
  function Collected(seqr: Sequencer, q: Query): Result<seq<PortInfo>, int> {
    var error := FirstError(q, seqr.clients, seqr.stop);
    if error.Some? then Failure(error.value) else Success(Select(q, AllPorts(seqr.clients)))
  }

  /** `list_ports`. */
  function Listing(seqr: Sequencer, q: Query): Result<seq<PortInfo>, int> {
    var ports :- Collected(seqr, q);
    Success(if q.sorted then SortPorts(Preferred(q), ports) else ports)
  }

  /* ---------- The loops ---------- */

  /** The branches of the inner loop, in the order of the source. */
  method Accepts(q: Query, p: PortInfo) returns (ok: bool)
    requires ClientListed(q, p.clientId, p.clientName)
    ensures ok == Matches(q, p)
  {
    if q.portType != {} && !(q.portType <= p.portType) {
      return false;
    }
    if CAP_NO_EXPORT in p.capability && !q.includeNoExport {
      return false;
    }
    var canWrite := CAP_WRITE in p.capability;
    var canSubWrite := CAP_SUBS_WRITE in p.capability;
    var canRead := CAP_READ in p.capability;
    var canSubRead := CAP_SUBS_READ in p.capability;
    if q.output {
      if !canWrite { return false; }
      if q.onlyConnectable && !canSubWrite { return false; }
    }
    if q.input {
      if !canRead { return false; }
      if q.onlyConnectable && !canSubRead { return false; }
    }
    if !q.input && !q.output {
      if q.onlyConnectable {
        if canRead && canSubRead {
        } else if canWrite && canSubWrite {
        } else {
          return false;
        }
      } else if !canRead && !canWrite {
        return false;
      }
    }
    return true;
  }

  lemma {:induction false} SelectAppend(q: Query, a: seq<PortInfo>, b: seq<PortInfo>)
    ensures Select(q, a + b) == Select(q, a) + Select(q, b)
  {
    if b == [] {
      assert a + b == a;
    } else {
      assert (a + b)[..|a + b| - 1] == a + b[..|b| - 1];
      SelectAppend(q, a, b[..|b| - 1]);
    }
  }

  lemma {:induction false} SkippedClient(q: Query, ports: seq<PortInfo>)
    requires forall p :: p in ports ==> !ClientListed(q, p.clientId, p.clientName)
    ensures Select(q, ports) == []
  {
    if ports != [] {
      SkippedClient(q, ports[..|ports| - 1]);
    }
  }

  lemma {:induction false} ErrorOfRest(q: Query, clients: seq<ClientEntry>, stop: int, n: nat)
    requires n <= |clients|
    requires NoError(q, clients[..n])
    ensures FirstError(q, clients, stop) == FirstError(q, clients[n..], stop)
  {
    if n > 0 {
      assert clients[..n][0] == clients[0] && clients[1..][..n - 1] == clients[..n][1..];
      ErrorOfRest(q, clients[1..], stop, n - 1);
      assert clients[1..][n - 1..] == clients[n..];
    }
  }

  /** The inner loop, over the ports of one client. */
  method ClientPorts(q: Query, c: ClientEntry) returns (result: seq<PortInfo>)
    requires ClientListed(q, c.clientId, c.name)
    ensures result == Select(q, PortsOf(c))
  {
    result := [];
    for j := 0 to |c.ports|
      invariant result == Select(q, PortsOf(c)[..j])
    {
      var info := Info(c, c.ports[j]);
      assert PortsOf(c)[..j + 1][..j] == PortsOf(c)[..j];
      var ok := Accepts(q, info);
      if ok {
        result := result + [info];
      }
    }
    assert PortsOf(c)[..|c.ports|] == PortsOf(c);
  }

  /** No client of `clients` that is asked for its ports fails. */
  ghost predicate NoError(q: Query, clients: seq<ClientEntry>) {
    forall i :: 0 <= i < |clients| ==> !Fails(q, clients[i])
  }

  lemma OneMoreSelection(q: Query, clients: seq<ClientEntry>, i: nat)
    requires i < |clients|
    ensures var c := clients[i];
            Select(q, AllPorts(clients[..i + 1])) == Select(q, AllPorts(clients[..i]))
              + if ClientListed(q, c.clientId, c.name) then Select(q, PortsOf(c)) else []
  {
    var c := clients[i];
    assert clients[..i + 1][..i] == clients[..i];
    SelectAppend(q, AllPorts(clients[..i]), PortsOf(c));
    if !ClientListed(q, c.clientId, c.name) {
      SkippedClient(q, PortsOf(c));
    }
  }

  /** What the outer loop has collected from the first `i` clients, none of which failed. */
  ghost predicate SoFar(q: Query, clients: seq<ClientEntry>, i: nat, result: seq<PortInfo>) {
    && i <= |clients| && NoError(q, clients[..i])
    && result == Select(q, AllPorts(clients[..i]))
  }

  lemma OneMoreWithoutError(q: Query, clients: seq<ClientEntry>, i: nat)
    requires i < |clients| && NoError(q, clients[..i]) && !Fails(q, clients[i])
    ensures NoError(q, clients[..i + 1])
  {
    assert forall j :: 0 <= j < i ==> clients[..i + 1][j] == clients[..i][j];
  }

  lemma NextClient(q: Query, clients: seq<ClientEntry>, i: nat, result: seq<PortInfo>)
    requires i < |clients| && SoFar(q, clients, i, result)
    ensures var c := clients[i];
            if !ClientListed(q, c.clientId, c.name) then SoFar(q, clients, i + 1, result)
            else Fails(q, c) || SoFar(q, clients, i + 1, result + Select(q, PortsOf(c)))
  {
    OneMoreSelection(q, clients, i);
    assert result + [] == result;
    if !Fails(q, clients[i]) {
      OneMoreWithoutError(q, clients, i);
    }
  }

  lemma FailureIsFirst(seqr: Sequencer, q: Query, i: nat)
    requires i < |seqr.clients| && NoError(q, seqr.clients[..i]) && Fails(q, seqr.clients[i])
    ensures Collected(seqr, q) == Failure(seqr.clients[i].stop)
  {
    ErrorOfRest(q, seqr.clients, seqr.stop, i);
  }

  lemma AllClients(seqr: Sequencer, q: Query, result: seq<PortInfo>)
    requires SoFar(q, seqr.clients, |seqr.clients|, result)
    ensures Collected(seqr, q) == if seqr.stop == NO_ENTRY then Success(result) else Failure(seqr.stop)
  {
    assert seqr.clients[..|seqr.clients|] == seqr.clients;
    ErrorOfRest(q, seqr.clients, seqr.stop, |seqr.clients|);
  }

  /** Whether the outer loop passes over a client. */
  method Skips(q: Query, c: ClientEntry) returns (skip: bool)
    ensures skip == !ClientListed(q, c.clientId, c.name)
  {
    if c.clientId == 0 && !q.includeSystem {
      return true;
    }
    return c.name == MIDI_THROUGH && !q.includeMidiThrough;
  }

  /** The outer loop, over the clients. */
  method Collect(seqr: Sequencer, q: Query) returns (r: Result<seq<PortInfo>, int>)
    ensures r == Collected(seqr, q)
  {
    var clients := seqr.clients;
    var result: seq<PortInfo> := [];
    var i := 0;
    while i < |clients|
      invariant SoFar(q, clients, i, result)
    {
      NextClient(q, clients, i, result);
      var skip := Skips(q, clients[i]);
      if !skip {
        var ports := ClientPorts(q, clients[i]);
        if clients[i].stop != NO_ENTRY {
          FailureIsFirst(seqr, q, i);
          return Failure(clients[i].stop);
        }
        result := result + ports;
      }
      i := i + 1;
    }
    AllClients(seqr, q, result);
    if seqr.stop != NO_ENTRY {
      return Failure(seqr.stop);
    }
    return Success(result);
  }

  /** `list_ports`. */
  method ListPorts(seqr: Sequencer, q: Query) returns (r: Result<seq<PortInfo>, int>)
    ensures r == Listing(seqr, q)
  {
    r := Collect(seqr, q);
    if r.Success? && q.sorted {
      // An input-only query picks READ_PREFERRED first and RW_PREFERRED, the same list, after that.
      var preferred := READ_PREFERRED;
      if q.output && !q.input {
        preferred := WRITE_PREFERRED;
      } else {
        preferred := RW_PREFERRED;
      }
      r := Success(SortPorts(preferred, r.value));
    }
  }

  /* ---------- The sorted result ---------- */

  /** The kernel gives no address twice. */
  ghost predicate DistinctAddresses(s: seq<PortInfo>) {
    forall i, j :: 0 <= i < j < |s| ==> (s[i].clientId, s[i].portId) != (s[j].clientId, s[j].portId)
  }

  ghost predicate Increasing(preferred: seq<Flags>, s: seq<PortInfo>) {
    forall i, j :: 0 <= i < j < |s| ==> KeyOf(preferred, s[i]).Less(KeyOf(preferred, s[j]))
  }

  lemma LessOrder(a: Key, b: Key, c: Key)
    ensures !a.Less(a)
    ensures a.Less(b) && b.Less(c) ==> a.Less(c)
    ensures a != b ==> a.Less(b) || b.Less(a)
  {}

  ghost predicate SameElements(a: seq<PortInfo>, b: seq<PortInfo>) {
    forall x :: x in a <==> x in b
  }

  lemma PermutationElements(a: seq<PortInfo>, b: seq<PortInfo>)
    requires multiset(a) == multiset(b)
    ensures |a| == |b| && SameElements(a, b)
  {
    assert |multiset(a)| == |multiset(b)|;
    forall x
      ensures x in a <==> x in b
    {
      assert x in a <==> x in multiset(a);
      assert x in b <==> x in multiset(b);
    }
  }

  lemma IncreasingAppend(preferred: seq<Flags>, s: seq<PortInfo>, p: PortInfo)
    requires Increasing(preferred, s)
    requires forall i :: 0 <= i < |s| ==> KeyOf(preferred, s[i]).Less(KeyOf(preferred, p))
    ensures Increasing(preferred, s + [p])
  {}

  lemma {:induction false} InsertIncreasing(preferred: seq<Flags>, p: PortInfo, s: seq<PortInfo>)
    requires Increasing(preferred, s)
    requires forall x :: x in s ==> (x.clientId, x.portId) != (p.clientId, p.portId)
    ensures Increasing(preferred, Insert(preferred, p, s))
  {
    if s != [] {
      var n := |s| - 1;
      var k := KeyOf(preferred, p);
      if k.Less(KeyOf(preferred, s[n])) {
        InsertIncreasing(preferred, p, s[..n]);
        var r := Insert(preferred, p, s[..n]);
        forall i | 0 <= i < |r|
          ensures KeyOf(preferred, r[i]).Less(KeyOf(preferred, s[n]))
        {
          assert r[i] in multiset(r);
          assert r[i] == p || r[i] in s[..n];
        }
        IncreasingAppend(preferred, r, s[n]);
      } else {
        assert s[n] in s;
        forall i | 0 <= i <= n
          ensures KeyOf(preferred, s[i]).Less(k)
        {
          LessOrder(k, KeyOf(preferred, s[n]), k);
          LessOrder(KeyOf(preferred, s[i]), KeyOf(preferred, s[n]), k);
        }
        IncreasingAppend(preferred, s, p);
      }
    }
  }

  lemma {:induction false} SortIncreasing(preferred: seq<Flags>, s: seq<PortInfo>)
    requires DistinctAddresses(s)
    ensures Increasing(preferred, SortPorts(preferred, s))
  {
    if s != [] {
      var n := |s| - 1;
      SortIncreasing(preferred, s[..n]);
      PermutationElements(SortPorts(preferred, s[..n]), s[..n]);
      InsertIncreasing(preferred, s[n], SortPorts(preferred, s[..n]));
    }
  }

  lemma NonEmptyHas(s: seq<PortInfo>)
    ensures s != [] ==> exists x :: x in s
  {
    if s != [] {
      assert s[0] in s;
    }
  }

  /** There is only one increasing arrangement of given ports. */
  lemma {:induction false} IncreasingUnique(preferred: seq<Flags>, a: seq<PortInfo>, b: seq<PortInfo>)
    requires Increasing(preferred, a) && Increasing(preferred, b) && SameElements(a, b)
    ensures a == b
  {
    NonEmptyHas(a);
    NonEmptyHas(b);
    if a != [] && b != [] {
      var m, n := |a| - 1, |b| - 1;
      SameLast(preferred, a, b);
      SameWithoutLast(preferred, a, b);
      IncreasingUnique(preferred, a[..m], b[..n]);
      assert a == a[..m] + [a[m]] && b == b[..n] + [b[n]];
    }
  }

  lemma LastOfIncreasing(preferred: seq<Flags>, s: seq<PortInfo>, p: PortInfo)
    requires s != [] && Increasing(preferred, s) && p in s
    ensures p == s[|s| - 1] || KeyOf(preferred, p).Less(KeyOf(preferred, s[|s| - 1]))
  {}

  lemma SameLast(preferred: seq<Flags>, a: seq<PortInfo>, b: seq<PortInfo>)
    requires a != [] && b != [] && Increasing(preferred, a) && Increasing(preferred, b) && SameElements(a, b)
    ensures a[|a| - 1] == b[|b| - 1]
  {
    var x, y := a[|a| - 1], b[|b| - 1];
    LastOfIncreasing(preferred, a, y);
    LastOfIncreasing(preferred, b, x);
    LessOrder(KeyOf(preferred, x), KeyOf(preferred, y), KeyOf(preferred, x));
  }

  lemma SameWithoutLast(preferred: seq<Flags>, a: seq<PortInfo>, b: seq<PortInfo>)
    requires a != [] && b != [] && Increasing(preferred, a) && Increasing(preferred, b) && SameElements(a, b)
    requires a[|a| - 1] == b[|b| - 1]
    ensures Increasing(preferred, a[..|a| - 1]) && Increasing(preferred, b[..|b| - 1])
    ensures SameElements(a[..|a| - 1], b[..|b| - 1])
  {
    WithoutLast(preferred, a);
    WithoutLast(preferred, b);
    var a1, b1 := a[..|a| - 1], b[..|b| - 1];
    forall p
      ensures p in a1 <==> p in b1
    {
      assert p in a <==> p in b;
    }
  }

  lemma WithoutLast(preferred: seq<Flags>, s: seq<PortInfo>)
    requires s != [] && Increasing(preferred, s)
    ensures Increasing(preferred, s[..|s| - 1])
    ensures forall p :: p in s[..|s| - 1] <==> p in s && p != s[|s| - 1]
  {
    var last := KeyOf(preferred, s[|s| - 1]);
    LessOrder(last, last, last);
  }

  lemma {:induction false} SelectDistinct(q: Query, s: seq<PortInfo>)
    requires DistinctAddresses(s)
    ensures DistinctAddresses(Select(q, s))
  {
    if s != [] {
      var n := |s| - 1;
      SelectDistinct(q, s[..n]);
      var r := Select(q, s[..n]);
      forall p | p in r
        ensures (p.clientId, p.portId) != (s[n].clientId, s[n].portId)
      {
        assert p in s[..n];
        var i :| 0 <= i < n && s[i] == p;
      }
      assert forall i :: 0 <= i < |r| ==> r[i] in r;
    }
  }

  /** No port enumeration the first `n` clients are asked for ends with anything but -ENOENT. */
  ghost predicate RegularUpTo(q: Query, clients: seq<ClientEntry>, n: nat) {
    forall i :: 0 <= i < n && i < |clients| && ClientListed(q, clients[i].clientId, clients[i].name) ==> clients[i].stop == -2
  }

  /** Listing succeeds if and only if every enumeration it makes ends with -ENOENT (-2). Otherwise it raises
      the code of the first one that does not; the ports of skipped clients are never enumerated. */
  lemma ListingFailsIff(seqr: Sequencer, q: Query)
    ensures var r := Listing(seqr, q);
            var n := |seqr.clients|;
            && (r.Success? <==> RegularUpTo(q, seqr.clients, n) && seqr.stop == -2)
            && (r.Failure? && RegularUpTo(q, seqr.clients, n) ==> r.error == seqr.stop)
            && (forall i :: 0 <= i < n && RegularUpTo(q, seqr.clients, i) && !RegularUpTo(q, seqr.clients, i + 1) ==>
                  r == Failure(seqr.clients[i].stop))
  {
    var n := |seqr.clients|;
    if RegularUpTo(q, seqr.clients, n) {
      ErrorOfRest(q, seqr.clients, seqr.stop, n);
    } else {
      FirstIrregular(q, seqr.clients, n);
    }
    forall i | 0 <= i < n && RegularUpTo(q, seqr.clients, i) && !RegularUpTo(q, seqr.clients, i + 1)
      ensures Collected(seqr, q) == Failure(seqr.clients[i].stop)
    {
      assert Fails(q, seqr.clients[i]);
      FailureIsFirst(seqr, q, i);
    }
  }

  lemma {:induction false} FirstIrregular(q: Query, clients: seq<ClientEntry>, n: nat)
    requires n <= |clients| && !RegularUpTo(q, clients, n)
    ensures exists i :: 0 <= i < |clients| && RegularUpTo(q, clients, i) && !RegularUpTo(q, clients, i + 1)
  {
    if RegularUpTo(q, clients, n - 1) {
      assert !RegularUpTo(q, clients, (n - 1) + 1);
    } else {
      FirstIrregular(q, clients, n - 1);
    }
  }

  /** The order of the listing, level by level: "Midi Through" last; the better preferred type first; the
      lower client number first; the lower port number first. */
  predicate ComesBefore(preferred: seq<Flags>, a: PortInfo, b: PortInfo) {
    var ta, tb := Tier(a.portType, preferred), Tier(b.portType, preferred);
    && (a.clientName == "Midi Through" ==> b.clientName == "Midi Through")
    && ((a.clientName == "Midi Through") == (b.clientName == "Midi Through") ==>
          && ta <= tb
          && (ta == tb ==> a.clientId < b.clientId || (a.clientId == b.clientId && a.portId < b.portId)))
  }

  lemma LessComesBefore(preferred: seq<Flags>, a: PortInfo, b: PortInfo)
    ensures KeyOf(preferred, a).Less(KeyOf(preferred, b)) ==> ComesBefore(preferred, a, b)
  {}

  /** Which ports come first, by the weights of the type flags: generic MIDI is 2, General MIDI 4, a
      synthesizer 262144. The full order is for output alone; every other listing knows generic MIDI only. */
  lemma PreferenceOrder(q: Query, t: Flags)
    ensures Tier(t, Preferred(q)) ==
            if q.output && !q.input then
              (if {2, 4, 262144} <= t then 0
               else if {2, 262144} <= t then 1
               else if {2, 4} <= t then 2
               else if 2 in t then 3
               else 4)
            else if 2 in t then 0 else 1
  {
    hide Tier;
    var p, k := Preferred(q), Tier(t, Preferred(q));
    assert {2} <= t <==> 2 in t;
    if q.output && !q.input {
      assert |p| == 4 && p[0] == {2, 4, 262144} && p[1] == {2, 262144} && p[2] == {2, 4} && p[3] == {2};
    } else {
      assert |p| == 1 && p[0] == {2};
    }
  }

  /** The filter by the weights of the capability flags: reading is 1, writing 2, subscribing to read 32, to
      write 64, and 128 keeps a port from being exported. */
  lemma MatchesByWeights(q: Query, p: PortInfo)
    ensures var readable := 1 in p.capability && (q.onlyConnectable ==> 32 in p.capability);
            var writable := 2 in p.capability && (q.onlyConnectable ==> 64 in p.capability);
            Matches(q, p) <==>
              && (q.includeSystem || p.clientId != 0)
              && (q.includeMidiThrough || p.clientName != "Midi Through")
              && (q.includeNoExport || 128 !in p.capability)
              && (forall flag :: flag in q.portType ==> flag in p.portType)
              && (q.input ==> readable) && (q.output ==> writable)
              && (readable || writable)
  {}

  /** The sorted listing is a permutation of exactly the matching ports, strictly increasing by (is
      "Midi Through", preference tier, client id, port id), so the "Midi Through" ports come last. */
  lemma ListingSorted(seqr: Sequencer, q: Query)
    requires DistinctAddresses(AllPorts(seqr.clients)) && q.sorted && Listing(seqr, q).Success?
    ensures var r := Listing(seqr, q).value;
            && multiset(r) == multiset(Select(q, AllPorts(seqr.clients)))
            && (forall p :: p in r <==> p in AllPorts(seqr.clients) && Matches(q, p))
            && Increasing(Preferred(q), r)
            && (forall i, j :: 0 <= i < j < |r| ==> ComesBefore(Preferred(q), r[i], r[j]))
            && (forall i, j :: 0 <= i < j < |r| && r[i].clientName == MIDI_THROUGH ==> r[j].clientName == MIDI_THROUGH)
  {
    var ports := Select(q, AllPorts(seqr.clients));
    SelectDistinct(q, AllPorts(seqr.clients));
    SortIncreasing(Preferred(q), ports);
    var r := SortPorts(Preferred(q), ports);
    forall i, j | 0 <= i < j < |r|
      ensures ComesBefore(Preferred(q), r[i], r[j])
    {
      LessComesBefore(Preferred(q), r[i], r[j]);
    }
    PermutationElements(SortPorts(Preferred(q), ports), ports);
  }

  /** The order in which the kernel enumerates clients and ports does not show in the sorted listing. */
  lemma EnumerationOrderIrrelevant(s1: Sequencer, s2: Sequencer, q: Query)
    requires DistinctAddresses(AllPorts(s1.clients)) && DistinctAddresses(AllPorts(s2.clients))
    requires SameElements(AllPorts(s1.clients), AllPorts(s2.clients))
    requires q.sorted && Listing(s1, q).Success? && Listing(s2, q).Success?
    ensures Listing(s1, q) == Listing(s2, q)
  {
    ListingSorted(s1, q);
    ListingSorted(s2, q);
    IncreasingUnique(Preferred(q), Listing(s1, q).value, Listing(s2, q).value);
  }

  /* ---------- Filter algebra ---------- */

  function Toward(q: Query, input: bool, output: bool): Query {
    q.(input := input, output := output)
  }

  /** Asking for both directions gives the ports both one-way queries give, asking for neither gives
      the ports either of them gives. */
  lemma DirectionAlgebra(seqr: Sequencer, q: Query, p: PortInfo)
    requires Listing(seqr, q).Success?
    ensures Listing(seqr, Toward(q, true, true)).Success? && Listing(seqr, Toward(q, true, false)).Success?
    ensures Listing(seqr, Toward(q, false, true)).Success? && Listing(seqr, Toward(q, false, false)).Success?
    ensures p in Listing(seqr, Toward(q, true, true)).value <==>
              p in Listing(seqr, Toward(q, true, false)).value && p in Listing(seqr, Toward(q, false, true)).value
    ensures p in Listing(seqr, Toward(q, false, false)).value <==>
              p in Listing(seqr, Toward(q, true, false)).value || p in Listing(seqr, Toward(q, false, true)).value
  {
    InListing(seqr, q, Toward(q, true, true), p);
    InListing(seqr, q, Toward(q, true, false), p);
    InListing(seqr, q, Toward(q, false, true), p);
    InListing(seqr, q, Toward(q, false, false), p);
  }

  lemma InListing(seqr: Sequencer, q: Query, q1: Query, p: PortInfo)
    requires Listing(seqr, q).Success? && q1 == Toward(q, q1.input, q1.output)
    ensures Listing(seqr, q1).Success?
    ensures p in Listing(seqr, q1).value <==> p in AllPorts(seqr.clients) && Matches(q1, p)
  {
    SameErrors(q, q1, seqr.clients, seqr.stop);
    var ports := Select(q1, AllPorts(seqr.clients));
    PermutationElements(SortPorts(Preferred(q1), ports), ports);
  }

  lemma {:induction false} SameErrors(q1: Query, q2: Query, clients: seq<ClientEntry>, stop: int)
    requires q1.includeSystem == q2.includeSystem && q1.includeMidiThrough == q2.includeMidiThrough
    ensures FirstError(q1, clients, stop) == FirstError(q2, clients, stop)
  {
    if clients != [] {
      SameErrors(q1, q2, clients[1..], stop);
    }
  }

  lemma {:induction false} SelectIncreasing(preferred: seq<Flags>, q: Query, s: seq<PortInfo>)
    requires Increasing(preferred, s)
    ensures Increasing(preferred, Select(q, s))
  {
    if s != [] {
      var n := |s| - 1;
      SelectIncreasing(preferred, q, s[..n]);
      assert forall p :: p in Select(q, s[..n]) ==> p in s[..n];
      assert forall p :: p in s[..n] ==> KeyOf(preferred, p).Less(KeyOf(preferred, s[n]));
    }
  }

  /** Under default sorting the listings for input, and for input and output, are the listing for
      neither with the other ports left out: order-preserving subsequences. */
  lemma InputListingsAreSubsequences(seqr: Sequencer, q: Query, output: bool)
    requires DistinctAddresses(AllPorts(seqr.clients)) && q.sorted && Listing(seqr, q).Success?
    ensures Listing(seqr, Toward(q, false, false)).Success?
    ensures Listing(seqr, Toward(q, true, output))
         == Success(Select(Toward(q, true, output), Listing(seqr, Toward(q, false, false)).value))
  {
    var q0, q1 := Toward(q, false, false), Toward(q, true, output);
    SameErrors(q, q0, seqr.clients, seqr.stop);
    SameErrors(q, q1, seqr.clients, seqr.stop);
    Narrowed(seqr, q0, q1);
  }

  lemma Narrowed(seqr: Sequencer, q0: Query, q1: Query)
    requires DistinctAddresses(AllPorts(seqr.clients))
    requires q0.sorted && Listing(seqr, q0).Success? && Listing(seqr, q1).Success?
    requires q0 == Toward(q1, false, false) && q1.input
    ensures Listing(seqr, q1).value == Select(q1, Listing(seqr, q0).value)
  {
    ListingSorted(seqr, q0);
    ListingSorted(seqr, q1);
    var r0, r1 := Listing(seqr, q0).value, Listing(seqr, q1).value;
    SelectIncreasing(RW_PREFERRED, q1, r0);
    forall p
      ensures p in r1 <==> p in Select(q1, r0)
    {
      MatchesNeither(q1, p);
    }
    IncreasingUnique(RW_PREFERRED, r1, Select(q1, r0));
  }

  lemma MatchesNeither(q: Query, p: PortInfo)
    ensures Matches(q, p) ==> Matches(Toward(q, false, false), p)
  {}
}
