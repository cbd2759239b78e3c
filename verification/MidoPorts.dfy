/** The mido backend: device names and the lookup of a port by name. */
module MidoPorts {
  import opened Base
  import opened Decimal
  import opened PortListing

  datatype Address = Address(client: int, port: int)

  function AddressOf(p: PortInfo): Address {
    Address(p.clientId, p.portId)
  }

  function AddressText(p: PortInfo): string {
    Text(p.clientId) + ":" + Text(p.portId)
  }

  function ShortName(p: PortInfo): string {
    p.clientName + ":" + p.name
  }

  /** The name `get_devices` reports. */
  function DeviceName(p: PortInfo): string {
    ShortName(p) + " " + AddressText(p)
  }

  datatype Device = Device(name: string, isInput: bool, isOutput: bool)

  function DeviceOf(p: PortInfo): Device {
    Device(DeviceName(p), CAP_READ in p.capability, CAP_WRITE in p.capability)
  }

  method GetDevices(ports: seq<PortInfo>) returns (devices: seq<Device>)
    ensures |devices| == |ports|
    ensures forall i :: 0 <= i < |ports| ==> devices[i] == DeviceOf(ports[i])
  {
    devices := [];
    for i := 0 to |ports|
      invariant |devices| == i
      invariant forall j :: 0 <= j < i ==> devices[j] == DeviceOf(ports[j])
    {
      devices := devices + [DeviceOf(ports[i])];
    }
  }

  /** Whatever client and port are called, names may contain blanks, colons and digits: two ports with
      different addresses have different device names. */
  lemma DeviceNamesDistinct(p: PortInfo, q: PortInfo)
    requires DeviceName(p) == DeviceName(q)
    ensures AddressOf(p) == AddressOf(q)
    ensures ShortName(p) == ShortName(q)
  {
    SplitAtLast(' ', ShortName(p), AddressText(p), ShortName(q), AddressText(q));
    SplitAtLast(':', Text(p.clientId), Text(p.portId), Text(q.clientId), Text(q.portId));
    TextInjective(p.clientId, q.clientId);
    TextInjective(p.portId, q.portId);
  }

  /* ---------- Lookup ---------- */

  /** The four comparisons by name, best first. */
  predicate MatchesTier(tier: nat, name: string, p: PortInfo) {
    match tier
    case 0 => name == DeviceName(p)
    case 1 => name == ShortName(p)
    case 2 => name == p.clientName
    case 3 => name == p.name
    case _ => false
  }

  /** `ports[i]` is the first port a tier matches. */
  ghost predicate IsFirst(ports: seq<PortInfo>, name: string, tier: nat, i: nat) {
    && i < |ports| && MatchesTier(tier, name, ports[i])
    && forall j :: 0 <= j < i ==> !MatchesTier(tier, name, ports[j])
  }

  ghost predicate NoneMatches(ports: seq<PortInfo>, name: string, tier: nat) {
    forall j :: 0 <= j < |ports| ==> !MatchesTier(tier, name, ports[j])
  }

  /** `_find_port` returned the port at `i`, or raised `OSError`. */
  datatype Lookup = At(i: nat) | UnknownPort

  /** What a lookup promises. `addr` is what parsing the name as an ALSA address gives. When there is
      an address it alone decides; otherwise the first port of the best matching tier is found. */
  ghost predicate Finds(ports: seq<PortInfo>, name: string, addr: Option<Address>, r: Lookup) {
    match (addr, r)
    case (Some(a), At(i)) =>
      && i < |ports| && AddressOf(ports[i]) == a
      && forall j :: 0 <= j < i ==> AddressOf(ports[j]) != a
    case (Some(a), UnknownPort) => forall j :: 0 <= j < |ports| ==> AddressOf(ports[j]) != a
    case (None, At(i)) =>
      exists tier: nat :: tier < 4 && IsFirst(ports, name, tier, i)
                          && forall t: nat :: t < tier ==> NoneMatches(ports, name, t)
    case (None, UnknownPort) => forall t: nat :: t < 4 ==> NoneMatches(ports, name, t)
  }

  /** `_find_port`. */
  method FindPort(ports: seq<PortInfo>, name: string, addr: Option<Address>) returns (r: Lookup)
    ensures Finds(ports, name, addr, r)
  {
    if addr.Some? {
      for i := 0 to |ports|
        invariant forall j :: 0 <= j < i ==> AddressOf(ports[j]) != addr.value
      {
        if addr.value == AddressOf(ports[i]) {
          return At(i);
        }
      }
      return UnknownPort;
    }
    for tier := 0 to 4
      invariant forall t: nat :: t < tier ==> NoneMatches(ports, name, t)
    {
      r := FindByName(ports, name, tier);
      if r.At? {
        return;
      }
    }
    return UnknownPort;
  }

  /** One of the loops over the ports. */
  method FindByName(ports: seq<PortInfo>, name: string, tier: nat) returns (r: Lookup)
    ensures r.At? ==> IsFirst(ports, name, tier, r.i)
    ensures r.UnknownPort? ==> NoneMatches(ports, name, tier)
  {
    for i := 0 to |ports|
      invariant forall j :: 0 <= j < i ==> !MatchesTier(tier, name, ports[j])
    {
      if MatchesTier(tier, name, ports[i]) {
        return At(i);
      }
    }
    return UnknownPort;
  }

  /** No port, or the first port, that a name is good for. */
  ghost predicate FirstWith(ports: seq<PortInfo>, good: PortInfo -> bool, r: Lookup) {
    match r
    case At(i) => i < |ports| && good(ports[i]) && forall j :: 0 <= j < i ==> !good(ports[j])
    case UnknownPort => NoneWith(ports, good)
  }

  ghost predicate NoneWith(ports: seq<PortInfo>, good: PortInfo -> bool) {
    forall j :: 0 <= j < |ports| ==> !good(ports[j])
  }

  /** The lookup of a name that is no address, tier by tier: "client:port 20:0", "client:port", the client's
      name, the port's name; a later tier counts only if no port matches an earlier one. */
  lemma FoundByTiers(ports: seq<PortInfo>, name: string, r: Lookup)
    requires Finds(ports, name, None, r)
    ensures var device := (p: PortInfo) => name == p.clientName + ":" + p.name + " " + Text(p.clientId) + ":" + Text(p.portId);
            var full := (p: PortInfo) => name == p.clientName + ":" + p.name;
            var client := (p: PortInfo) => name == p.clientName;
            var port := (p: PortInfo) => name == p.name;
            if !NoneWith(ports, device) then FirstWith(ports, device, r)
            else if !NoneWith(ports, full) then FirstWith(ports, full, r)
            else if !NoneWith(ports, client) then FirstWith(ports, client, r)
            else FirstWith(ports, port, r)
  {
    forall p: PortInfo
      ensures DeviceName(p) == p.clientName + ":" + p.name + " " + Text(p.clientId) + ":" + Text(p.portId)
    {
      assert DeviceName(p) == (p.clientName + ":" + p.name + " ") + (Text(p.clientId) + ":" + Text(p.portId));
    }
    TierIs(ports, name, 0, (p: PortInfo) => name == DeviceName(p));
    TierIs(ports, name, 1, (p: PortInfo) => name == p.clientName + ":" + p.name);
    TierIs(ports, name, 2, (p: PortInfo) => name == p.clientName);
    TierIs(ports, name, 3, (p: PortInfo) => name == p.name);
  }

  /** The lookup of an address: the first port with that client and port number, whatever it is called. */
  lemma FoundByAddress(ports: seq<PortInfo>, name: string, client: int, port: int, r: Lookup)
    requires Finds(ports, name, Some(Address(client, port)), r)
    ensures FirstWith(ports, (p: PortInfo) => p.clientId == client && p.portId == port, r)
  {}

  lemma TierIs(ports: seq<PortInfo>, name: string, tier: nat, good: PortInfo -> bool)
    requires forall p :: good(p) <==> MatchesTier(tier, name, p)
    ensures NoneMatches(ports, name, tier) <==> NoneWith(ports, good)
    ensures forall i: nat :: IsFirst(ports, name, tier, i) <==> FirstWith(ports, good, At(i))
  {}

  /** A device is an input if its port can be read (capability 1) and an output if it can be written (2). */
  lemma DeviceDirections(p: PortInfo)
    ensures DeviceOf(p).isInput <==> 1 in p.capability
    ensures DeviceOf(p).isOutput <==> 2 in p.capability
    ensures DeviceOf(p).name == p.clientName + ":" + p.name + " " + Text(p.clientId) + ":" + Text(p.portId)
  {
    assert DeviceName(p) == (p.clientName + ":" + p.name + " ") + (Text(p.clientId) + ":" + Text(p.portId));
  }

  /** Looking up the device name of a listed port returns exactly that port, if and only if the name
      does not parse as an address, or parses as the address of that port. */
  lemma DeviceFoundIff(ports: seq<PortInfo>, i: nat, addr: Option<Address>, r: Lookup)
    requires i < |ports| && DistinctAddresses(ports)
    requires Finds(ports, DeviceName(ports[i]), addr, r)
    ensures r == At(i) <==> addr.None? || addr.value == AddressOf(ports[i])
  {
    if addr.None? {
      OnlyOneHasTheName(ports, i);
      assert MatchesTier(0, DeviceName(ports[i]), ports[i]);
      assert !NoneMatches(ports, DeviceName(ports[i]), 0);
    }
  }

  lemma OnlyOneHasTheName(ports: seq<PortInfo>, i: nat)
    requires i < |ports| && DistinctAddresses(ports)
    ensures forall j :: 0 <= j < |ports| ==> (MatchesTier(0, DeviceName(ports[i]), ports[j]) <==> j == i)
  {
    forall j | 0 <= j < |ports| && MatchesTier(0, DeviceName(ports[i]), ports[j])
      ensures j == i
    {
      DeviceNamesDistinct(ports[i], ports[j]);
    }
  }

  /** The devices of any sequencer with distinct addresses have pairwise distinct names. */
  lemma ListedDevicesDistinct(seqr: Sequencer, q: Query, i: nat, j: nat)
    requires DistinctAddresses(AllPorts(seqr.clients)) && q.sorted && Listing(seqr, q).Success?
    requires i < |Listing(seqr, q).value| && j < |Listing(seqr, q).value|
    ensures var ports := Listing(seqr, q).value;
            DeviceOf(ports[i]).name == DeviceOf(ports[j]).name <==> i == j
  {
    var ports := Listing(seqr, q).value;
    ListingSorted(seqr, q);
    if i < j {
      IncreasingDiffer(Preferred(q), ports, i, j);
    } else if j < i {
      IncreasingDiffer(Preferred(q), ports, j, i);
    }
    if DeviceName(ports[i]) == DeviceName(ports[j]) {
      DeviceNamesDistinct(ports[i], ports[j]);
      SameAddressSamePort(AllPorts(seqr.clients), ports[i], ports[j]);
    }
  }

  lemma IncreasingDiffer(preferred: seq<Flags>, s: seq<PortInfo>, i: nat, j: nat)
    requires Increasing(preferred, s) && i < j < |s|
    ensures s[i] != s[j]
  {
    LessOrder(KeyOf(preferred, s[i]), KeyOf(preferred, s[i]), KeyOf(preferred, s[i]));
    assert KeyOf(preferred, s[i]).Less(KeyOf(preferred, s[j]));
  }

  lemma SameAddressSamePort(s: seq<PortInfo>, p: PortInfo, q: PortInfo)
    requires DistinctAddresses(s) && p in s && q in s && AddressOf(p) == AddressOf(q)
    ensures p == q
  {
    var i :| 0 <= i < |s| && s[i] == p;
    var j :| 0 <= j < |s| && s[j] == q;
  }
}
