/** The workflow `handle_ruuvi` runs for one device: connect, let the
    library discover every service and characteristic, search them for the
    Device Name characteristic (UUID 2a00), read it, show the name and close.
    Calls into the GATT library are recorded as actions; what the library
    does with them is not part of this model. */
module GattWorkflow {
  import opened Ble

  /** The Device Name characteristic, UUID 2a00. */
  const DeviceNameUuid: Uuid := FromShort(0x2a00)

  datatype Characteristic = Characteristic(uuid: Uuid)

  datatype Service = Service(uuid: Uuid, characteristics: seq<Characteristic>)

  /** A characteristic by service index and index within that service. */
  datatype Position = Position(service: nat, characteristic: nat)

  /** A line of the discovery trace: "  Service: <uuid>" or "     Char: <uuid>". */
  datatype Visit = ServiceVisit(uuid: Uuid) | CharVisit(uuid: Uuid)

  /** What the workflow asks of the GATT library or shows, in order. */
  datatype GattAction =
    | Connect(address: Address)        // connect_blocking in LE mode
    | AttachNameReader(at: Position)   // set the characteristic's read callback
    | ReadRequest(at: Position)        // read_request on that characteristic
    | ReportNoName                     // "No device name found."
    | ShowName(name: string)           // "Hello, my name is: ..."
    | Close                            // close the session

  // ---------------------------------------------------------------------
  // Where the Device Name characteristic is

  predicate IsNameAt(services: seq<Service>, s: int, c: int) {
    && 0 <= s < |services|
    && 0 <= c < |services[s].characteristics|
    && services[s].characteristics[c].uuid == DeviceNameUuid
  }

  ghost predicate HasDeviceName(services: seq<Service>) {
    exists s, c :: IsNameAt(services, s, c)
  }

  /** `p` is the first Device Name characteristic in discovery order among
      the services from index `from` on: services in order, characteristics
      in order within a service. */
  ghost predicate IsFirstMatchFrom(services: seq<Service>, from: nat, p: Position) {
    && from <= p.service
    && IsNameAt(services, p.service, p.characteristic)
    && forall s, c :: from <= s && IsNameAt(services, s, c) ==>
         p.service < s || (p.service == s && p.characteristic <= c)
  }

  ghost predicate IsFirstMatch(services: seq<Service>, p: Position) {
    IsFirstMatchFrom(services, 0, p)
  }

  /** The first index at or after `from` whose characteristic is Device Name. */
  function NameIndexFrom(chars: seq<Characteristic>, from: nat): (r: Option<nat>)
    ensures r.None? <==> forall c :: from <= c < |chars| ==> chars[c].uuid != DeviceNameUuid
    ensures r.Some? ==> from <= r.value < |chars| && chars[r.value].uuid == DeviceNameUuid
    ensures r.Some? ==> forall c :: from <= c < r.value ==> chars[c].uuid != DeviceNameUuid
    decreases |chars| - from
  {
    if from >= |chars| then None
    else if chars[from].uuid == DeviceNameUuid then Some(from)
    else NameIndexFrom(chars, from + 1)
  }

  /** The first Device Name characteristic in the services from `from` on. */
  function FirstNameFrom(services: seq<Service>, from: nat): (r: Option<Position>)
    ensures r.None? <==> forall s, c :: from <= s ==> !IsNameAt(services, s, c)
    ensures r.Some? ==> IsFirstMatchFrom(services, from, r.value)
    decreases |services| - from
  {
    if from >= |services| then None
    else
      match NameIndexFrom(services[from].characteristics, 0)
      case Some(c) =>
        assert IsNameAt(services, from, c);
        Some(Position(from, c))
      case None => FirstNameFrom(services, from + 1)
  }

  /** The characteristic whose name the workflow reads, if there is one. */
  function FirstDeviceName(services: seq<Service>): (r: Option<Position>)
    ensures r.None? <==> !HasDeviceName(services)
    ensures r.Some? ==> IsFirstMatch(services, r.value)
  {
    FirstNameFrom(services, 0)
  }

  /** Two services that both hold a Device Name characteristic: only the one
      met first in discovery order is chosen. */
  lemma FirstServiceWins(services: seq<Service>, s1: nat, c1: nat, s2: nat, c2: nat)
    requires s1 < s2
    requires IsNameAt(services, s1, c1) && IsNameAt(services, s2, c2)
    ensures FirstDeviceName(services).Some?
    ensures FirstDeviceName(services).value.service <= s1
    ensures FirstDeviceName(services).value != Position(s2, c2)
  {
  }

  // ---------------------------------------------------------------------
  // The discovery trace

  function CharVisits(chars: seq<Characteristic>): (v: seq<Visit>)
    ensures |v| == |chars|
  {
    seq(|chars|, k requires 0 <= k < |chars| => CharVisit(chars[k].uuid))
  }

  function ServiceVisits(svc: Service): seq<Visit> {
    [ServiceVisit(svc.uuid)] + CharVisits(svc.characteristics)
  }

  /** Every line a full walk over `services` prints. */
  function Visits(services: seq<Service>): seq<Visit>
    decreases |services|
  {
    if services == [] then []
    else Visits(services[..|services| - 1]) + ServiceVisits(services[|services| - 1])
  }

  /** The lines of a walk that stops right after the characteristic at `p`. */
  function WalkTo(services: seq<Service>, p: Position): seq<Visit>
    requires p.service < |services| && p.characteristic < |services[p.service].characteristics|
  {
    Visits(services[..p.service])
    + [ServiceVisit(services[p.service].uuid)]
    + CharVisits(services[p.service].characteristics[..p.characteristic + 1])
  }

  /** The lines the search prints: the full walk when there is no Device Name
      characteristic, otherwise the walk up to and including the first one. */
  function VisitTrace(services: seq<Service>): seq<Visit> {
    match FirstDeviceName(services)
    case None => Visits(services)
    case Some(p) => WalkTo(services, p)
  }

  lemma VisitsExtend(services: seq<Service>, s: nat)
    requires s < |services|
    ensures Visits(services[..s + 1])
         == Visits(services[..s]) + [ServiceVisit(services[s].uuid)] + CharVisits(services[s].characteristics)
  {
    assert services[..s + 1][..s] == services[..s];
  }

  /** The search reaches service `s` with no match before it and finds the
      Device Name characteristic at index `c` of that service: that is the
      first match, and the search stops there. */
  lemma StopsInService(services: seq<Service>, s: nat, c: nat)
    requires s < |services|
    requires FirstNameFrom(services, s) == FirstDeviceName(services)
    requires NameIndexFrom(services[s].characteristics, 0) == Some(c)
    ensures FirstDeviceName(services) == Some(Position(s, c))
    ensures VisitTrace(services) == WalkTo(services, Position(s, c))
  {
  }

  /** No match in service `s`: the search goes on with the next service. */
  lemma PassesService(services: seq<Service>, s: nat)
    requires s < |services|
    requires FirstNameFrom(services, s) == FirstDeviceName(services)
    requires NameIndexFrom(services[s].characteristics, 0) == None
    ensures FirstNameFrom(services, s + 1) == FirstDeviceName(services)
  {
  }

  /** The inner loop of the discovery callback over one service's
      characteristics: it prints each one and stops right after the first
      Device Name characteristic. */
  method WalkCharacteristics(chars: seq<Characteristic>) returns (hit: Option<nat>, lines: seq<Visit>)
    ensures hit == NameIndexFrom(chars, 0)
    ensures lines == CharVisits(if hit.Some? then chars[..hit.value + 1] else chars)
  {
    lines := [];
    var c := 0;
    while c < |chars|
      invariant 0 <= c <= |chars|
      invariant NameIndexFrom(chars, c) == NameIndexFrom(chars, 0)
      invariant lines == CharVisits(chars[..c])
    {
      assert CharVisits(chars[..c + 1]) == CharVisits(chars[..c]) + [CharVisit(chars[c].uuid)];
      lines := lines + [CharVisit(chars[c].uuid)];
      if chars[c].uuid == DeviceNameUuid {
        return Some(c), lines;
      }
      c := c + 1;
    }
    assert chars[..c] == chars;
    hit := None;
  }

  /** The callback run once discovery completes (the lambda
      `found_services_and_characteristics_cb`). It walks services, then
      characteristics, printing each; at the first Device Name characteristic
      it attaches the name reader, issues the read and leaves both loops at
      once (the `goto`); without one it reports the miss and closes. */
  method FindDeviceName(services: seq<Service>)
    returns (found: Option<Position>, visited: seq<Visit>, actions: seq<GattAction>)
    ensures found == FirstDeviceName(services)
    ensures visited == VisitTrace(services)
    ensures actions == DiscoveryActions(found)
  {
    visited := [];
    var s := 0;
    while s < |services|
      invariant 0 <= s <= |services|
      invariant FirstNameFrom(services, s) == FirstDeviceName(services)
      invariant visited == Visits(services[..s])
    {
      var hit, lines := WalkCharacteristics(services[s].characteristics);
      if hit.Some? {
        StopsInService(services, s, hit.value);
        found := Some(Position(s, hit.value));
        visited := visited + [ServiceVisit(services[s].uuid)] + lines;
        actions := [AttachNameReader(found.value), ReadRequest(found.value)];
        return;
      }
      PassesService(services, s);
      VisitsExtend(services, s);
      assert lines == CharVisits(services[s].characteristics);
      visited := visited + [ServiceVisit(services[s].uuid)] + lines;
      s := s + 1;
    }
    assert services[..s] == services;
    found := None;
    actions := [ReportNoName, Close];
  }

  /** A characteristic line for `u` is printed only if some service holds a
      characteristic with that UUID. */
  lemma {:induction false} CharVisitHasSource(services: seq<Service>, u: Uuid)
    requires CharVisit(u) in Visits(services)
    ensures exists s, c :: 0 <= s < |services| && 0 <= c < |services[s].characteristics|
                        && services[s].characteristics[c].uuid == u
    decreases |services|
  {
    var init, last := services[..|services| - 1], services[|services| - 1];
    if CharVisit(u) in Visits(init) {
      CharVisitHasSource(init, u);
      var s, c :| 0 <= s < |init| && 0 <= c < |init[s].characteristics| && init[s].characteristics[c].uuid == u;
      assert services[s] == init[s];
    } else {
      assert CharVisit(u) in ServiceVisits(last);
      var k :| 0 <= k < |CharVisits(last.characteristics)| && CharVisits(last.characteristics)[k] == CharVisit(u);
      assert last.characteristics[k].uuid == u;
    }
  }

  /** Walking the first `n` services prints a prefix of the full walk. */
  lemma {:induction false} VisitsPrefix(services: seq<Service>, n: nat)
    requires n <= |services|
    ensures Visits(services[..n]) <= Visits(services)
    decreases |services|
  {
    if n < |services| {
      var init := services[..|services| - 1];
      assert services[..n] == init[..n];
      VisitsPrefix(init, n);
    } else {
      assert services[..n] == services;
    }
  }

  /** No Device Name line is printed for the services before the first
      Device Name characteristic. */
  lemma NoNameLineBefore(services: seq<Service>, p: Position)
    requires IsFirstMatch(services, p)
    ensures CharVisit(DeviceNameUuid) !in Visits(services[..p.service])
    ensures CharVisit(DeviceNameUuid) !in CharVisits(services[p.service].characteristics[..p.characteristic])
  {
    var before := services[..p.service];
    if CharVisit(DeviceNameUuid) in Visits(before) {
      CharVisitHasSource(before, DeviceNameUuid);
      var s, c :| 0 <= s < |before| && 0 <= c < |before[s].characteristics|
                  && before[s].characteristics[c].uuid == DeviceNameUuid;
      assert IsNameAt(services, s, c);
    }
    var chars := services[p.service].characteristics[..p.characteristic];
    if CharVisit(DeviceNameUuid) in CharVisits(chars) {
      var k :| 0 <= k < |chars| && CharVisits(chars)[k] == CharVisit(DeviceNameUuid);
      assert IsNameAt(services, p.service, k);
    }
  }

  /** The walk stopped right after the characteristic at `p` is a prefix of
      the full walk. */
  lemma WalkToIsPrefix(services: seq<Service>, p: Position)
    requires p.service < |services| && p.characteristic < |services[p.service].characteristics|
    ensures WalkTo(services, p) <= Visits(services)
  {
    var s, c := p.service, p.characteristic;
    var chars := services[s].characteristics;
    var head := Visits(services[..s]) + [ServiceVisit(services[s].uuid)];
    assert services[..s + 1][..s] == services[..s];
    assert Visits(services[..s + 1]) == head + CharVisits(chars);
    assert CharVisits(chars[..c + 1]) == CharVisits(chars)[..c + 1];
    assert WalkTo(services, p) == Visits(services[..s + 1])[..|head| + c + 1];
    VisitsPrefix(services, s + 1);
  }

  /** The walk up to and including the first Device Name characteristic `p`
      ends with its line and holds no earlier Device Name line. */
  lemma WalkEndsAtFirstName(services: seq<Service>, p: Position)
    requires IsFirstMatch(services, p)
    ensures |WalkTo(services, p)| > 0
    ensures WalkTo(services, p)[|WalkTo(services, p)| - 1] == CharVisit(DeviceNameUuid)
    ensures CharVisit(DeviceNameUuid) !in WalkTo(services, p)[..|WalkTo(services, p)| - 1]
  {
    var chars := services[p.service].characteristics;
    var head := Visits(services[..p.service]) + [ServiceVisit(services[p.service].uuid)];
    var t := WalkTo(services, p);
    assert CharVisits(chars[..p.characteristic + 1])
        == CharVisits(chars[..p.characteristic]) + [CharVisit(DeviceNameUuid)];
    assert t[..|t| - 1] == head + CharVisits(chars[..p.characteristic]);
    NoNameLineBefore(services, p);
  }

  /** The search prints a prefix of the full walk: all of it when no
      characteristic is Device Name, otherwise the walk up to the first
      Device Name line, which it ends with and holds only once. */
  lemma VisitTraceStopsAtFirstName(services: seq<Service>)
    ensures VisitTrace(services) <= Visits(services)
    ensures FirstDeviceName(services).None? ==> VisitTrace(services) == Visits(services)
    ensures FirstDeviceName(services).Some? ==>
              var t := VisitTrace(services);
              |t| > 0 && t[|t| - 1] == CharVisit(DeviceNameUuid) && CharVisit(DeviceNameUuid) !in t[..|t| - 1]
  {
    var found := FirstDeviceName(services);
    if found.Some? {
      assert VisitTrace(services) == WalkTo(services, found.value);
      WalkToIsPrefix(services, found.value);
      WalkEndsAtFirstName(services, found.value);
    }
  }

  // ---------------------------------------------------------------------
  // The actions of one session

  /** What the discovery callback asks of the library: on a hit, attach the
      name reader to the found characteristic and read it; on a miss, report
      it and close. */
  function DiscoveryActions(found: Option<Position>): (a: seq<GattAction>)
    ensures |a| == 2
    ensures (exists k :: 0 <= k < |a| && a[k].ReadRequest?) <==> found.Some?
    ensures forall k :: 0 <= k < |a| && a[k].ReadRequest? ==> a[k].at == found.value && 0 < k && a[k - 1] == AttachNameReader(a[k].at)
    ensures Close in a <==> found.None?
    ensures ReportNoName in a <==> found.None?
    ensures found.None? ==> a == [ReportNoName, Close]
  {
    match found
    case Some(p) =>
      var a := [AttachNameReader(p), ReadRequest(p)];
      assert a[1].ReadRequest?;
      a
    case None => [ReportNoName, Close]
  }

  /** The text made from the bytes of the read response, one character per
      byte. */
  function DecodeName(value: seq<bv8>): (name: string)
    ensures |name| == |value|
    ensures forall k :: 0 <= k < |value| ==> name[k] as int == value[k] as int
  {
    seq(|value|, k requires 0 <= k < |value| => (value[k] as int) as char)
  }

  /** The bytes of a text whose characters are all below 256. */
  function EncodeName(name: string): (value: seq<bv8>)
    requires forall k :: 0 <= k < |name| ==> name[k] as int < 256
    ensures |value| == |name|
  {
    seq(|name|, k requires 0 <= k < |name| => (name[k] as int) as bv8)
  }

  /** Decoding keeps every byte of the response. */
  lemma DecodeKeepsBytes(value: seq<bv8>)
    ensures forall k :: 0 <= k < |DecodeName(value)| ==> DecodeName(value)[k] as int < 256
    ensures EncodeName(DecodeName(value)) == value
  {
  }

  /** The read callback attached to the Device Name characteristic: show the
      name, then close. */
  function NameReadActions(value: seq<bv8>): (a: seq<GattAction>)
    ensures |a| == 2 && a[0].ShowName? && a[1] == Close
    ensures |a[0].name| == |value| && forall k :: 0 <= k < |value| ==> a[0].name[k] as int == value[k] as int
  {
    [ShowName(DecodeName(value)), Close]
  }

  /** A whole session with the device at `address`: the connection, the
      discovery callback and, when a read was issued and `reply` holds its
      response, the read callback. */
  function SessionActions(address: Address, services: seq<Service>, reply: Option<seq<bv8>>): (a: seq<GattAction>)
    ensures |a| >= 3 && a[0] == Connect(address)
    ensures forall k :: 0 < k < |a| ==> !a[k].Connect?
    ensures a[|a| - 1] == Close <==> FirstDeviceName(services).None? || reply.Some?
    ensures FirstDeviceName(services).Some? && reply.Some? ==> a[|a| - 2] == ShowName(DecodeName(reply.value))
  {
    var found := FirstDeviceName(services);
    [Connect(address)]
    + DiscoveryActions(found)
    + (if found.Some? && reply.Some? then NameReadActions(reply.value) else [])
  }

  /** A read is issued exactly when some characteristic is Device Name, at
      most once, and on the first one. */
  lemma SessionReadsOnce(address: Address, services: seq<Service>, reply: Option<seq<bv8>>)
    ensures var a := SessionActions(address, services, reply);
      (exists k :: 0 <= k < |a| && a[k].ReadRequest?) <==> HasDeviceName(services)
    ensures var a := SessionActions(address, services, reply);
      forall j, k :: 0 <= j < |a| && 0 <= k < |a| && a[j].ReadRequest? && a[k].ReadRequest? ==> j == k
    ensures var a := SessionActions(address, services, reply);
      forall k :: 0 <= k < |a| && a[k].ReadRequest? ==> IsFirstMatch(services, a[k].at)
  {
    var a := SessionActions(address, services, reply);
    var found := FirstDeviceName(services);
    if found.Some? {
      var tail := if reply.Some? then NameReadActions(reply.value) else [];
      assert a == [Connect(address), AttachNameReader(found.value), ReadRequest(found.value)] + tail;
      assert a[2].ReadRequest?;
    } else {
      assert a == [Connect(address), ReportNoName, Close];
    }
  }

  /** Without a read, close is requested exactly once; with one, close is
      requested only by the read callback, right after the name is shown. */
  lemma SessionClosesOnce(address: Address, services: seq<Service>, reply: Option<seq<bv8>>)
    ensures var a := SessionActions(address, services, reply);
      forall j, k :: 0 <= j < |a| && 0 <= k < |a| && a[j] == Close && a[k] == Close ==> j == k
    ensures var a := SessionActions(address, services, reply);
      (exists k :: 0 <= k < |a| && a[k] == Close) <==> !HasDeviceName(services) || reply.Some?
    ensures var a := SessionActions(address, services, reply);
      HasDeviceName(services) ==> forall k :: 0 <= k < |a| && a[k] == Close ==> 0 < k && a[k - 1].ShowName?
  {
    var a := SessionActions(address, services, reply);
    var found := FirstDeviceName(services);
    if found.None? {
      assert a == [Connect(address), ReportNoName, Close];
      assert a[2] == Close;
    } else if reply.Some? {
      assert a == [Connect(address), AttachNameReader(found.value), ReadRequest(found.value),
                   ShowName(DecodeName(reply.value)), Close];
      assert a[4] == Close;
    } else {
      assert a == [Connect(address), AttachNameReader(found.value), ReadRequest(found.value)];
    }
  }

  // ---------------------------------------------------------------------
  // Disconnection

  /** Why the library ended a session; only a normal close is told apart. */
  datatype DisconnectReason = ConnectionClosed | OtherReason(code: nat)

  /** What the disconnect callback returns and whether it logs the reason. */
  datatype DisconnectOutcome = DisconnectOutcome(status: int, logged: Option<DisconnectReason>)

  /** The disconnect callback: 0 for a normal close; for any other reason the
      reason is logged and the result is 1. */
  function OnDisconnect(reason: DisconnectReason): (r: DisconnectOutcome)
    ensures r.status == 0 || r.status == 1
    ensures r.status == 0 <==> reason == ConnectionClosed
    ensures r.logged.Some? <==> r.status == 1
    ensures r.logged.Some? ==> r.logged.value == reason
  {
    if reason != ConnectionClosed then DisconnectOutcome(1, Some(reason))
    else DisconnectOutcome(0, None)
  }
}
