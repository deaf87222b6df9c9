/** The discovery loop of `main`: each wake-up of the wait on the scanner is
    either an interrupt, which ends the loop, a timeout, which advances the
    throbber, or a batch of advertising records, each of which is described
    on the console and, when it advertises the target service, handed to the
    GATT workflow. The console lines and the workflow calls are recorded as
    one trace of events. */
module ScanLoop {
  import opened Ble
  import opened Advertising

  /** What one turn of the loop leaves behind, in order. */
  datatype Event =
    | Found(address: Address, kind: DeviceKind) // "Found device: ..."
    | Name(name: string)                        // "  Name: ..."
    | Signal(rssi: RssiReading)                 // the RSSI line
    | Advertised(uuid: Uuid)                    // "  Service: ..."
    | HandleTag(address: Address)               // a call of the GATT workflow
    | Tick(glyph: char)                         // one throbber frame

  /** The outcome of one wait on the scanner's descriptor. */
  datatype Wake = Interrupted | Ready(records: seq<Record>) | Timeout

  /** The throbber frames, shown one per timeout. */
  const Throbber: string := "/|\\-"

  /** The frame shown by turn `i` of the loop. */
  function Frame(i: nat): char {
    Throbber[i % 4]
  }

  // ---------------------------------------------------------------------
  // One record

  /** The lines before the service list: device and kind, the name when the
      record carries one, and the RSSI. */
  function RecordHeader(ad: Record): seq<Event> {
    [Found(ad.address, KindOf(ad.eventType))]
    + (if ad.localName.Some? then [Name(ad.localName.value)] else [])
    + [Signal(ClassifyRssi(ad.rssi))]
  }

  /** One advertised UUID: its line, then a workflow call if it is the target. */
  function UuidStep(address: Address, u: Uuid, target: Uuid): seq<Event> {
    [Advertised(u)] + (if u == target then [HandleTag(address)] else [])
  }

  /** The chunks of a trace, one after the other. */
  function Concat(chunks: seq<seq<Event>>): seq<Event>
    decreases |chunks|
  {
    if chunks == [] then []
    else Concat(chunks[..|chunks| - 1]) + chunks[|chunks| - 1]
  }

  lemma ConcatExtend(chunks: seq<seq<Event>>, n: nat)
    requires n < |chunks|
    ensures Concat(chunks[..n + 1]) == Concat(chunks[..n]) + chunks[n]
  {
    assert chunks[..n + 1][..n] == chunks[..n];
  }

  function UuidChunks(address: Address, uuids: seq<Uuid>, target: Uuid): seq<seq<Event>> {
    seq(|uuids|, k requires 0 <= k < |uuids| => UuidStep(address, uuids[k], target))
  }

  /** The service lines of a record with the workflow calls among them. */
  function UuidEvents(address: Address, uuids: seq<Uuid>, target: Uuid): seq<Event> {
    Concat(UuidChunks(address, uuids, target))
  }

  lemma UuidEventsExtend(address: Address, uuids: seq<Uuid>, k: nat, target: Uuid)
    requires k < |uuids|
    ensures UuidEvents(address, uuids[..k + 1], target)
         == UuidEvents(address, uuids[..k], target) + UuidStep(address, uuids[k], target)
  {
    var chunks := UuidChunks(address, uuids[..k + 1], target);
    assert chunks[..k] == UuidChunks(address, uuids[..k], target);
    ConcatExtend(chunks, k);
    assert chunks[..k + 1] == chunks;
  }

  function RecordEvents(ad: Record, target: Uuid): seq<Event> {
    RecordHeader(ad) + UuidEvents(ad.address, ad.uuids, target)
  }

  /** The body of the loop over the records of one batch. The UUID loop
      appends a workflow call for every UUID equal to the target, without
      leaving the loop after a match. */
  method ProcessRecord(ad: Record, target: Uuid) returns (out: seq<Event>)
    ensures out == RecordEvents(ad, target)
  {
    out := [Found(ad.address, KindOf(ad.eventType))];
    if ad.localName.Some? {
      out := out + [Name(ad.localName.value)];
    }
    out := out + [Signal(ClassifyRssi(ad.rssi))];
    var k := 0;
    while k < |ad.uuids|
      invariant 0 <= k <= |ad.uuids|
      invariant out == RecordHeader(ad) + UuidEvents(ad.address, ad.uuids[..k], target)
    {
      UuidEventsExtend(ad.address, ad.uuids, k, target);
      out := out + [Advertised(ad.uuids[k])];
      if ad.uuids[k] == target {
        out := out + [HandleTag(ad.address)];
      }
      k := k + 1;
    }
    assert ad.uuids[..k] == ad.uuids;
  }

  // ---------------------------------------------------------------------
  // The loop

  function RecordChunks(ads: seq<Record>, target: Uuid): seq<seq<Event>> {
    seq(|ads|, k requires 0 <= k < |ads| => RecordEvents(ads[k], target))
  }

  /** The lines and calls of a batch of records, in delivery order. */
  function RecordsEvents(ads: seq<Record>, target: Uuid): seq<Event> {
    Concat(RecordChunks(ads, target))
  }

  lemma RecordsEventsExtend(ads: seq<Record>, k: nat, target: Uuid)
    requires k < |ads|
    ensures RecordsEvents(ads[..k + 1], target) == RecordsEvents(ads[..k], target) + RecordEvents(ads[k], target)
  {
    var chunks := RecordChunks(ads[..k + 1], target);
    assert chunks[..k] == RecordChunks(ads[..k], target);
    ConcatExtend(chunks, k);
    assert chunks[..k + 1] == chunks;
  }

  /** What the `i`-th turn of the loop does with its wake-up. */
  function WakeEvents(w: Wake, i: nat, target: Uuid): seq<Event> {
    match w
    case Interrupted => []
    case Ready(ads) => RecordsEvents(ads, target)
    case Timeout => [Tick(Frame(i))]
  }

  function WakeChunks(ws: seq<Wake>, target: Uuid): seq<seq<Event>> {
    seq(|ws|, k requires 0 <= k < |ws| => WakeEvents(ws[k], k, target))
  }

  /** The trace of the turns for the wake-ups `ws`, the first being turn 0. */
  function LoopTrace(ws: seq<Wake>, target: Uuid): seq<Event> {
    Concat(WakeChunks(ws, target))
  }

  lemma LoopTraceExtend(ws: seq<Wake>, k: nat, target: Uuid)
    requires k < |ws|
    ensures LoopTrace(ws[..k + 1], target) == LoopTrace(ws[..k], target) + WakeEvents(ws[k], k, target)
  {
    var chunks := WakeChunks(ws[..k + 1], target);
    assert chunks[..k] == WakeChunks(ws[..k], target);
    ConcatExtend(chunks, k);
    assert chunks[..k + 1] == chunks;
  }

  /** The loop over the records of one ready batch, in delivery order. */
  method ProcessBatch(ads: seq<Record>, target: Uuid) returns (out: seq<Event>)
    ensures out == RecordsEvents(ads, target)
  {
    out := [];
    for j := 0 to |ads|
      invariant out == RecordsEvents(ads[..j], target)
    {
      RecordsEventsExtend(ads, j, target);
      var lines := ProcessRecord(ads[j], target);
      out := out + lines;
    }
    assert ads[..|ads|] == ads;
  }

  /** One turn of the loop after a wake-up that was not an interrupt: drain
      and describe the ready records, or show the next throbber frame. */
  method Turn(w: Wake, i: nat, target: Uuid) returns (lines: seq<Event>)
    requires !w.Interrupted?
    ensures lines == WakeEvents(w, i, target)
  {
    if w.Ready? {
      lines := ProcessBatch(w.records, target);
    } else {
      lines := [Tick(Frame(i))];
    }
  }

  /** The `while (1)` loop of `main`, run against the wake-ups `wakes` (the
      real loop waits forever; here it also stops when `wakes` runs out).
      `i` counts the turns that were not interrupted and ends at the first
      interrupt; nothing after the interrupt has any effect. */
  method RunLoop(wakes: seq<Wake>, target: Uuid) returns (i: nat, out: seq<Event>)
    ensures i <= |wakes|
    ensures forall k :: 0 <= k < i ==> !wakes[k].Interrupted?
    ensures i < |wakes| ==> wakes[i].Interrupted?
    ensures out == LoopTrace(wakes[..i], target)
  {
    i := 0;
    out := [];
    while i < |wakes|
      invariant 0 <= i <= |wakes|
      invariant forall k :: 0 <= k < i ==> !wakes[k].Interrupted?
      invariant out == LoopTrace(wakes[..i], target)
    {
      if wakes[i].Interrupted? {
        break;
      }
      var lines := Turn(wakes[i], i, target);
      LoopTraceExtend(wakes, i, target);
      out := out + lines;
      i := i + 1;
    }
  }

  // ---------------------------------------------------------------------
  // Properties

  /** The addresses handed to the GATT workflow, in the order of the calls. */
  function Handled(es: seq<Event>): seq<Address>
    decreases |es|
  {
    if es == [] then []
    else Handled(es[..|es| - 1]) + (if es[|es| - 1].HandleTag? then [es[|es| - 1].address] else [])
  }

  function Repeat(a: Address, n: nat): (r: seq<Address>)
    ensures |r| == n && forall k :: 0 <= k < n ==> r[k] == a
  {
    seq(n, _ => a)
  }

  /** The calls that the loop over `ws` should make, stated record by record:
      each record's address once per occurrence of the target among its
      UUIDs, records in the order the scanner delivered them. */
  function ExpectedCalls(ws: seq<Wake>, target: Uuid): seq<Address>
    decreases |ws|
  {
    if ws == [] then []
    else
      ExpectedCalls(ws[..|ws| - 1], target)
      + match ws[|ws| - 1]
        case Ready(ads) => RecordsCalls(ads, target)
        case _ => []
  }

  function RecordsCalls(ads: seq<Record>, target: Uuid): seq<Address>
    decreases |ads|
  {
    if ads == [] then []
    else
      var ad := ads[|ads| - 1];
      RecordsCalls(ads[..|ads| - 1], target) + Repeat(ad.address, multiset(ad.uuids)[target])
  }

  lemma {:induction false} HandledAppend(a: seq<Event>, b: seq<Event>)
    ensures Handled(a + b) == Handled(a) + Handled(b)
    decreases |b|
  {
    if b == [] {
      assert a + b == a;
    } else {
      var b' := b[..|b| - 1];
      assert (a + b)[..|a + b| - 1] == a + b';
      HandledAppend(a, b');
    }
  }

  lemma {:induction false} HandledNone(es: seq<Event>)
    requires forall k :: 0 <= k < |es| ==> !es[k].HandleTag?
    ensures Handled(es) == []
    decreases |es|
  {
    if es != [] {
      HandledNone(es[..|es| - 1]);
    }
  }

  lemma HandledOne(e: Event)
    ensures Handled([e]) == if e.HandleTag? then [e.address] else []
  {
    assert [e][..0] == [];
  }

  /** One UUID line leads to a workflow call exactly when it is the target. */
  lemma UuidStepCalls(address: Address, u: Uuid, target: Uuid)
    ensures Handled(UuidStep(address, u, target)) == if u == target then [address] else []
  {
    HandledOne(Advertised(u));
    HandledOne(HandleTag(address));
    HandledAppend([Advertised(u)], if u == target then [HandleTag(address)] else []);
  }

  lemma Occurrences(uuids: seq<Uuid>, target: Uuid)
    requires uuids != []
    ensures multiset(uuids)[target]
         == multiset(uuids[..|uuids| - 1])[target] + if uuids[|uuids| - 1] == target then 1 else 0
  {
    assert uuids == uuids[..|uuids| - 1] + [uuids[|uuids| - 1]];
  }

  lemma RepeatOneMore(a: Address, n: nat, more: bool)
    ensures Repeat(a, n) + (if more then [a] else []) == Repeat(a, n + if more then 1 else 0)
  {
  }

  /** Within one record the workflow is called once per occurrence of the
      target UUID, and never when the target is absent. */
  lemma {:induction false} UuidCalls(address: Address, uuids: seq<Uuid>, target: Uuid)
    ensures Handled(UuidEvents(address, uuids, target)) == Repeat(address, multiset(uuids)[target])
    decreases |uuids|
  {
    if uuids != [] {
      var init, u := uuids[..|uuids| - 1], uuids[|uuids| - 1];
      var before := UuidEvents(address, init, target);
      UuidEventsExtend(address, uuids, |uuids| - 1, target);
      assert uuids[..|uuids|] == uuids;
      assert UuidEvents(address, uuids, target) == before + UuidStep(address, u, target);
      UuidCalls(address, init, target);
      HandledAppend(before, UuidStep(address, u, target));
      UuidStepCalls(address, u, target);
      RepeatOneMore(address, multiset(init)[target], u == target);
      Occurrences(uuids, target);
    }
  }

  /** The lines before the service list never call the workflow. */
  lemma HeaderCalls(ad: Record)
    ensures Handled(RecordHeader(ad)) == []
  {
    var h := RecordHeader(ad);
    forall k | 0 <= k < |h|
      ensures !h[k].HandleTag?
    {
    }
    HandledNone(h);
  }

  lemma RecordCalls(ad: Record, target: Uuid)
    ensures Handled(RecordEvents(ad, target)) == Repeat(ad.address, multiset(ad.uuids)[target])
  {
    HandledAppend(RecordHeader(ad), UuidEvents(ad.address, ad.uuids, target));
    HeaderCalls(ad);
    UuidCalls(ad.address, ad.uuids, target);
  }

  lemma {:induction false} RecordsCallsInOrder(ads: seq<Record>, target: Uuid)
    ensures Handled(RecordsEvents(ads, target)) == RecordsCalls(ads, target)
    decreases |ads|
  {
    if ads != [] {
      var init, ad := ads[..|ads| - 1], ads[|ads| - 1];
      RecordsEventsExtend(ads, |ads| - 1, target);
      assert ads[..|ads|] == ads;
      RecordsCallsInOrder(init, target);
      HandledAppend(RecordsEvents(init, target), RecordEvents(ad, target));
      RecordCalls(ad, target);
    }
  }

  /** In a list without repeats the target occurs once or not at all. */
  lemma {:induction false} DistinctOccurrences(uuids: seq<Uuid>, target: Uuid)
    requires forall j, k :: 0 <= j < k < |uuids| ==> uuids[j] != uuids[k]
    ensures multiset(uuids)[target] == if target in uuids then 1 else 0
    decreases |uuids|
  {
    if uuids != [] {
      var init, u := uuids[..|uuids| - 1], uuids[|uuids| - 1];
      assert uuids == init + [u];
      DistinctOccurrences(init, target);
      Occurrences(uuids, target);
      if u == target {
        forall j | 0 <= j < |init|
          ensures init[j] != target
        {
          assert uuids[j] == init[j];
        }
      }
    }
  }

  /** A record that lists each UUID once calls the workflow exactly once when
      it advertises the target, and not at all otherwise. */
  lemma RecordCallsOnceIfListedOnce(ad: Record, target: Uuid)
    requires forall j, k :: 0 <= j < k < |ad.uuids| ==> ad.uuids[j] != ad.uuids[k]
    ensures Handled(RecordEvents(ad, target)) == if target in ad.uuids then [ad.address] else []
  {
    RecordCalls(ad, target);
    DistinctOccurrences(ad.uuids, target);
  }

  /** Over the whole loop, the workflow is called with exactly the addresses
      ExpectedCalls lists, in that order. */
  lemma {:induction false} LoopCalls(ws: seq<Wake>, target: Uuid)
    ensures Handled(LoopTrace(ws, target)) == ExpectedCalls(ws, target)
    decreases |ws|
  {
    if ws != [] {
      var init, w := ws[..|ws| - 1], ws[|ws| - 1];
      LoopTraceExtend(ws, |ws| - 1, target);
      assert ws[..|ws|] == ws;
      LoopCalls(init, target);
      HandledAppend(LoopTrace(init, target), WakeEvents(w, |ws| - 1, target));
      match w
      case Interrupted =>
        HandledNone([]);
      case Timeout =>
        HandledNone([Tick(Frame(|ws| - 1))]);
      case Ready(ads) =>
        RecordsCallsInOrder(ads, target);
    }
  }

  /** The service list of a record never carries a name line. */
  lemma {:induction false} UuidEventsKinds(address: Address, uuids: seq<Uuid>, target: Uuid)
    ensures forall e :: e in UuidEvents(address, uuids, target) ==> e.Advertised? || e.HandleTag?
    decreases |uuids|
  {
    if uuids != [] {
      UuidEventsExtend(address, uuids, |uuids| - 1, target);
      assert uuids[..|uuids|] == uuids;
      UuidEventsKinds(address, uuids[..|uuids| - 1], target);
    }
  }

  /** A record gets a name line exactly when it carries a local name, and the
      line shows that name. */
  lemma NameLineIffLocalName(ad: Record, target: Uuid)
    ensures ad.localName.Some? ==> Name(ad.localName.value) in RecordEvents(ad, target)
    ensures forall e :: e in RecordEvents(ad, target) && e.Name? ==> ad.localName == Some(e.name)
  {
    UuidEventsKinds(ad.address, ad.uuids, target);
    var r := RecordEvents(ad, target);
    if ad.localName.Some? {
      assert r[1] == Name(ad.localName.value);
    }
  }

  /** A run of timeouts animates the throbber: turn k shows frame k mod 4. */
  lemma {:induction false} TimeoutsAnimateThrobber(ws: seq<Wake>, target: Uuid)
    requires forall k :: 0 <= k < |ws| ==> ws[k] == Timeout
    ensures LoopTrace(ws, target) == seq(|ws|, k requires 0 <= k < |ws| => Tick(Throbber[k % 4]))
    decreases |ws|
  {
    if ws != [] {
      LoopTraceExtend(ws, |ws| - 1, target);
      assert ws[..|ws|] == ws;
      TimeoutsAnimateThrobber(ws[..|ws| - 1], target);
    }
  }
}
