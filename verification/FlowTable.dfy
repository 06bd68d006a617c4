/** The direction-neutral flow table built over captured packets (src/pcap_flow.py, events_from_pcap). */
module FlowTable {
  import opened Prelude
  import opened PcapFormat
  import opened Grouping

  datatype Endpoint = Endpoint(ip: string, port: nat)

  /** An endpoint pair in sorted order, so both directions share it. */
  datatype FlowKey = FlowKey(low: Endpoint, high: Endpoint)

  function Source(p: Packet): Endpoint { Endpoint(p.segment.srcIp, p.segment.srcPort) }

  function Target(p: Packet): Endpoint { Endpoint(p.segment.dstIp, p.segment.dstPort) }

  function Size(p: Packet): nat { |p.segment.payload| }

  predicate EndpointLe(a: Endpoint, b: Endpoint) {
    if a.ip == b.ip then a.port <= b.port else TextLe(a.ip, b.ip)
  }

  function KeyOf(p: Packet): FlowKey {
    if EndpointLe(Source(p), Target(p)) then FlowKey(Source(p), Target(p)) else FlowKey(Target(p), Source(p))
  }

  predicate SameDirection(p: Packet, q: Packet) { Source(p) == Source(q) && Target(p) == Target(q) }

  predicate Reverse(p: Packet, q: Packet) { Source(p) == Target(q) && Target(p) == Source(q) }

  /** Two packets share a flow exactly when they run between the same two endpoints, in either direction. */
  lemma KeyIsUnorderedPair(p: Packet, q: Packet)
    ensures KeyOf(p) == KeyOf(q) <==> SameDirection(p, q) || Reverse(p, q)
  {
    TextLeTotal(p.segment.srcIp, p.segment.dstIp);
    if TextLe(p.segment.srcIp, p.segment.dstIp) && TextLe(p.segment.dstIp, p.segment.srcIp) {
      TextLeAntisymmetric(p.segment.srcIp, p.segment.dstIp);
    }
  }

  // ---------------------------------------------------------------- one flow

  datatype FlowView = FlowView(
    firstTs: nat, lastTs: nat, source: Endpoint, target: Endpoint,
    packetsOut: nat, packetsIn: nat, bytesOut: nat, bytesIn: nat, flags: set<Flag>)

  function Start(p: Packet): FlowView { FlowView(p.ts, p.ts, Source(p), Target(p), 0, 0, 0, 0, {}) }

  function Absorb(v: FlowView, p: Packet): FlowView {
    var seen := v.(lastTs := if p.ts > v.lastTs then p.ts else v.lastTs, flags := v.flags + p.segment.flags);
    if Source(p) == v.source then seen.(packetsOut := v.packetsOut + 1, bytesOut := v.bytesOut + Size(p))
    else seen.(packetsIn := v.packetsIn + 1, bytesIn := v.bytesIn + Size(p))
  }

  /** The counters after a flow's packets, in capture order. */
  function Summary(ps: seq<Packet>): FlowView
    requires ps != []
  {
    var n := |ps| - 1;
    Absorb(if n == 0 then Start(ps[0]) else Summary(ps[..n]), ps[n])
  }

  class FlowState {
    var firstTs: nat
    var lastTs: nat
    const source: Endpoint
    const target: Endpoint
    var packetsOut: nat
    var packetsIn: nat
    var bytesOut: nat
    var bytesIn: nat
    var flags: set<Flag>

    function View(): FlowView
      reads this
    {
      FlowView(firstTs, lastTs, source, target, packetsOut, packetsIn, bytesOut, bytesIn, flags)
    }

    constructor (p: Packet)
      ensures View() == Start(p)
    {
      firstTs, lastTs := p.ts, p.ts;
      source, target := Source(p), Target(p);
      packetsOut, packetsIn, bytesOut, bytesIn := 0, 0, 0, 0;
      flags := {};
    }

    method Add(p: Packet)
      modifies this
      ensures View() == Absorb(old(View()), p)
    {
      lastTs := if p.ts > lastTs then p.ts else lastTs;
      if Source(p) == source {
        packetsOut := packetsOut + 1;
        bytesOut := bytesOut + Size(p);
      } else {
        packetsIn := packetsIn + 1;
        bytesIn := bytesIn + Size(p);
      }
      flags := flags + p.segment.flags;
    }
  }

  // ---------------------------------------------------------------- the table

  function FlowOf(): Packet -> Option<FlowKey> { (p: Packet) => Some(KeyOf(p)) }

  /** Flow keys in the order of their first packet. */
  function FirstSeen(ps: seq<Packet>): seq<FlowKey> { Keys(ps, FlowOf()) }

  /** The packets of one flow, in capture order. */
  function Group(ps: seq<Packet>, key: FlowKey): seq<Packet> { Members(ps, FlowOf(), key) }

  lemma GroupsNonEmpty(ps: seq<Packet>, key: FlowKey)
    ensures key in FirstSeen(ps) <==> Group(ps, key) != []
    ensures Distinct(FirstSeen(ps))
  {
    KeysDistinct(ps, FlowOf());
    KeysIff(ps, FlowOf(), key);
    if key !in FirstSeen(ps) {
      NoMembers(ps, FlowOf(), key);
    } else {
      var i :| 0 <= i < |ps| && FlowOf()(ps[i]) == Some(key);
      MembersIff(ps, FlowOf(), key, ps[i]);
    }
  }

  ghost predicate Tabulates(flows: map<FlowKey, FlowState>, ps: seq<Packet>)
    reads set k | k in flows :: flows[k]
  {
    && (forall k :: k in flows <==> Group(ps, k) != [])
    && (forall k :: k in flows ==> flows[k].View() == Summary(Group(ps, k)))
    && (forall j, k :: j in flows && k in flows && j != k ==> flows[j] != flows[k])
  }

  lemma GroupSnoc(ps: seq<Packet>, p: Packet, key: FlowKey)
    ensures Group(ps + [p], key) == Group(ps, key) + (if KeyOf(p) == key then [p] else [])
  {
    MembersSnoc(ps, p, FlowOf(), key);
  }

  lemma SummarySnoc(ps: seq<Packet>, p: Packet)
    ensures Summary(ps + [p]) == Absorb(if ps == [] then Start(p) else Summary(ps), p)
  {
    assert (ps + [p])[..|ps|] == ps;
  }

  /** One packet: find or create its flow object, then update it. */
  method Update(flows: map<FlowKey, FlowState>, p: Packet, ghost done: seq<Packet>)
    returns (updated: map<FlowKey, FlowState>)
    requires Tabulates(flows, done)
    modifies set k | k in flows :: flows[k]
    ensures updated.Keys == flows.Keys + {KeyOf(p)}
    ensures forall k :: k in updated ==> fresh(updated[k]) || (k in flows && updated[k] == flows[k])
    ensures Tabulates(updated, done + [p])
  {
    var key := KeyOf(p);
    updated := flows;
    if key !in flows {
      var created := new FlowState(p);
      updated := flows[key := created];
    }
    label found:
    assert updated[key].View() == if Group(done, key) == [] then Start(p) else Summary(Group(done, key));
    updated[key].Add(p);
    SummarySnoc(Group(done, key), p);
    GroupSnoc(done, p, key);
    forall k
      ensures k != key ==> Group(done + [p], k) == Group(done, k)
    {
      GroupSnoc(done, p, k);
    }
    forall k | k in updated && k != key
      ensures updated[k].View() == Summary(Group(done + [p], k))
    {
      assert updated[k] == flows[k] && updated[k] != updated[key];
      assert updated[k].View() == old@found(updated[k].View());
    }
  }

  /** One pass over the packets, with a dictionary of flow objects that keeps insertion order. */
  method BuildFlows(packets: seq<Packet>) returns (order: seq<FlowKey>, flows: map<FlowKey, FlowState>)
    ensures order == FirstSeen(packets)
    ensures Tabulates(flows, packets)
    ensures forall k :: k in flows ==> fresh(flows[k])
  {
    order, flows := [], map[];
    for i := 0 to |packets|
      invariant order == FirstSeen(packets[..i])
      invariant Tabulates(flows, packets[..i])
      invariant forall k :: k in flows ==> fresh(flows[k])
    {
      var key := KeyOf(packets[i]);
      assert packets[..i + 1] == packets[..i] + [packets[i]] && packets[..i + 1][..i] == packets[..i];
      GroupsNonEmpty(packets[..i], key);
      if key !in flows {
        order := order + [key];
      }
      flows := Update(flows, packets[i], packets[..i]);
    }
    assert packets[..|packets|] == packets;
  }

  // ---------------------------------------------------------------- what a flow says

  ghost predicate OneFlow(ps: seq<Packet>) { forall i :: 0 <= i < |ps| ==> KeyOf(ps[i]) == KeyOf(ps[0]) }

  /** Total weight of the packets that satisfy a condition. */
  function Total(ps: seq<Packet>, counts: Packet -> bool, weight: Packet -> nat): nat {
    Sum(Filter(ps, counts), weight)
  }

  lemma TotalSnoc(ps: seq<Packet>, p: Packet, counts: Packet -> bool, weight: Packet -> nat)
    ensures Total(ps + [p], counts, weight) == Total(ps, counts, weight) + (if counts(p) then weight(p) else 0)
  {
    FilterAppend(ps, [p], counts);
    SumAppend(Filter(ps, counts), Filter([p], counts), weight);
  }

  function Leaves(source: Endpoint): Packet -> bool { (p: Packet) => Source(p) == source }

  function Enters(source: Endpoint): Packet -> bool { (p: Packet) => Source(p) != source }

  function Each(): Packet -> nat { (p: Packet) => 1 }

  function Payload(): Packet -> nat { (p: Packet) => Size(p) }

  /** Outbound and inbound counters split the packets by sender. */
  ghost predicate Splits(v: FlowView, ps: seq<Packet>) {
    && v.packetsOut == Total(ps, Leaves(v.source), Each()) && v.packetsIn == Total(ps, Enters(v.source), Each())
    && v.bytesOut == Total(ps, Leaves(v.source), Payload()) && v.bytesIn == Total(ps, Enters(v.source), Payload())
  }

  lemma SplitsOneMore(v: FlowView, ps: seq<Packet>, p: Packet)
    requires Splits(v, ps)
    ensures Splits(Absorb(v, p), ps + [p])
  {
    TotalSnoc(ps, p, Leaves(v.source), Each());
    TotalSnoc(ps, p, Enters(v.source), Each());
    TotalSnoc(ps, p, Leaves(v.source), Payload());
    TotalSnoc(ps, p, Enters(v.source), Payload());
  }

  /** Endpoints and start come from the first packet; outbound and inbound counters split the packets by sender. */
  lemma {:induction false} SummaryCounts(ps: seq<Packet>)
    requires ps != []
    ensures var v := Summary(ps);
      v.firstTs == ps[0].ts && v.source == Source(ps[0]) && v.target == Target(ps[0]) && Splits(v, ps)
  {
    var n := |ps| - 1;
    assert ps == ps[..n] + [ps[n]];
    if n > 0 {
      SummaryCounts(ps[..n]);
      SplitsOneMore(Summary(ps[..n]), ps[..n], ps[n]);
    } else {
      SplitsOneMore(Start(ps[0]), [], ps[0]);
    }
  }

  ghost predicate Carries(ps: seq<Packet>, f: Flag) { exists i :: 0 <= i < |ps| && f in ps[i].segment.flags }

  lemma CarriesSnoc(ps: seq<Packet>, f: Flag)
    requires ps != []
    ensures Carries(ps, f) <==> Carries(ps[..|ps| - 1], f) || f in ps[|ps| - 1].segment.flags
  {
    var n := |ps| - 1;
    assert forall i :: 0 <= i < n ==> ps[..n][i] == ps[i];
    if Carries(ps[..n], f) {
      var i :| 0 <= i < n && f in ps[..n][i].segment.flags;
      assert f in ps[i].segment.flags;
    }
  }

  /** lastTs is the latest time of the flow, never before its start; flags are those of all its packets. */
  lemma {:induction false} SummaryExtent(ps: seq<Packet>)
    requires ps != []
    ensures var v := Summary(ps);
      && v.firstTs == ps[0].ts <= v.lastTs
      && (forall i :: 0 <= i < |ps| ==> ps[i].ts <= v.lastTs) && (exists i :: 0 <= i < |ps| && ps[i].ts == v.lastTs)
      && (forall f :: f in v.flags <==> Carries(ps, f))
  {
    var n := |ps| - 1;
    forall f
      ensures Carries(ps, f) <==> Carries(ps[..n], f) || f in ps[n].segment.flags
    {
      CarriesSnoc(ps, f);
    }
    if n > 0 {
      SummaryExtent(ps[..n]);
      var v := Summary(ps);
      if v.lastTs != ps[n].ts {
        var i :| 0 <= i < n && ps[..n][i].ts == Summary(ps[..n]).lastTs;
        assert ps[i].ts == v.lastTs;
      }
    }
  }

  /** Every packet counted as inbound runs exactly in the reverse direction of the flow's first packet. */
  lemma InboundIsReverse(ps: seq<Packet>, i: nat)
    requires OneFlow(ps) && i < |ps|
    ensures if Source(ps[i]) == Summary(ps).source then SameDirection(ps[i], ps[0]) else Reverse(ps[i], ps[0])
  {
    SummaryCounts(ps);
    KeyIsUnorderedPair(ps[i], ps[0]);
  }

  // ---------------------------------------------------------------- conservation

  lemma {:induction false} SplitTotal(ps: seq<Packet>, source: Endpoint, weight: Packet -> nat)
    ensures Total(ps, Leaves(source), weight) + Total(ps, Enters(source), weight) == Sum(ps, weight)
  {
    if ps != [] {
      var n := |ps| - 1;
      SplitTotal(ps[..n], source, weight);
      assert ps == ps[..n] + [ps[n]];
      TotalSnoc(ps[..n], ps[n], Leaves(source), weight);
      TotalSnoc(ps[..n], ps[n], Enters(source), weight);
    }
  }

  /** The weight of the packets of one flow. */
  function OverGroup(ps: seq<Packet>, weight: Packet -> nat): FlowKey -> nat { GroupSum(ps, FlowOf(), weight) }

  /** Summed over the flows, any packet weight comes to its total over the capture. */
  lemma GroupsConserve(ps: seq<Packet>, weight: Packet -> nat)
    ensures Sum(FirstSeen(ps), OverGroup(ps, weight)) == Sum(ps, weight)
  {
    KeysDistinct(ps, FlowOf());
    forall p | p in ps
      ensures KeyOf(p) in FirstSeen(ps)
    {
      KeysIff(ps, FlowOf(), KeyOf(p));
      var i :| 0 <= i < |ps| && ps[i] == p;
      assert FlowOf()(ps[i]) == Some(KeyOf(p));
    }
    GroupSums(ps, FlowOf(), FirstSeen(ps), weight);
  }

  // ---------------------------------------------------------------- flow events

  datatype FlowEvent = FlowEvent(
    eventId: string, firstTs: nat, lastTs: nat, target: Endpoint, packetCount: nat, bytesOut: nat, bytesIn: nat,
    durationMs: nat, flags: set<Flag>)

  const NANOS_PER_MILLI := 1_000_000

  function EventOf(index: nat, v: FlowView): FlowEvent {
    FlowEvent("pcap-flow-" + ThreeDigits(index), v.firstTs, v.lastTs, v.target, v.packetsOut + v.packetsIn,
              v.bytesOut, v.bytesIn,
              if v.lastTs >= v.firstTs then (v.lastTs - v.firstTs) / NANOS_PER_MILLI else 0, v.flags)
  }

  /** The event of the i-th flow. */
  ghost predicate Reports(e: FlowEvent, ps: seq<Packet>, keys: seq<FlowKey>, index: nat, i: nat)
    requires i < |keys|
  {
    Group(ps, keys[i]) != [] && e == EventOf(index + i, Summary(Group(ps, keys[i])))
  }

  ghost predicate ReportsUpTo(events: seq<FlowEvent>, ps: seq<Packet>, keys: seq<FlowKey>, n: nat)
    requires n <= |keys|
  {
    |events| == n && forall k :: 0 <= k < n ==> Reports(events[k], ps, keys, 1, k)
  }

  lemma ReportsOneMore(events: seq<FlowEvent>, e: FlowEvent, ps: seq<Packet>, keys: seq<FlowKey>, n: nat)
    requires n < |keys| && ReportsUpTo(events, ps, keys, n) && Reports(e, ps, keys, 1, n)
    ensures ReportsUpTo(events + [e], ps, keys, n + 1)
  {
  }

  /** One summary event per flow, numbered in the order of first packets. */
  method FlowEvents(packets: seq<Packet>) returns (events: seq<FlowEvent>)
    ensures |events| == |FirstSeen(packets)|
    ensures forall i :: 0 <= i < |events| ==> Reports(events[i], packets, FirstSeen(packets), 1, i)
  {
    var order, flows := BuildFlows(packets);
    events := [];
    for i := 0 to |order|
      invariant Tabulates(flows, packets) && ReportsUpTo(events, packets, order, i)
    {
      var event := ReportFlow(packets, order, flows, i);
      ReportsOneMore(events, event, packets, order, i);
      events := events + [event];
    }
  }

  method ReportFlow(ghost packets: seq<Packet>, order: seq<FlowKey>, flows: map<FlowKey, FlowState>, i: nat)
    returns (e: FlowEvent)
    requires order == FirstSeen(packets) && Tabulates(flows, packets) && i < |order|
    ensures Reports(e, packets, order, 1, i)
  {
    GroupsNonEmpty(packets, order[i]);
    e := EventOf(i + 1, flows[order[i]].View());
  }

  function PacketsOf(): FlowEvent -> nat { (e: FlowEvent) => e.packetCount }

  function BytesOf(): FlowEvent -> nat { (e: FlowEvent) => e.bytesOut + e.bytesIn }

  lemma EventConserves(e: FlowEvent, ps: seq<Packet>, keys: seq<FlowKey>, index: nat, i: nat)
    requires i < |keys| && Reports(e, ps, keys, index, i)
    ensures PacketsOf()(e) == OverGroup(ps, Each())(keys[i]) && BytesOf()(e) == OverGroup(ps, Payload())(keys[i])
  {
    var group := Group(ps, keys[i]);
    SummaryCounts(group);
    SplitTotal(group, Source(group[0]), Each());
    SplitTotal(group, Source(group[0]), Payload());
  }

  /** The flow events of a capture account for every packet and every payload byte once. */
  lemma CaptureConserved(ps: seq<Packet>, events: seq<FlowEvent>)
    requires |events| == |FirstSeen(ps)|
    requires forall i :: 0 <= i < |events| ==> Reports(events[i], ps, FirstSeen(ps), 1, i)
    ensures Sum(events, PacketsOf()) == |ps|
    ensures Sum(events, BytesOf()) == Sum(ps, Payload())
  {
    var keys := FirstSeen(ps);
    forall i | 0 <= i < |events|
      ensures PacketsOf()(events[i]) == OverGroup(ps, Each())(keys[i])
        && BytesOf()(events[i]) == OverGroup(ps, Payload())(keys[i])
    {
      EventConserves(events[i], ps, keys, 1, i);
    }
    SumSame(events, keys, PacketsOf(), OverGroup(ps, Each()));
    SumSame(events, keys, BytesOf(), OverGroup(ps, Payload()));
    GroupsConserve(ps, Each());
    GroupsConserve(ps, Payload());
    SumOnes(ps, Each());
  }
}
