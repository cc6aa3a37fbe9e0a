/**
 The end block of a report: one entry per stream and up to six aggregates, computed by separate code
 for each role, direction, protocol and way of ending.  Counts are unbounded integers, times and
 jitter exact reals.  A loss percentage is represented by the packet total it is taken over; `None`
 where none is printed or where the report prints 0 without dividing.
*/
module Report {
  import opened Sums
  import opened Wrappers

  datatype Protocol = Tcp | Udp

  datatype UdpStats = UdpStats(jitter: real, lost: int, packets: int, outOfOrder: int)

  datatype TcpExtras = TcpExtras(maxSndCwnd: nat, maxSndWnd: int, maxRtt: nat, minRtt: nat, meanRtt: nat, reorder: nat)

  datatype StreamReport = StreamReport(
    id: int,
    isSender: bool,
    localBytes: nat,
    datagramsSent: Option<nat>,
    remoteBytes: Option<nat>,
    retransmits: Option<int>,
    tcpEnd: Option<TcpExtras>,
    udp: Option<UdpStats>,
    remotePackets: Option<int>)

  /** `terminated`: the report carries an error, whether the run ended before the results exchange or after it. */
  datatype ReportInput = ReportInput(
    protocol: Protocol,
    terminated: bool,
    reverse: bool,
    bidir: bool,
    peerFlag: Option<int>,
    localHasRetransmitInfo: bool,
    elapsed: real,
    numStreams: int,
    blksize: int,
    isServer: bool,
    bareEnd: bool,
    streams: seq<StreamReport>)

  datatype TcpSide = TcpSide(
    socket: int, seconds: real, bytes: int, bitsPerSecond: real,
    retransmits: Option<int>, extras: Option<TcpExtras>, sender: bool)

  datatype UdpSide = UdpSide(
    socket: int, seconds: real, bytes: int, bitsPerSecond: real, jitterMs: real,
    lost: int, packets: int, pctOver: Option<int>, outOfOrder: int, sender: bool)

  datatype EndStream = EndStream(sender: Option<TcpSide>, receiver: Option<TcpSide>, udp: Option<UdpSide>)

  datatype SumSide = SumSide(
    seconds: real, bytes: int, bitsPerSecond: real, retransmits: Option<int>, jitterMs: Option<real>,
    lost: Option<int>, packets: Option<int>, pctOver: Option<int>, sender: bool)

  datatype End = End(
    bare: bool,
    streams: seq<EndStream>,
    sumSent: Option<SumSide>,
    sumReceived: Option<SumSide>,
    sum: Option<SumSide>,
    sumBidirReverse: Option<SumSide>,
    sumSentBidirReverse: Option<SumSide>,
    sumReceivedBidirReverse: Option<SumSide>)

  function Bps(bytes: int, seconds: real): real {
    if seconds > 0.0 then bytes as real * 8.0 / seconds else 0.0
  }

  function UnwrapOr<T>(o: Option<T>, default: T): T {
    match o
    case Some(v) => v
    case None => default
  }

  // ---- Per-stream entries ----

  function Blk(r: ReportInput): (b: nat)
    ensures b >= 1
  {
    if r.blksize < 1 then 1 else r.blksize
  }

  function SentDatagrams(r: ReportInput, s: StreamReport): (n: nat) {
    UnwrapOr(s.datagramsSent, s.localBytes / Blk(r))
  }

  /** The direction's effective sender_has_retransmits. */
  predicate EffectiveSenderFlag(r: ReportInput, localSends: bool) {
    if localSends then r.localHasRetransmitInfo else r.peerFlag.Some? && r.peerFlag.value != 0
  }

  function Positive(n: Option<int>): Option<int> {
    if n.Some? && n.value > 0 then n else None
  }

  const NO_STATS := UdpStats(0.0, 0, 0, 0)

  /** Bytes, packets, and whether the packets are a sender-side count. */
  function UdpFigures(r: ReportInput, s: StreamReport): (int, int, bool) {
    var u := UnwrapOr(s.udp, NO_STATS);
    if r.isServer then
      if s.isSender then (s.localBytes, SentDatagrams(r, s), true) else (0, u.packets, false)
    else if s.isSender && s.udp.None? && r.terminated then
      (s.localBytes, SentDatagrams(r, s), true)
    else if !s.isSender && r.terminated then
      (0, u.packets, false)
    else if !s.isSender then
      var bytes := UnwrapOr(s.remoteBytes, s.localBytes);
      if Positive(s.remotePackets).Some? then (bytes, s.remotePackets.value, true)
      else if bytes > 0 then (bytes, bytes / Blk(r), true)
      else (bytes, u.packets, false)
    else
      (s.localBytes, SentDatagrams(r, s), true)
  }

  function UdpEntry(r: ReportInput, s: StreamReport): EndStream {
    var u := UnwrapOr(s.udp, NO_STATS);
    var (bytes, packets, hasSenderCount) := UdpFigures(r, s);
    EndStream(None, None, Some(UdpSide(
      s.id, r.elapsed, bytes, Bps(bytes, r.elapsed), u.jitter * 1000.0, u.lost, packets,
      if hasSenderCount then Some(packets) else None, u.outOfOrder, s.isSender)))
  }

  function RemoteFigure(r: ReportInput, s: StreamReport): int {
    if r.isServer then 0
    else if r.terminated then UnwrapOr(s.remoteBytes, 0)
    else UnwrapOr(s.remoteBytes, s.localBytes)
  }

  predicate EmitExtras(r: ReportInput, s: StreamReport) {
    !(r.isServer && !s.isSender) && EffectiveSenderFlag(r, s.isSender)
  }

  function SenderSide(r: ReportInput, s: StreamReport, bytes: int): TcpSide {
    var extras := UnwrapOr(s.tcpEnd, TcpExtras(0, 0, 0, 0, 0, 0));
    var emit := EmitExtras(r, s);
    TcpSide(s.id, r.elapsed, bytes, Bps(bytes, r.elapsed),
            if emit then s.retransmits else None, if emit then Some(extras) else None, s.isSender)
  }

  function ReceiverSide(r: ReportInput, s: StreamReport, bytes: int): TcpSide {
    TcpSide(s.id, r.elapsed, bytes, Bps(bytes, r.elapsed), None, None, s.isSender)
  }

  function TcpEntry(r: ReportInput, s: StreamReport): EndStream {
    var remote := RemoteFigure(r, s);
    if s.isSender then
      EndStream(Some(SenderSide(r, s, s.localBytes)), Some(ReceiverSide(r, s, remote)), None)
    else
      EndStream(Some(SenderSide(r, s, remote)), Some(ReceiverSide(r, s, s.localBytes)), None)
  }

  function Entry(r: ReportInput, s: StreamReport): EndStream {
    if r.protocol.Udp? then UdpEntry(r, s) else TcpEntry(r, s)
  }

  function Entries(r: ReportInput, streams: seq<StreamReport>): seq<EndStream> {
    if streams == [] then [] else [Entry(r, streams[0])] + Entries(r, streams[1..])
  }

  // ---- Totals over the streams ----

  /** Which streams a total runs over: `Some(true)` those this host sent, `None` all. */
  type Want = Option<bool>

  predicate Selected(want: Want, s: StreamReport) {
    want.None? || s.isSender == want.value
  }

  /** What a stream adds to a total; a stream filtered out adds nothing. */
  function LocalBytes(want: Want): StreamReport -> int {
    (s: StreamReport) => if Selected(want, s) then s.localBytes else 0
  }

  function RemoteBytes(want: Want): StreamReport -> int {
    (s: StreamReport) => if Selected(want, s) then UnwrapOr(s.remoteBytes, 0) else 0
  }

  function Reported(want: Want): StreamReport -> bool {
    (s: StreamReport) => Selected(want, s) && s.remoteBytes.Some?
  }

  function UdpPackets(want: Want): StreamReport -> int {
    (s: StreamReport) => if Selected(want, s) then UnwrapOr(s.udp, NO_STATS).packets else 0
  }

  function UdpLost(want: Want): StreamReport -> int {
    (s: StreamReport) => if Selected(want, s) then UnwrapOr(s.udp, NO_STATS).lost else 0
  }

  function UdpJitter(want: Want): StreamReport -> real {
    (s: StreamReport) => if Selected(want, s) then UnwrapOr(s.udp, NO_STATS).jitter else 0.0
  }

  function SentPackets(r: ReportInput): StreamReport -> int {
    (s: StreamReport) => if s.isSender then SentDatagrams(r, s) else 0
  }

  function Total(r: ReportInput, f: StreamReport -> int): int {
    Sum(f, r.streams)
  }

  function LocalSent(r: ReportInput): int {
    Total(r, LocalBytes(Some(true)))
  }

  function LocalRecv(r: ReportInput): int {
    Total(r, LocalBytes(Some(false)))
  }

  /** The peer's bytes for one direction; `None` when no stream of it carries an exchanged figure. */
  function PeerBytes(r: ReportInput, sends: bool): Option<int> {
    if Any(Reported(Some(sends)), r.streams) then Some(Total(r, RemoteBytes(Some(sends)))) else None
  }

  function LocalSentPackets(r: ReportInput): int {
    Total(r, SentPackets(r))
  }

  function ExchangedPackets(want: Want): StreamReport -> int {
    (s: StreamReport) => if Selected(want, s) then UnwrapOr(Positive(s.remotePackets), 0) else 0
  }

  function NoPacketCount(want: Want): StreamReport -> bool {
    (s: StreamReport) => Selected(want, s) && Positive(s.remotePackets).None?
  }

  function InDirection(want: Want): StreamReport -> bool {
    (s: StreamReport) => Selected(want, s)
  }

  /** The exchanged sent counts of one direction, all or nothing. */
  function ExchangedSentPackets(r: ReportInput, sends: bool): Option<int> {
    if Any(InDirection(Some(sends)), r.streams) && !Any(NoPacketCount(Some(sends)), r.streams)
    then Some(Total(r, ExchangedPackets(Some(sends))))
    else None
  }

  function Reports(want: Want): StreamReport -> bool {
    (s: StreamReport) => Selected(want, s) && s.retransmits.Some?
  }

  predicate Counted(want: Want, s: StreamReport) {
    Selected(want, s) && s.retransmits.Some? && s.retransmits.value >= 0
  }

  function ReportsCount(want: Want): StreamReport -> bool {
    (s: StreamReport) => Counted(want, s)
  }

  function Retransmits(want: Want): StreamReport -> int {
    (s: StreamReport) => if Counted(want, s) then s.retransmits.value else 0
  }

  function RetransmitsFor(r: ReportInput, want: Want): Option<int> {
    if !Any(Reports(want), r.streams) then None
    else if !Any(ReportsCount(want), r.streams) then Some(-1)
    else Some(Total(r, Retransmits(want)))
  }

  function StreamLessSenderRetransmits(r: ReportInput): Option<int> {
    if r.streams == [] && !r.protocol.Udp? && !r.reverse && !r.isServer && r.localHasRetransmitInfo then Some(0)
    else None
  }

  function OrElse<T>(a: Option<T>, b: Option<T>): Option<T> {
    if a.Some? then a else b
  }

  function OnlyIf<T>(keep: bool, a: Option<T>): Option<T> {
    if keep then a else None
  }

  /** The mean jitter: the divisor is the requested stream count, not the number measured. */
  function MeanJitter(r: ReportInput, want: Want): real {
    SumReal(UdpJitter(want), r.streams) / (if r.numStreams < 1 then 1 else r.numStreams) as real
  }

  // ---- Aggregates ----

  function TcpSum(r: ReportInput, bytes: int, sender: bool, retransmits: Option<int>): SumSide {
    SumSide(r.elapsed, bytes, Bps(bytes, r.elapsed), retransmits, None, None, None, None, sender)
  }

  function UdpSum(r: ReportInput, bytes: int, sender: bool, packets: int, lost: int, jitter: real, pctPackets: int)
    : SumSide
  {
    SumSide(r.elapsed, bytes, Bps(bytes, r.elapsed), None, Some(jitter * 1000.0), Some(lost), Some(packets),
            Some(pctPackets), sender)
  }

  /** The aggregates before `bareEnd` drops them. */
  datatype Aggregates = Aggregates(
    sent: SumSide,
    received: SumSide,
    sum: Option<SumSide>,
    sumReverse: Option<SumSide>,
    sentReverse: Option<SumSide>,
    receivedReverse: Option<SumSide>)

  function ServerBidirUdp(r: ReportInput): Aggregates {
    var sent, recv := LocalSent(r), LocalRecv(r);
    var packets, lost := Total(r, UdpPackets(Some(false))), Total(r, UdpLost(Some(false)));
    var jitter := MeanJitter(r, Some(false));
    var sentPackets := LocalSentPackets(r);
    Aggregates(
      UdpSum(r, 0, true, 0, 0, 0.0, 0),
      UdpSum(r, recv, false, packets, lost, jitter, packets),
      Some(UdpSum(r, 0, false, packets, lost, jitter, packets)),
      Some(UdpSum(r, sent, true, sentPackets, 0, 0.0, sentPackets)),
      Some(UdpSum(r, sent, true, sentPackets, 0, 0.0, sentPackets)),
      Some(UdpSum(r, 0, false, 0, 0, 0.0, 0)))
  }

  function ServerBidirTcp(r: ReportInput): Aggregates {
    Aggregates(
      TcpSum(r, 0, false, None),
      TcpSum(r, LocalRecv(r), false, None),
      None,
      None,
      Some(TcpSum(r, LocalSent(r), true, OnlyIf(EffectiveSenderFlag(r, true), RetransmitsFor(r, Some(true))))),
      Some(TcpSum(r, 0, true, None)))
  }

  function ServerUdp(r: ReportInput): Aggregates {
    var sent, sentPackets := LocalSent(r), LocalSentPackets(r);
    var packets, lost, jitter := Total(r, UdpPackets(None)), Total(r, UdpLost(None)), MeanJitter(r, None);
    var sumPackets := if r.reverse then sentPackets else packets;
    var sumLost := if r.reverse then 0 else lost;
    var sumJitter := if r.reverse then 0.0 else jitter;
    Aggregates(
      UdpSum(r, sent, true, sentPackets, 0, 0.0, sentPackets),
      UdpSum(r, LocalRecv(r), false, packets, lost, jitter, sumPackets),
      Some(UdpSum(r, sent, r.reverse, sumPackets, sumLost, sumJitter, sumPackets)),
      None, None, None)
  }

  /** The retransmit total of a single-direction run. */
  function AllRetransmits(r: ReportInput): Option<int> {
    OrElse(RetransmitsFor(r, None), StreamLessSenderRetransmits(r))
  }

  function ServerTcp(r: ReportInput): Aggregates {
    Aggregates(
      TcpSum(r, LocalSent(r), r.reverse, OnlyIf(EffectiveSenderFlag(r, true), AllRetransmits(r))),
      TcpSum(r, LocalRecv(r), r.reverse, None),
      None, None, None, None)
  }

  /** The side of a bidir direction this host did not measure: exchanged, else 0 or the local figure. */
  function Grafted(r: ReportInput, peer: Option<int>, local: int): int {
    if peer.Some? then peer.value else if r.terminated then 0 else local
  }

  function OrMeasured(sent: int, measured: int): int {
    if sent > 0 then sent else measured
  }

  function ClientBidirUdp(r: ReportInput): Aggregates {
    var sent, recv := LocalSent(r), LocalRecv(r);
    var fwdPackets, fwdLost := Total(r, UdpPackets(Some(true))), Total(r, UdpLost(Some(true)));
    var revPackets, revLost := Total(r, UdpPackets(Some(false))), Total(r, UdpLost(Some(false)));
    var fwdJitter, revJitter := MeanJitter(r, Some(true)), MeanJitter(r, Some(false));
    var fwdRecv := Grafted(r, PeerBytes(r, true), sent);
    var revSent := Grafted(r, PeerBytes(r, false), recv);
    var fwdSentPackets := LocalSentPackets(r);
    var revSentPackets := UnwrapOr(ExchangedSentPackets(r, false), revSent / Blk(r));
    var sumFwd := OrMeasured(fwdSentPackets, fwdPackets);
    var sumRev := OrMeasured(revSentPackets, revPackets);
    Aggregates(
      UdpSum(r, sent, true, fwdSentPackets, 0, 0.0, fwdSentPackets),
      UdpSum(r, fwdRecv, false, fwdPackets, fwdLost, fwdJitter, sumFwd),
      Some(UdpSum(r, sent, true, sumFwd, fwdLost, fwdJitter, sumFwd)),
      Some(UdpSum(r, revSent, false, sumRev, revLost, revJitter, sumRev)),
      Some(UdpSum(r, revSent, true, revSentPackets, 0, 0.0, revSentPackets)),
      Some(UdpSum(r, recv, false, revPackets, revLost, revJitter, sumRev)))
  }

  function ClientBidirTcp(r: ReportInput): Aggregates {
    var forward := OrElse(RetransmitsFor(r, Some(true)), StreamLessSenderRetransmits(r));
    Aggregates(
      TcpSum(r, LocalSent(r), true, OnlyIf(EffectiveSenderFlag(r, true), forward)),
      TcpSum(r, Grafted(r, PeerBytes(r, true), LocalSent(r)), true, None),
      None,
      None,
      Some(TcpSum(r, Grafted(r, PeerBytes(r, false), LocalRecv(r)), false,
                  OnlyIf(EffectiveSenderFlag(r, false), RetransmitsFor(r, Some(false))))),
      Some(TcpSum(r, LocalRecv(r), false, None)))
  }

  function ClientUdpSentPackets(r: ReportInput, sentBytes: int): int {
    if !r.reverse && LocalSent(r) > 0 then LocalSentPackets(r)
    else UnwrapOr(if r.reverse then ExchangedSentPackets(r, false) else None, sentBytes / Blk(r))
  }

  function ClientUdp(r: ReportInput): Aggregates {
    var packets, lost, jitter := Total(r, UdpPackets(None)), Total(r, UdpLost(None)), MeanJitter(r, None);
    var sentBytes := if LocalSent(r) > 0 then LocalSent(r) else UnwrapOr(PeerBytes(r, false), 0);
    var recvBytes := if LocalRecv(r) > 0 then LocalRecv(r) else UnwrapOr(PeerBytes(r, true), 0);
    var sentPackets := ClientUdpSentPackets(r, sentBytes);
    var sumPackets := OrMeasured(sentPackets, packets);
    Aggregates(
      UdpSum(r, sentBytes, true, sentPackets, 0, 0.0, sentPackets),
      UdpSum(r, recvBytes, false, packets, lost, jitter, sumPackets),
      Some(UdpSum(r, sentBytes, !r.reverse, sumPackets, lost, jitter, sumPackets)),
      None, None, None)
  }

  /** A local total of 0 is replaced by the peer's figure, or by the other local total if nothing ended the run. */
  function Substituted(r: ReportInput, local: int, peer: Option<int>, other: int): int {
    if local != 0 then local
    else if peer.Some? then peer.value
    else if !r.terminated then other
    else local
  }

  function ClientTcp(r: ReportInput): Aggregates {
    Aggregates(
      TcpSum(r, Substituted(r, LocalSent(r), PeerBytes(r, false), LocalRecv(r)), !r.reverse,
             OnlyIf(EffectiveSenderFlag(r, !r.reverse), AllRetransmits(r))),
      TcpSum(r, Substituted(r, LocalRecv(r), PeerBytes(r, true), LocalSent(r)), !r.reverse, None),
      None, None, None, None)
  }

  function Aggregate(r: ReportInput): Aggregates {
    if r.isServer then
      if r.bidir && r.protocol.Udp? then ServerBidirUdp(r)
      else if r.bidir then ServerBidirTcp(r)
      else if r.protocol.Udp? then ServerUdp(r)
      else ServerTcp(r)
    else if r.bidir && r.protocol.Udp? then ClientBidirUdp(r)
    else if r.bidir then ClientBidirTcp(r)
    else if r.protocol.Udp? then ClientUdp(r)
    else ClientTcp(r)
  }

  /** The `end` object; a bare end keeps no aggregate. */
  function Build(r: ReportInput): End {
    var a := Aggregate(r);
    if r.bareEnd then End(true, Entries(r, r.streams), None, None, None, None, None, None)
    else End(false, Entries(r, r.streams), Some(a.sent), Some(a.received),
             a.sum, a.sumReverse, a.sentReverse, a.receivedReverse)
  }
}
