/** The shape of a report, and its figures besides byte and packet totals: times, rates, losses, jitter, retransmits. */
module ReportFigures {
  import opened Report
  import opened ReportConservation
  import opened ReportTotals
  import opened Sums
  import opened Wrappers

  // ---- Shape ----

  lemma {:induction false} EntriesInOrder(r: ReportInput, streams: seq<StreamReport>)
    ensures |Entries(r, streams)| == |streams|
    ensures forall i :: 0 <= i < |streams| ==> Entries(r, streams)[i] == Entry(r, streams[i])
  {
    if streams != [] {
      EntriesInOrder(r, streams[1..]);
    }
  }

  /** One entry per stream; which aggregates there are depends on the protocol, on bidir and on a bare end alone. */
  lemma Shape(r: ReportInput)
    ensures var e := Build(r);
            && e.bare == r.bareEnd && |e.streams| == |r.streams|
            && (e.sumSent.Some? <==> !r.bareEnd) && (e.sumReceived.Some? <==> !r.bareEnd)
            && (e.sum.Some? <==> !r.bareEnd && r.protocol.Udp?)
            && (e.sumBidirReverse.Some? <==> !r.bareEnd && r.protocol.Udp? && r.bidir)
            && (e.sumSentBidirReverse.Some? <==> !r.bareEnd && r.bidir)
            && (e.sumReceivedBidirReverse.Some? <==> !r.bareEnd && r.bidir)
  {
    hide Bps, Total, MeanJitter, LocalSentPackets, ExchangedSentPackets, Blk, Entries, PeerBytes, RetransmitsFor;
    EntriesInOrder(r, r.streams);
  }

  // ---- Times and rates ----

  /** The printed time is the report's, and the rate times it is the bytes in bits; without time there is no rate. */
  predicate RateOk(r: ReportInput, seconds: real, bytes: int, rate: real) {
    && seconds == r.elapsed
    && (seconds > 0.0 ==> rate * seconds == 8.0 * bytes as real)
    && (seconds <= 0.0 ==> rate == 0.0)
  }

  predicate SumRate(r: ReportInput, s: Option<SumSide>) {
    s.Some? ==> RateOk(r, s.value.seconds, s.value.bytes, s.value.bitsPerSecond)
  }

  predicate EntryRates(r: ReportInput, e: EndStream) {
    && (e.sender.Some? ==> RateOk(r, e.sender.value.seconds, e.sender.value.bytes, e.sender.value.bitsPerSecond))
    && (e.receiver.Some? ==> RateOk(r, e.receiver.value.seconds, e.receiver.value.bytes, e.receiver.value.bitsPerSecond))
    && (e.udp.Some? ==> RateOk(r, e.udp.value.seconds, e.udp.value.bytes, e.udp.value.bitsPerSecond))
  }

  lemma BpsIsRate(r: ReportInput, bytes: int)
    ensures RateOk(r, r.elapsed, bytes, Bps(bytes, r.elapsed))
  {
    if r.elapsed > 0.0 {
      Undivided(8.0 * bytes as real, r.elapsed);
    }
  }

  lemma Undivided(x: real, y: real)
    requires y > 0.0
    ensures x / y * y == x
  {
  }

  lemma EntryRate(r: ReportInput, s: StreamReport)
    ensures EntryRates(r, Entry(r, s))
  {
    hide Bps, RateOk, UdpFigures, EmitExtras, RemoteFigure;
    BpsIsRate(r, s.localBytes);
    BpsIsRate(r, RemoteFigure(r, s));
    BpsIsRate(r, UdpFigures(r, s).0);
  }

  lemma SumRates(r: ReportInput)
    ensures var a := Aggregate(r);
            && SumRate(r, Some(a.sent)) && SumRate(r, Some(a.received)) && SumRate(r, a.sum)
            && SumRate(r, a.sumReverse) && SumRate(r, a.sentReverse) && SumRate(r, a.receivedReverse)
  {
    hide Bps, RateOk, Total, MeanJitter, LocalSentPackets, ExchangedSentPackets, Blk, PeerBytes, RetransmitsFor, Grafted,
         Substituted, LocalSent, LocalRecv, AllRetransmits, EffectiveSenderFlag, OrMeasured, OnlyIf, OrElse;
    var a := Aggregate(r);
    BpsIsRate(r, a.sent.bytes);
    BpsIsRate(r, a.received.bytes);
    if a.sum.Some? {
      BpsIsRate(r, a.sum.value.bytes);
    }
    if a.sumReverse.Some? {
      BpsIsRate(r, a.sumReverse.value.bytes);
    }
    if a.sentReverse.Some? {
      BpsIsRate(r, a.sentReverse.value.bytes);
      BpsIsRate(r, a.receivedReverse.value.bytes);
    }
  }

  /** Every time and rate of a report, in all its aggregates and in every side of every entry. */
  lemma Rates(r: ReportInput)
    ensures var e := Build(r);
            && SumRate(r, e.sumSent) && SumRate(r, e.sumReceived) && SumRate(r, e.sum)
            && SumRate(r, e.sumBidirReverse) && SumRate(r, e.sumSentBidirReverse) && SumRate(r, e.sumReceivedBidirReverse)
            && forall i :: 0 <= i < |e.streams| ==> EntryRates(r, e.streams[i])
  {
    hide Aggregate, SumRate, EntryRates, Entry, Entries;
    SumRates(r);
    NoSumNoRate(r);
    EntriesInOrder(r, r.streams);
    forall i | 0 <= i < |r.streams|
      ensures EntryRates(r, Entry(r, r.streams[i]))
    {
      EntryRate(r, r.streams[i]);
    }
  }

  lemma NoSumNoRate(r: ReportInput)
    ensures SumRate(r, None)
  {
  }

  // ---- Entries ----

  /** Whether the sender side of a stream's entry shows retransmits and TCP extras. */
  predicate ShowsExtras(r: ReportInput, s: StreamReport) {
    if s.isSender then r.localHasRetransmitInfo
    else !r.isServer && r.peerFlag.Some? && r.peerFlag.value != 0
  }

  /** A TCP entry: both sides, the measured one with this host's count, extras on the sender's side or nowhere. */
  lemma TcpEntryFields(r: ReportInput, i: nat)
    requires r.protocol.Tcp? && i < |r.streams|
    ensures |Build(r).streams| == |r.streams|
    ensures var s, e := r.streams[i], Build(r).streams[i];
            && e.udp.None? && e.sender.Some? && e.receiver.Some?
            && e.sender.value.socket == s.id && e.receiver.value.socket == s.id
            && e.sender.value.sender == s.isSender && e.receiver.value.sender == s.isSender
            && (if s.isSender then e.sender else e.receiver).value.bytes == s.localBytes
            && (if s.isSender then e.receiver else e.sender).value.bytes
               == (if r.isServer then 0
                   else if s.remoteBytes.Some? then s.remoteBytes.value
                   else if r.terminated then 0
                   else s.localBytes)
            && e.receiver.value.retransmits.None? && e.receiver.value.extras.None?
            && e.sender.value.retransmits == (if ShowsExtras(r, s) then s.retransmits else None)
            && (e.sender.value.extras.Some? <==> ShowsExtras(r, s))
            && (ShowsExtras(r, s) ==>
                  e.sender.value.extras.value
                  == if s.tcpEnd.Some? then s.tcpEnd.value else TcpExtras(0, 0, 0, 0, 0, 0))
  {
    hide Aggregate;
    EntriesInOrder(r, r.streams);
  }

  /** A UDP entry: the stream's own statistics, zero where none were measured. */
  lemma UdpEntryFields(r: ReportInput, i: nat)
    requires r.protocol.Udp? && i < |r.streams|
    ensures |Build(r).streams| == |r.streams|
    ensures var s, e := r.streams[i], Build(r).streams[i];
            var stats := if s.udp.Some? then s.udp.value else UdpStats(0.0, 0, 0, 0);
            && e.sender.None? && e.receiver.None? && e.udp.Some?
            && e.udp.value.socket == s.id && e.udp.value.sender == s.isSender
            && e.udp.value.jitterMs == 1000.0 * stats.jitter
            && e.udp.value.lost == stats.lost && e.udp.value.outOfOrder == stats.outOfOrder
            && (s.isSender ==>
                  e.udp.value.packets
                  == if s.datagramsSent.Some? then s.datagramsSent.value
                     else if r.blksize < 1 then s.localBytes
                     else s.localBytes / r.blksize)
            && (!s.isSender && (r.isServer || r.terminated) ==> e.udp.value.packets == stats.packets)
            && (!s.isSender && !r.isServer && !r.terminated && s.remotePackets.Some? && s.remotePackets.value > 0 ==>
                  e.udp.value.packets == s.remotePackets.value)
  {
    hide Aggregate;
    EntriesInOrder(r, r.streams);
    DividedByOne(r.streams[i].localBytes);
  }

  lemma DividedByOne(x: nat)
    ensures x / 1 == x
  {
  }

  // ---- The sent and received sides of a UDP direction ----

  /** A UDP sent side: this host's or the peer's sending, which loses nothing and has no jitter. */
  lemma UdpSentSide(r: ReportInput, d: Flow)
    requires r.protocol.Udp? && !r.bareEnd && Active(r, d) && Consistent(r)
    ensures var e := Build(r);
            var sends := LocalSends(r, d);
            && SentSide(r, d, e).Some?
            && var x := SentSide(r, d, e).value;
               && x.lost == Some(0) && x.jitterMs == Some(0.0) && x.retransmits == None && x.pctOver == x.packets
               && x.bytes == (if sends then LocalSent(r) else if r.isServer then 0 else PeerSentBytes(r))
               && x.packets == Some(if sends then
                                      if !r.isServer && !r.bidir && LocalSent(r) == 0 then 0 else EntriesUdpPackets(e, true)
                                    else if r.isServer then 0
                                    else PeerSentPackets(r))
  {
    hide Bps, Sum, MeanJitter, LocalSentPackets, ExchangedSentPackets, Blk, Entries, EntriesUdpPackets;
    UdpEntryPackets(r);
    LocalIsNonNegative(r, Some(true));
    if !r.bidir {
      OneDirection(r, LocalSends(r, d));
      if LocalSends(r, d) && LocalSent(r) <= 0 {
        ZeroQuotient(Blk(r));
      }
    }
  }

  /**
   A UDP received side: the losses and the mean jitter of the direction's entries over the packets measured,
   except for a direction a bidir server sends, of which it knows nothing.
  */
  lemma UdpReceivedSide(r: ReportInput, d: Flow)
    requires r.protocol.Udp? && !r.bareEnd && Active(r, d) && Consistent(r)
    ensures var e := Build(r);
            var sends := LocalSends(r, d);
            var blind := r.isServer && r.bidir && sends;
            && ReceivedSide(r, d, e).Some? && ReceivedSide(r, d, e).value.jitterMs.Some?
            && var x := ReceivedSide(r, d, e).value;
               && x.lost == Some(if blind then 0 else EntriesUdpLost(e, sends))
               && x.jitterMs.value * Divisor(r) as real == (if blind then 0.0 else SumReal(UdpJitterOf(sends), e.streams))
               && x.packets == Some(if blind then 0 else MeasuredPackets(r, sends))
               && (r.isServer && !sends ==> x.packets == Some(EntriesUdpPackets(e, false)))
               && x.retransmits == None
               && x.bytes == if !sends then LocalRecv(r)
                             else if r.isServer then 0
                             else if r.bidir then Grafted(r, PeerBytes(r, true), LocalSent(r))
                             else if PeerBytes(r, true).Some? then PeerBytes(r, true).value else 0
  {
    hide Build, ReceivedSide, SumReal, Entries, Divisor, UdpJitter, UdpJitterOf, Sum;
    var sends := LocalSends(r, d);
    UdpEntryLost(r);
    UdpEntryPackets(r);
    EntryJitter(r, r.streams, sends);
    BuildStreams(r);
    ReceivedFigures(r, d);
    if !r.bidir {
      OneDirectionJitter(r.streams, sends);
    }
    if !(r.isServer && r.bidir && sends) {
      Unmean(SumReal(UdpJitter(if r.bidir then Some(sends) else None), r.streams), Divisor(r) as real,
             ReceivedSide(r, d, Build(r)).value.jitterMs.value);
    }
  }

  lemma ReceivedFigures(r: ReportInput, d: Flow)
    requires r.protocol.Udp? && !r.bareEnd && Active(r, d) && Consistent(r)
    ensures var e := Build(r);
            var sends := LocalSends(r, d);
            var blind := r.isServer && r.bidir && sends;
            && ReceivedSide(r, d, e).Some? && ReceivedSide(r, d, e).value.jitterMs.Some?
            && var x := ReceivedSide(r, d, e).value;
               && x.lost == Some(if blind then 0 else Total(r, UdpLost(Some(sends))))
               && x.jitterMs.value
                  == (if blind then 0.0
                      else SumReal(UdpJitter(if r.bidir then Some(sends) else None), r.streams) / Divisor(r) as real * 1000.0)
               && x.packets == Some(if blind then 0 else MeasuredPackets(r, sends))
               && x.retransmits == None
               && x.bytes == if !sends then LocalRecv(r)
                             else if r.isServer then 0
                             else if r.bidir then Grafted(r, PeerBytes(r, true), LocalSent(r))
                             else if PeerBytes(r, true).Some? then PeerBytes(r, true).value else 0
  {
    hide Bps, Sum, LocalSentPackets, ExchangedSentPackets, Blk, Entries, PeerBytes, SumReal;
    LocalIsNonNegative(r, Some(false));
    if !r.bidir {
      OneDirection(r, LocalSends(r, d));
      NoStreams(r, !LocalSends(r, d));
    }
  }

  /** A server measures no jitter on what it sends. */
  lemma SentSumHasNoJitter(r: ReportInput, d: Flow)
    requires r.protocol.Udp? && !r.bareEnd && Active(r, d) && r.isServer && LocalSends(r, d)
    ensures ReportConservation.UdpSide(r, d, Build(r)).Some? && ReportConservation.UdpSide(r, d, Build(r)).value.jitterMs == Some(0.0)
    ensures ReportConservation.UdpSide(r, d, Build(r)).value.retransmits == None
  {
    hide Bps, Total, LocalSentPackets, ExchangedSentPackets, Blk, Entries, PeerBytes, MeanJitter;
  }

  // ---- Retransmits ----

  /** Before any stream a retransmit-capable client that is not in reverse counts 0 for what it will send. */
  predicate StreamLess(r: ReportInput, d: Flow) {
    r.streams == [] && !r.isServer && !r.reverse && r.localHasRetransmitInfo && d.Forward?
  }

  /**
   The retransmits of a TCP sent side: none unless the sender can tell, and none for what a bidir server
   receives; else those its streams report, else 0 before any stream.  A received side has none.
  */
  lemma TcpRetransmits(r: ReportInput, d: Flow)
    requires r.protocol.Tcp? && !r.bareEnd && Active(r, d) && Consistent(r)
    ensures var e := Build(r);
            var sends := LocalSends(r, d);
            && SentSide(r, d, e).Some? && ReceivedSide(r, d, e).Some?
            && ReceivedSide(r, d, e).value.retransmits == None
            && SentSide(r, d, e).value.retransmits
               == if r.isServer && r.bidir && !sends then None
                  else if sends || r.isServer then
                    if !r.localHasRetransmitInfo then None
                    else if RetransmitsFor(r, Some(sends)).Some? then RetransmitsFor(r, Some(sends))
                    else if StreamLess(r, d) then Some(0)
                    else None
                  else if r.peerFlag.None? || r.peerFlag.value == 0 then None
                  else RetransmitsFor(r, Some(sends))
  {
    hide RetransmitsFor, Entries, Bps, Total, Grafted, Substituted, PeerBytes;
    if !r.bidir {
      OneDirectionReports(r, LocalSends(r, d));
    }
    if r.streams == [] {
      NothingReportsRetransmits(r);
    }
  }

  lemma NothingReportsRetransmits(r: ReportInput)
    requires r.streams == []
    ensures RetransmitsFor(r, Some(true)) == None && RetransmitsFor(r, Some(false)) == None && RetransmitsFor(r, None) == None
  {
  }

  lemma OneDirectionReports(r: ReportInput, sends: bool)
    requires forall s :: s in r.streams ==> s.isSender == sends
    ensures RetransmitsFor(r, None) == RetransmitsFor(r, Some(sends))
  {
    SumSame(Retransmits(None), Retransmits(Some(sends)), r.streams);
    AnySame(Reports(None), Reports(Some(sends)), r.streams);
    AnySame(ReportsCount(None), ReportsCount(Some(sends)), r.streams);
  }

  lemma AnySame<T>(p: T -> bool, q: T -> bool, s: seq<T>)
    requires forall x :: x in s ==> p(x) == q(x)
    ensures Any(p, s) == Any(q, s)
  {
    AnyIsExists(p, s);
    AnyIsExists(q, s);
  }

  /** TCP sides carry no datagram figures. */
  lemma TcpSidesAreBare(r: ReportInput, d: Flow)
    requires r.protocol.Tcp? && !r.bareEnd && Active(r, d)
    ensures var e := Build(r);
            && SentSide(r, d, e).Some? && ReceivedSide(r, d, e).Some?
            && Datagramless(SentSide(r, d, e).value) && Datagramless(ReceivedSide(r, d, e).value)
  {
    hide RetransmitsFor, Entries, Bps, Total, Grafted, Substituted, PeerBytes;
  }

  predicate Datagramless(s: SumSide) {
    s.jitterMs.None? && s.lost.None? && s.packets.None? && s.pctOver.None?
  }
}
