/** The aggregates of a report against the entries they summarise: nothing is lost, and nothing counted twice. */
module ReportConservation {
  import opened Report
  import opened Sums
  import opened Wrappers

  // ---- Sums over the printed entries ----

  function SentBytesOf(sends: bool): EndStream -> int {
    (e: EndStream) => if e.sender.Some? && e.sender.value.sender == sends then e.sender.value.bytes else 0
  }

  function ReceivedBytesOf(sends: bool): EndStream -> int {
    (e: EndStream) => if e.receiver.Some? && e.receiver.value.sender == sends then e.receiver.value.bytes else 0
  }

  function UdpBytesOf(sends: bool): EndStream -> int {
    (e: EndStream) => if e.udp.Some? && e.udp.value.sender == sends then e.udp.value.bytes else 0
  }

  function UdpPacketsOf(sends: bool): EndStream -> int {
    (e: EndStream) => if e.udp.Some? && e.udp.value.sender == sends then e.udp.value.packets else 0
  }

  function UdpLostOf(sends: bool): EndStream -> int {
    (e: EndStream) => if e.udp.Some? && e.udp.value.sender == sends then e.udp.value.lost else 0
  }

  /** The sum of `sender.bytes` over the entries of one direction. */
  function EntriesSent(e: End, sends: bool): int {
    Sum(SentBytesOf(sends), e.streams)
  }

  function EntriesReceived(e: End, sends: bool): int {
    Sum(ReceivedBytesOf(sends), e.streams)
  }

  function EntriesUdpBytes(e: End, sends: bool): int {
    Sum(UdpBytesOf(sends), e.streams)
  }

  function EntriesUdpPackets(e: End, sends: bool): int {
    Sum(UdpPacketsOf(sends), e.streams)
  }

  function EntriesUdpLost(e: End, sends: bool): int {
    Sum(UdpLostOf(sends), e.streams)
  }

  lemma {:induction false} EntrySum(r: ReportInput, streams: seq<StreamReport>, f: EndStream -> int, g: StreamReport -> int)
    requires forall s :: s in streams ==> f(Entry(r, s)) == g(s)
    ensures Sum(f, Entries(r, streams)) == Sum(g, streams)
  {
    if streams != [] {
      assert streams[0] in streams && forall s :: s in streams[1..] ==> s in streams;
      EntrySum(r, streams[1..], f, g);
      assert Entries(r, streams)[1..] == Entries(r, streams[1..]);
    }
  }

  // ---- Directions ----

  /** Forward is client to server. */
  datatype Flow = Forward | Backward

  predicate LocalSends(r: ReportInput, d: Flow) {
    d.Forward? != r.isServer
  }

  predicate Active(r: ReportInput, d: Flow) {
    r.bidir || (d.Backward? <==> r.reverse)
  }

  /** In a single-direction run every stream goes the run's way. */
  predicate Consistent(r: ReportInput) {
    r.bidir || forall s :: s in r.streams ==> s.isSender == (r.reverse == r.isServer)
  }

  function SentSide(r: ReportInput, d: Flow, e: End): Option<SumSide> {
    if r.bidir && d.Backward? then e.sumSentBidirReverse else e.sumSent
  }

  function ReceivedSide(r: ReportInput, d: Flow, e: End): Option<SumSide> {
    if r.bidir && d.Backward? then e.sumReceivedBidirReverse else e.sumReceived
  }

  function UdpSide(r: ReportInput, d: Flow, e: End): Option<SumSide> {
    if r.bidir && d.Backward? then e.sumBidirReverse else e.sum
  }

  // ---- What the peer did not report ----

  function Unreported(want: Want): StreamReport -> int {
    (s: StreamReport) => if Selected(want, s) && s.remoteBytes.None? then s.localBytes else 0
  }

  function RemoteFigures(r: ReportInput, sends: bool): StreamReport -> int {
    (s: StreamReport) => if s.isSender == sends then RemoteFigure(r, s) else 0
  }

  lemma RemoteFigureTotal(r: ReportInput, sends: bool)
    ensures Total(r, RemoteFigures(r, sends))
         == if r.isServer then 0
            else if r.terminated then Total(r, RemoteBytes(Some(sends)))
            else Total(r, RemoteBytes(Some(sends))) + Total(r, Unreported(Some(sends)))
  {
    if r.isServer {
      SumZero(RemoteFigures(r, sends), r.streams);
    } else if r.terminated {
      SumSame(RemoteFigures(r, sends), RemoteBytes(Some(sends)), r.streams);
    } else {
      SumAdd(RemoteFigures(r, sends), RemoteBytes(Some(sends)), Unreported(Some(sends)), r.streams);
    }
  }

  lemma NothingReported(r: ReportInput, sends: bool)
    requires PeerBytes(r, sends).None?
    ensures Total(r, RemoteBytes(Some(sends))) == 0
    ensures Total(r, Unreported(Some(sends))) == Total(r, LocalBytes(Some(sends)))
  {
    AnyIsExists(Reported(Some(sends)), r.streams);
    forall s | s in r.streams
      ensures RemoteBytes(Some(sends))(s) == 0
      ensures Unreported(Some(sends))(s) == LocalBytes(Some(sends))(s)
    {
      assert !Reported(Some(sends))(s);
    }
    SumZero(RemoteBytes(Some(sends)), r.streams);
    SumSame(Unreported(Some(sends)), LocalBytes(Some(sends)), r.streams);
  }

  /** A direction no stream goes contributes nothing. */
  lemma NoStreams(r: ReportInput, sends: bool)
    requires forall s :: s in r.streams ==> s.isSender != sends
    ensures Total(r, LocalBytes(Some(sends))) == 0 && PeerBytes(r, sends).None?
    ensures Total(r, RemoteBytes(Some(sends))) == 0
  {
    SumZero(LocalBytes(Some(sends)), r.streams);
    SumZero(RemoteBytes(Some(sends)), r.streams);
    AnyIsExists(Reported(Some(sends)), r.streams);
  }

  lemma LocalIsNonNegative(r: ReportInput, want: Want)
    ensures Total(r, LocalBytes(want)) >= 0 && Total(r, RemoteBytes(want)) >= 0
  {
    SumNonNegative(LocalBytes(want), r.streams);
    SumNonNegative(RemoteBytes(want), r.streams);
  }

  // ---- TCP ----

  /**
   When the aggregate of the side this host did not measure agrees with its entries: a server prints 0
   in both, a terminated client takes both from the peer, and otherwise the entries fall back to local
   counts stream by stream but the aggregate only when no stream reported.
  */
  predicate GraftAgrees(r: ReportInput, sends: bool) {
    || r.isServer
    || r.terminated
    || PeerBytes(r, sends).None?
    || Total(r, Unreported(Some(sends))) == 0
  }

  lemma TcpEntryTotals(r: ReportInput)
    requires r.protocol.Tcp?
    ensures EntriesSent(Build(r), true) == LocalSent(r)
    ensures EntriesReceived(Build(r), false) == LocalRecv(r)
    ensures EntriesReceived(Build(r), true) == Total(r, RemoteFigures(r, true))
    ensures EntriesSent(Build(r), false) == Total(r, RemoteFigures(r, false))
  {
    EntrySum(r, r.streams, SentBytesOf(true), LocalBytes(Some(true)));
    EntrySum(r, r.streams, ReceivedBytesOf(false), LocalBytes(Some(false)));
    EntrySum(r, r.streams, ReceivedBytesOf(true), RemoteFigures(r, true));
    EntrySum(r, r.streams, SentBytesOf(false), RemoteFigures(r, false));
  }

  /** The bytes of the four TCP figures in terms of the local totals and the graft. */
  lemma TcpFigures(r: ReportInput, d: Flow)
    requires r.protocol.Tcp? && !r.bareEnd && Active(r, d) && Consistent(r)
    ensures var e := Build(r);
            var sends := LocalSends(r, d);
            var local := Total(r, LocalBytes(Some(sends)));
            var other := if r.isServer then 0 else Grafted(r, PeerBytes(r, sends), local);
            && SentSide(r, d, e).Some? && ReceivedSide(r, d, e).Some?
            && SentSide(r, d, e).value.bytes == (if sends then local else other)
            && ReceivedSide(r, d, e).value.bytes == (if sends then other else local)
  {
    hide Bps, Sum, RetransmitsFor, StreamLessSenderRetransmits, EffectiveSenderFlag;
    if !r.bidir {
      NoStreams(r, !LocalSends(r, d));
      LocalIsNonNegative(r, Some(LocalSends(r, d)));
    }
  }

  /**
   TCP conservation.  In every role, direction and way of ending, the aggregate of the side this host
   measured is the sum of its entries; that of the other side is exactly when the graft agrees.
  */
  lemma TcpConservation(r: ReportInput, d: Flow)
    requires r.protocol.Tcp? && !r.bareEnd && Active(r, d) && Consistent(r)
    ensures var e := Build(r);
            var sends := LocalSends(r, d);
            && SentSide(r, d, e).Some? && ReceivedSide(r, d, e).Some?
            && (SentSide(r, d, e).value.bytes == EntriesSent(e, sends) <==> sends || GraftAgrees(r, sends))
            && (ReceivedSide(r, d, e).value.bytes == EntriesReceived(e, sends) <==> !sends || GraftAgrees(r, sends))
  {
    hide Build, Sum, Total, SentSide, ReceivedSide;
    var sends := LocalSends(r, d);
    TcpFigures(r, d);
    TcpEntryTotals(r);
    RemoteFigureTotal(r, sends);
    GraftTotal(r, sends);
  }

  lemma GraftTotal(r: ReportInput, sends: bool)
    ensures var local := Total(r, LocalBytes(Some(sends)));
            (if r.isServer then 0 else Grafted(r, PeerBytes(r, sends), local)) == Total(r, RemoteFigures(r, sends))
            <==> GraftAgrees(r, sends)
  {
    hide Sum;
    RemoteFigureTotal(r, sends);
    if PeerBytes(r, sends).None? {
      NothingReported(r, sends);
    }
  }

  /** All or none of a direction's streams carrying the peer's figure is enough. */
  lemma AllOrNoneAgrees(r: ReportInput, sends: bool)
    requires forall s, t :: s in r.streams && t in r.streams && s.isSender == t.isSender == sends
               ==> s.remoteBytes.Some? == t.remoteBytes.Some?
    ensures GraftAgrees(r, sends)
  {
    AnyIsExists(Reported(Some(sends)), r.streams);
    if PeerBytes(r, sends).Some? {
      var t :| t in r.streams && Reported(Some(sends))(t);
      forall s | s in r.streams
        ensures Unreported(Some(sends))(s) == 0
      {
      }
      SumZero(Unreported(Some(sends)), r.streams);
    }
  }

  function PlainStream(isSender: bool, localBytes: nat, remoteBytes: Option<nat>): StreamReport {
    StreamReport(1, isSender, localBytes, None, remoteBytes, None, None, None, None)
  }

  function PlainClient(protocol: Protocol, reverse: bool, streams: seq<StreamReport>): ReportInput {
    ReportInput(protocol, false, reverse, false, None, true, 1.0, |streams|, 1, false, false, streams)
  }

  /** One stream with the peer's figure and one without: the aggregate drops the second, its entry does not. */
  lemma PartialReportDisagrees()
    ensures var r := PlainClient(Tcp, false, [PlainStream(true, 10, Some(8)), PlainStream(true, 5, None)]);
            var e := Build(r);
            e.sumReceived.Some? && e.sumReceived.value.bytes == 8 && EntriesReceived(e, true) == 13
  {
    var streams := [PlainStream(true, 10, Some(8)), PlainStream(true, 5, None)];
    var r := PlainClient(Tcp, false, streams);
    hide Build, Sum;
    SumOfTwo(RemoteBytes(Some(true)), streams[0], streams[1]);
    TcpFigures(r, Forward);
    SumOfTwo(RemoteFigures(r, true), streams[0], streams[1]);
    TcpEntryTotals(r);
  }

  // ---- UDP bytes ----

  /** When `sum.bytes` of a direction this host receives agrees with its entries. */
  predicate UdpGraftAgrees(r: ReportInput) {
    if r.terminated then Total(r, RemoteBytes(Some(false))) == 0
    else Total(r, Unreported(Some(false))) == 0 || (r.bidir && PeerBytes(r, false).None?)
  }

  function UdpReceivedBytes(r: ReportInput): StreamReport -> int {
    (s: StreamReport) =>
      if s.isSender || r.isServer || r.terminated then 0 else UnwrapOr(s.remoteBytes, s.localBytes)
  }

  lemma UdpEntryBytes(r: ReportInput)
    requires r.protocol.Udp?
    ensures EntriesUdpBytes(Build(r), true) == LocalSent(r)
    ensures EntriesUdpBytes(Build(r), false)
         == if r.isServer || r.terminated then 0
            else Total(r, RemoteBytes(Some(false))) + Total(r, Unreported(Some(false)))
  {
    EntrySum(r, r.streams, UdpBytesOf(true), LocalBytes(Some(true)));
    EntrySum(r, r.streams, UdpBytesOf(false), UdpReceivedBytes(r));
    if r.isServer || r.terminated {
      SumZero(UdpReceivedBytes(r), r.streams);
    } else {
      SumAdd(UdpReceivedBytes(r), RemoteBytes(Some(false)), Unreported(Some(false)), r.streams);
    }
  }

  lemma UdpSumBytes(r: ReportInput, d: Flow)
    requires r.protocol.Udp? && !r.bareEnd && Active(r, d) && Consistent(r)
    ensures UdpSide(r, d, Build(r)).Some?
    ensures UdpSide(r, d, Build(r)).value.bytes
         == if LocalSends(r, d) then LocalSent(r)
            else if r.isServer then 0
            else if r.bidir then Grafted(r, PeerBytes(r, false), LocalRecv(r))
            else UnwrapOr(PeerBytes(r, false), 0)
  {
    hide Bps, Sum, MeanJitter, LocalSentPackets, ExchangedSentPackets;
    if !r.bidir {
      NoStreams(r, !LocalSends(r, d));
      LocalIsNonNegative(r, Some(LocalSends(r, d)));
    }
  }

  /**
   UDP byte conservation.  `sum.bytes` of a direction is the sum of `udp.bytes` over its entries for
   every server, for every direction this host sends, and for a direction a client receives exactly when
   what the peer did not report moved nothing (error-free), or what it did report is 0 (terminated).
  */
  lemma UdpConservation(r: ReportInput, d: Flow)
    requires r.protocol.Udp? && !r.bareEnd && Active(r, d) && Consistent(r)
    ensures var e := Build(r);
            && UdpSide(r, d, e).Some?
            && (UdpSide(r, d, e).value.bytes == EntriesUdpBytes(e, LocalSends(r, d))
                <==> r.isServer || LocalSends(r, d) || UdpGraftAgrees(r))
  {
    hide Build, Sum, UdpSide;
    UdpSumBytes(r, d);
    UdpEntryBytes(r);
    if PeerBytes(r, false).None? {
      NothingReported(r, false);
    }
  }

  /** All figures exchanged on an error-free run, or none on a terminated one, is enough. */
  lemma UdpExchangeAgrees(r: ReportInput)
    requires forall s :: s in r.streams && !s.isSender ==> s.remoteBytes.Some? == !r.terminated
    ensures UdpGraftAgrees(r)
  {
    if r.terminated {
      SumZero(RemoteBytes(Some(false)), r.streams);
    } else {
      SumZero(Unreported(Some(false)), r.streams);
    }
  }

  /** A peer that reported one of two received streams: the aggregate counts it alone. */
  lemma UdpPartialReportDisagrees()
    ensures var r := PlainClient(Udp, true, [PlainStream(false, 10, Some(8)), PlainStream(false, 5, None)]);
            var e := Build(r);
            e.sum.Some? && e.sum.value.bytes == 8 && EntriesUdpBytes(e, false) == 13
  {
    var streams := [PlainStream(false, 10, Some(8)), PlainStream(false, 5, None)];
    var r := PlainClient(Udp, true, streams);
    hide Build, Sum;
    SumOfTwo(RemoteBytes(Some(false)), streams[0], streams[1]);
    SumOfTwo(Unreported(Some(false)), streams[0], streams[1]);
    UdpSumBytes(r, Backward);
    UdpEntryBytes(r);
  }

  // ---- UDP packets and losses ----

  function MeasuredPackets(r: ReportInput, sends: bool): int {
    Total(r, UdpPackets(Some(sends)))
  }

  /** Where an entry of a client's receiving stream takes its packet count from. */
  function ReceivedPackets(r: ReportInput): StreamReport -> int {
    (s: StreamReport) => if s.isSender then 0 else UdpFigures(r, s).1
  }

  lemma UdpEntryPackets(r: ReportInput)
    requires r.protocol.Udp?
    ensures EntriesUdpPackets(Build(r), true) == LocalSentPackets(r)
    ensures EntriesUdpPackets(Build(r), false) == Total(r, ReceivedPackets(r))
    ensures r.isServer || r.terminated ==> EntriesUdpPackets(Build(r), false) == MeasuredPackets(r, false)
  {
    hide Blk;
    EntrySum(r, r.streams, UdpPacketsOf(true), SentPackets(r));
    EntrySum(r, r.streams, UdpPacketsOf(false), ReceivedPackets(r));
    if r.isServer || r.terminated {
      SumSame(ReceivedPackets(r), UdpPackets(Some(false)), r.streams);
    }
  }

  /** Without streams of the other direction, a total over all streams is one over this direction. */
  lemma OneDirection(r: ReportInput, sends: bool)
    requires forall s :: s in r.streams ==> s.isSender == sends
    ensures Total(r, UdpPackets(None)) == Total(r, UdpPackets(Some(sends)))
    ensures Total(r, UdpLost(None)) == Total(r, UdpLost(Some(sends)))
    ensures sends ==> LocalRecv(r) == 0 && PeerBytes(r, false).None?
    ensures !sends ==> LocalSent(r) == 0 && LocalSentPackets(r) == 0
  {
    SumSame(UdpPackets(None), UdpPackets(Some(sends)), r.streams);
    SumSame(UdpLost(None), UdpLost(Some(sends)), r.streams);
    NoStreams(r, !sends);
    if !sends {
      SumZero(SentPackets(r), r.streams);
    }
  }

  /** The bytes a client's `sum` takes the peer to have sent it. */
  function PeerSentBytes(r: ReportInput): int {
    if r.bidir then Grafted(r, PeerBytes(r, false), LocalRecv(r)) else UnwrapOr(PeerBytes(r, false), 0)
  }

  /** The sender-side count a client's `sum` takes for a direction it receives. */
  function PeerSentPackets(r: ReportInput): int {
    UnwrapOr(ExchangedSentPackets(r, false), PeerSentBytes(r) / Blk(r))
  }

  lemma UdpSumPackets(r: ReportInput, d: Flow)
    requires r.protocol.Udp? && !r.bareEnd && Active(r, d) && Consistent(r)
    ensures UdpSide(r, d, Build(r)).Some?
    ensures UdpSide(r, d, Build(r)).value.packets
         == Some(if LocalSends(r, d) then
                   if r.isServer then LocalSentPackets(r)
                   else if LocalSentPackets(r) > 0 && (r.bidir || LocalSent(r) > 0) then LocalSentPackets(r)
                   else MeasuredPackets(r, true)
                 else if r.isServer then MeasuredPackets(r, false)
                 else OrMeasured(PeerSentPackets(r), MeasuredPackets(r, false)))
  {
    hide Bps, Sum, MeanJitter, LocalSentPackets, ExchangedSentPackets, Blk;
    LocalIsNonNegative(r, Some(true));
    if !r.bidir {
      OneDirection(r, LocalSends(r, d));
    }
    if !r.bidir && !r.isServer && LocalSends(r, d) && LocalSent(r) <= 0 {
      ZeroQuotient(Blk(r));
    }
  }

  lemma ZeroQuotient(b: nat)
    requires b >= 1
    ensures 0 / b == 0
  {
  }

  /**
   Sending side and server: `sum.packets` is the sum of the entries' packets, always on a server; on a
   client exactly when its own count was not replaced by the measured one, or the two are equal.
  */
  lemma LocalPacketAgreement(r: ReportInput, d: Flow)
    requires r.protocol.Udp? && !r.bareEnd && Active(r, d) && Consistent(r) && (r.isServer || LocalSends(r, d))
    ensures var e := Build(r);
            && UdpSide(r, d, e).Some?
            && (UdpSide(r, d, e).value.packets == Some(EntriesUdpPackets(e, LocalSends(r, d)))
                <==> || r.isServer
                     || (LocalSentPackets(r) > 0 && (r.bidir || LocalSent(r) > 0))
                     || LocalSentPackets(r) == MeasuredPackets(r, true))
  {
    hide Build, Sum, UdpSide;
    UdpSumPackets(r, d);
    UdpEntryPackets(r);
  }

  lemma AllExchanged(r: ReportInput)
    requires forall s :: s in r.streams && !s.isSender ==> Positive(s.remotePackets).Some?
    requires !r.isServer && !r.terminated
    ensures Total(r, ReceivedPackets(r)) == Total(r, ExchangedPackets(Some(false)))
    ensures var none := forall s :: s in r.streams ==> s.isSender;
            && (none ==> ExchangedSentPackets(r, false) == None && Total(r, ExchangedPackets(Some(false))) == 0)
            && (!none ==> ExchangedSentPackets(r, false) == Some(Total(r, ExchangedPackets(Some(false))))
                          && Total(r, ExchangedPackets(Some(false))) > 0)
  {
    hide Blk;
    SumSame(ReceivedPackets(r), ExchangedPackets(Some(false)), r.streams);
    AnyIsExists(InDirection(Some(false)), r.streams);
    AnyIsExists(NoPacketCount(Some(false)), r.streams);
    if forall s :: s in r.streams ==> s.isSender {
      SumZero(ExchangedPackets(Some(false)), r.streams);
    } else {
      var s :| s in r.streams && !s.isSender;
      assert InDirection(Some(false))(s);
      SomePositive(ExchangedPackets(Some(false)), r.streams, s);
    }
  }

  lemma {:induction false} SomePositive<T>(f: T -> int, s: seq<T>, x: T)
    requires x in s && f(x) > 0 && forall y :: y in s ==> f(y) >= 0
    ensures Sum(f, s) > 0
  {
    assert forall y :: y in s[1..] ==> y in s;
    SumNonNegative(f, s[1..]);
    if x != s[0] {
      assert s == [s[0]] + s[1..];
      SomePositive(f, s[1..], x);
    }
  }

  /** Receiving client, every stream with an exchanged count: the entries add up to the aggregate. */
  lemma ExchangedPacketAgreement(r: ReportInput, d: Flow)
    requires r.protocol.Udp? && !r.bareEnd && Active(r, d) && Consistent(r) && !r.isServer && !LocalSends(r, d)
    requires !r.terminated && forall s :: s in r.streams && !s.isSender ==> Positive(s.remotePackets).Some?
    ensures UdpSide(r, d, Build(r)).Some?
    ensures UdpSide(r, d, Build(r)).value.packets == Some(EntriesUdpPackets(Build(r), false))
  {
    hide Build, Sum, UdpSide, Positive, Blk;
    UdpSumPackets(r, d);
    UdpEntryPackets(r);
    AllExchanged(r);
    if forall s :: s in r.streams ==> s.isSender {
      NoStreams(r, false);
      ZeroQuotient(Blk(r));
      SumZero(UdpPackets(Some(false)), r.streams);
    }
  }

  function Receiving(): StreamReport -> int {
    (s: StreamReport) => if s.isSender then 0 else 1
  }

  /** The full blocks in a byte count. */
  function Blocks(bytes: int, b: nat): int
    requires b >= 1
  {
    bytes / b
  }

  lemma BlocksBracket(x: int, b: nat)
    requires b >= 1
    ensures Blocks(x, b) * b <= x < Blocks(x, b) * b + b
  {
  }

  lemma BlocksUnique(x: int, b: nat, q: int)
    requires b >= 1 && q * b <= x < q * b + b
    ensures Blocks(x, b) == q
  {
    hide Blocks;
    BlocksBracket(x, b);
    Ordered(q, Blocks(x, b), b);
    Ordered(Blocks(x, b), q, b);
  }

  lemma Ordered(m: int, n: int, b: nat)
    ensures m < n ==> m * b + b <= n * b
  {
    if m < n {
      NonNegativeProduct(n - m - 1, b);
      Expand(n, m, b);
    }
  }

  lemma NonNegativeProduct(k: int, b: int)
    requires k >= 0 && b >= 0
    ensures k * b >= 0
  {
  }

  lemma Expand(n: int, m: int, b: int)
    ensures (n - m - 1) * b == n * b - m * b - b
  {
  }

  lemma BlocksOfTwo(x: int, y: int, b: nat)
    requires b >= 1
    ensures Blocks(x + y, b) == Blocks(x, b) + Blocks(y, b) || Blocks(x + y, b) == Blocks(x, b) + Blocks(y, b) + 1
    ensures Blocks(0, b) == 0
  {
    hide Blocks;
    var m, n := Blocks(x, b), Blocks(y, b);
    BlocksBracket(x, b);
    BlocksBracket(y, b);
    assert (m + n) * b == m * b + n * b && (m + n + 1) * b == m * b + n * b + b;
    if x + y < (m + n) * b + b {
      BlocksUnique(x + y, b, m + n);
    } else {
      BlocksUnique(x + y, b, m + n + 1);
    }
    BlocksUnique(0, b, 0);
  }

  /** Dividing a total against dividing its parts: each part but one may lose a block. */
  lemma {:induction false} QuotientOfSum<T>(f: T -> int, q: T -> int, c: T -> int, b: nat, s: seq<T>)
    requires b >= 1
    requires forall x :: x in s ==> (c(x) == 0 && f(x) == 0 && q(x) == 0) || (c(x) == 1 && q(x) == Blocks(f(x), b))
    ensures Sum(c, s) >= 0
    ensures var excess := Blocks(Sum(f, s), b) - Sum(q, s); 0 <= excess && (excess == 0 || excess <= Sum(c, s) - 1)
  {
    hide Blocks;
    BlocksOfTwo(0, 0, b);
    if s != [] {
      assert s[0] in s && forall x :: x in s[1..] ==> x in s;
      QuotientOfSum(f, q, c, b, s[1..]);
      BlocksOfTwo(f(s[0]), Sum(f, s[1..]), b);
      SumZeroParts(f, c, s[1..]);
    }
  }

  lemma {:induction false} SumZeroParts<T>(f: T -> int, c: T -> int, s: seq<T>)
    requires forall x :: x in s ==> (c(x) == 0 && f(x) == 0) || c(x) == 1
    ensures Sum(c, s) >= 0 && (Sum(c, s) == 0 ==> Sum(f, s) == 0)
  {
    if s != [] {
      assert s[0] in s && forall x :: x in s[1..] ==> x in s;
      SumZeroParts(f, c, s[1..]);
    }
  }

  /**
   Receiving client without exchanged counts but with the peer's bytes: the aggregate divides the summed
   bytes, each entry its own, so the aggregate exceeds the entries by 0 to n - 1 blocks for n streams, and by
   none exactly when the remainders together are less than a block.
  */
  lemma QuotientPacketAgreement(r: ReportInput, d: Flow)
    requires r.protocol.Udp? && !r.bareEnd && Active(r, d) && Consistent(r) && !r.isServer && !LocalSends(r, d)
    requires !r.terminated
    requires forall s :: s in r.streams && !s.isSender ==>
               Positive(s.remotePackets).None? && s.remoteBytes.Some? && s.remoteBytes.value > 0
    requires Total(r, RemoteBytes(Some(false))) >= Blk(r)
    ensures UdpSide(r, d, Build(r)).Some? && UdpSide(r, d, Build(r)).value.packets.Some?
    ensures var excess := UdpSide(r, d, Build(r)).value.packets.value - EntriesUdpPackets(Build(r), false);
            && 0 <= excess <= Total(r, Receiving()) - 1
            && (excess == 0 <==> Total(r, Remainders(r)) < Blk(r))
  {
    QuotientFigures(r);
    RemaindersLeft(r);
    hide Build, Sum, UdpSide, Blk, Entries, Remainders;
    UdpSumPackets(r, d);
    UdpEntryPackets(r);
    QuotientOfSum(RemoteBytes(Some(false)), ReceivedPackets(r), Receiving(), Blk(r), r.streams);
    SumZeroParts(RemoteBytes(Some(false)), Receiving(), r.streams);
    QuotientIs(Total(r, RemoteBytes(Some(false))), Blk(r), Total(r, ReceivedPackets(r)));
  }

  /** What dividing each received stream's bytes on its own leaves over. */
  function Remainders(r: ReportInput): StreamReport -> int {
    (s: StreamReport) => if s.isSender then 0 else UnwrapOr(s.remoteBytes, 0) % Blk(r)
  }

  lemma RemaindersLeft(r: ReportInput)
    requires forall s :: s in r.streams && !s.isSender ==>
               s.remoteBytes.Some? && ReceivedPackets(r)(s) == s.remoteBytes.value / Blk(r)
    ensures Total(r, Remainders(r)) >= 0
    ensures Total(r, Remainders(r)) == Total(r, RemoteBytes(Some(false))) - Blk(r) * Total(r, ReceivedPackets(r))
  {
    hide Sum, Blk, UdpFigures;
    var blocks := (s: StreamReport) => Blk(r) * ReceivedPackets(r)(s);
    SumScale(blocks, ReceivedPackets(r), Blk(r), r.streams);
    forall s | s in r.streams
      ensures RemoteBytes(Some(false))(s) == Remainders(r)(s) + blocks(s)
    {
    }
    SumAdd(RemoteBytes(Some(false)), Remainders(r), blocks, r.streams);
    SumNonNegative(Remainders(r), r.streams);
  }

  /** The excess is real: two streams of three bytes in blocks of two are three blocks, but one each. */
  lemma QuotientExcess()
    ensures var r := PlainClient(Udp, true, [PlainStream(false, 0, Some(3)), PlainStream(false, 0, Some(3))]).(blksize := 2);
            var e := Build(r);
            e.sum.Some? && e.sum.value.packets == Some(3) && EntriesUdpPackets(e, false) == 2
  {
    var half := PlainStream(false, 0, Some(3));
    var r := PlainClient(Udp, true, [half, half]).(blksize := 2);
    assert ReceivedPackets(r)(half) == 1;
    hide Build, Sum, UdpFigures;
    SumOfTwo(RemoteBytes(Some(false)), half, half);
    SumOfTwo(ReceivedPackets(r), half, half);
    QuotientFigures(r);
    UdpSumPackets(r, Backward);
    UdpEntryPackets(r);
  }

  lemma AtLeastOne(x: int, b: int)
    requires x >= b >= 1
    ensures x / b >= 1
  {
  }

  lemma QuotientFigures(r: ReportInput)
    requires !r.isServer && !r.terminated
    requires forall s :: s in r.streams && !s.isSender ==>
               Positive(s.remotePackets).None? && s.remoteBytes.Some? && s.remoteBytes.value > 0
    requires Total(r, RemoteBytes(Some(false))) > 0
    ensures ExchangedSentPackets(r, false) == None
    ensures PeerBytes(r, false) == Some(Total(r, RemoteBytes(Some(false))))
    ensures forall s :: s in r.streams && !s.isSender ==> ReceivedPackets(r)(s) == s.remoteBytes.value / Blk(r)
  {
    hide Blk;
    if forall s :: s in r.streams ==> s.isSender {
      SumZero(RemoteBytes(Some(false)), r.streams);
      assert false;
    } else {
      var s :| s in r.streams && !s.isSender;
      AnyIsExists(NoPacketCount(Some(false)), r.streams);
      AnyIsExists(Reported(Some(false)), r.streams);
      assert NoPacketCount(Some(false))(s) && Reported(Some(false))(s);
    }
  }

  // ---- Received packets, for every receiving client ----

  /** What a received stream adds to the bytes that the aggregate divides into packets. */
  function SharedBytes(r: ReportInput): StreamReport -> int {
    (s: StreamReport) =>
      if s.isSender then 0
      else if PeerBytes(r, false).Some? then UnwrapOr(s.remoteBytes, 0)
      else if r.bidir && !r.terminated then s.localBytes
      else 0
  }

  /** Those bytes, less one block for each packet the stream's entry shows. */
  function UncoveredBytes(r: ReportInput): StreamReport -> int {
    (s: StreamReport) => SharedBytes(r)(s) - Blk(r) * ReceivedPackets(r)(s)
  }

  /** The count of a received stream's entry that is not this host's measurement, less that measurement. */
  function ReplacedPackets(r: ReportInput): StreamReport -> int {
    (s: StreamReport) =>
      if s.isSender || r.terminated then 0
      else if Positive(s.remotePackets).Some? then s.remotePackets.value - UnwrapOr(s.udp, NO_STATS).packets
      else if UnwrapOr(s.remoteBytes, s.localBytes) > 0 then
        UnwrapOr(s.remoteBytes, s.localBytes) / Blk(r) - UnwrapOr(s.udp, NO_STATS).packets
      else 0
  }

  /**
   When `sum.packets` of a direction a client receives is the sum of its entries' packets.  With every
   count exchanged: unless the run was terminated, when the entries fall back to the measured counts and the
   aggregate does not.  Otherwise the aggregate divides the peer's bytes: what the entries' packets leave
   uncovered must be less than a block.  With less than a block to divide it takes the measured count: what
   the entries put in place of their own measurements must cancel out.
  */
  predicate ReceivedCountsAgree(r: ReportInput) {
    if ExchangedSentPackets(r, false).Some? then
      !r.terminated || ExchangedSentPackets(r, false).value == MeasuredPackets(r, false)
    else if PeerSentBytes(r) >= Blk(r) then 0 <= Total(r, UncoveredBytes(r)) < Blk(r)
    else Total(r, ReplacedPackets(r)) == 0
  }

  lemma SharedTotal(r: ReportInput)
    ensures Total(r, SharedBytes(r)) == PeerSentBytes(r)
  {
    if PeerBytes(r, false).Some? {
      SumSame(SharedBytes(r), RemoteBytes(Some(false)), r.streams);
    } else if r.bidir && !r.terminated {
      SumSame(SharedBytes(r), LocalBytes(Some(false)), r.streams);
    } else {
      SumZero(SharedBytes(r), r.streams);
    }
  }

  lemma UncoveredTotal(r: ReportInput)
    ensures Total(r, UncoveredBytes(r)) == PeerSentBytes(r) - Blk(r) * Total(r, ReceivedPackets(r))
  {
    hide Blk, SharedBytes, ReceivedPackets, Sum;
    var blocks := (s: StreamReport) => Blk(r) * ReceivedPackets(r)(s);
    SharedTotal(r);
    SumScale(blocks, ReceivedPackets(r), Blk(r), r.streams);
    SumAdd(SharedBytes(r), UncoveredBytes(r), blocks, r.streams);
  }

  lemma ReplacedTotal(r: ReportInput)
    requires !r.isServer
    ensures Total(r, ReceivedPackets(r)) == MeasuredPackets(r, false) + Total(r, ReplacedPackets(r))
  {
    hide Blk, Sum;
    SumAdd(ReceivedPackets(r), UdpPackets(Some(false)), ReplacedPackets(r), r.streams);
  }

  /** With every count exchanged, the aggregate takes their sum, which is positive. */
  lemma ExchangedTotal(r: ReportInput)
    requires !r.isServer && ExchangedSentPackets(r, false).Some?
    ensures ExchangedSentPackets(r, false).value > 0
    ensures !r.terminated ==> Total(r, ReceivedPackets(r)) == ExchangedSentPackets(r, false).value
  {
    hide Blk, Positive;
    AnyIsExists(InDirection(Some(false)), r.streams);
    AnyIsExists(NoPacketCount(Some(false)), r.streams);
    forall s | s in r.streams && !s.isSender
      ensures Positive(s.remotePackets).Some?
    {
      assert !NoPacketCount(Some(false))(s);
    }
    AllExchanged(r.(terminated := false));
    if !r.terminated {
      AllExchanged(r);
    }
  }

  /** Dividing by the block size against counting, as a bound on the bytes left uncovered. */
  lemma QuotientIs(x: int, b: nat, n: int)
    requires b >= 1
    ensures x / b == n <==> 0 <= x - b * n < b
    ensures 0 <= x < b <==> x / b == 0
    ensures x >= b ==> x / b > 0
  {
    hide Blocks;
    BlocksIsQuotient(x, b);
    BlocksBracket(x, b);
    if 0 <= x - b * n < b {
      BlocksUnique(x, b, n);
    }
    if 0 <= x < b {
      BlocksUnique(x, b, 0);
    } else if x >= b {
      AtLeastOne(x, b);
    }
  }

  lemma BlocksIsQuotient(x: int, b: nat)
    requires b >= 1
    ensures Blocks(x, b) == x / b
  {
  }

  lemma PeerSentNonNegative(r: ReportInput)
    ensures PeerSentBytes(r) >= 0
  {
    LocalIsNonNegative(r, Some(false));
  }

  /** For every client, however much was exchanged and however the run ended: an exact condition. */
  lemma ReceivedPacketAgreement(r: ReportInput, d: Flow)
    requires r.protocol.Udp? && !r.bareEnd && Active(r, d) && Consistent(r) && !r.isServer && !LocalSends(r, d)
    ensures UdpSide(r, d, Build(r)).Some?
    ensures UdpSide(r, d, Build(r)).value.packets == Some(EntriesUdpPackets(Build(r), false)) <==> ReceivedCountsAgree(r)
  {
    hide Build, Sum, UdpSide, Blk, Entries, PeerSentBytes, ReceivedPackets, UncoveredBytes, ReplacedPackets, ExchangedSentPackets;
    UdpSumPackets(r, d);
    UdpEntryPackets(r);
    if ExchangedSentPackets(r, false).Some? {
      ExchangedTotal(r);
    } else {
      UncoveredTotal(r);
      ReplacedTotal(r);
      PeerSentNonNegative(r);
      QuotientIs(PeerSentBytes(r), Blk(r), Total(r, ReceivedPackets(r)));
    }
  }

  /** A terminated run: the peer's count is missing, or is what was measured here. */
  lemma TerminatedPacketAgreement(r: ReportInput, d: Flow)
    requires r.protocol.Udp? && !r.bareEnd && Active(r, d) && Consistent(r) && !r.isServer && !LocalSends(r, d)
    requires r.terminated
    ensures UdpSide(r, d, Build(r)).Some?
    ensures UdpSide(r, d, Build(r)).value.packets == Some(EntriesUdpPackets(Build(r), false))
       <==> PeerSentPackets(r) <= 0 || PeerSentPackets(r) == MeasuredPackets(r, false)
    ensures (forall s :: s in r.streams && !s.isSender ==> Positive(s.remotePackets).None? && s.remoteBytes.None?)
       ==> PeerSentPackets(r) <= 0
  {
    hide Build, Sum, UdpSide, Blk, Entries;
    UdpSumPackets(r, d);
    UdpEntryPackets(r);
    AnyIsExists(InDirection(Some(false)), r.streams);
    AnyIsExists(NoPacketCount(Some(false)), r.streams);
    AnyIsExists(Reported(Some(false)), r.streams);
    ZeroQuotient(Blk(r));
  }

  /**
   An interrupt after the results exchange: the aggregate keeps the peer's 30 bytes and 3 packets, the
   entry shows no bytes and the 2 packets measured here.
  */
  lemma TerminatedAfterExchangeDisagrees()
    ensures var heard := PlainStream(false, 20, Some(30)).(udp := Some(UdpStats(0.0, 1, 2, 0)), remotePackets := Some(3));
            var r := PlainClient(Udp, true, [heard]).(terminated := true, blksize := 10);
            var e := Build(r);
            && e.sum.Some? && e.sum.value.packets == Some(3) && EntriesUdpPackets(e, false) == 2
            && e.sum.value.bytes == 30 && EntriesUdpBytes(e, false) == 0
  {
    var heard := PlainStream(false, 20, Some(30)).(udp := Some(UdpStats(0.0, 1, 2, 0)), remotePackets := Some(3));
    var r := PlainClient(Udp, true, [heard]).(terminated := true, blksize := 10);
    hide Build, Sum, Blk;
    SumOfOne(ExchangedPackets(Some(false)), heard);
    SumOfOne(RemoteBytes(Some(false)), heard);
    SumOfOne(UdpPackets(Some(false)), heard);
    UdpSumPackets(r, Backward);
    UdpEntryPackets(r);
    UdpSumBytes(r, Backward);
    UdpEntryBytes(r);
  }

  /** Full-block senders: counting datagrams is dividing the byte total. */
  lemma FullBlockPackets(r: ReportInput)
    requires forall s :: s in r.streams && s.isSender ==>
               s.localBytes % Blk(r) == 0 && UnwrapOr(s.datagramsSent, s.localBytes / Blk(r)) == s.localBytes / Blk(r)
    ensures LocalSentPackets(r) == LocalSent(r) / Blk(r)
  {
    forall s | s in r.streams
      ensures LocalBytes(Some(true))(s) == Blk(r) * SentPackets(r)(s)
    {
      if s.isSender {
        WholeBlocks(s.localBytes, Blk(r));
      }
    }
    SumScale(LocalBytes(Some(true)), SentPackets(r), Blk(r), r.streams);
    ExactQuotient(LocalSentPackets(r), Blk(r));
  }

  lemma WholeBlocks(x: int, b: nat)
    requires b >= 1 && x % b == 0
    ensures x == b * (x / b)
  {
  }

  lemma ExactQuotient(n: int, b: nat)
    requires b >= 1
    ensures b * n / b == n
  {
    BlocksUnique(b * n, b, n);
  }

  lemma UdpEntryLost(r: ReportInput)
    requires r.protocol.Udp?
    ensures EntriesUdpLost(Build(r), true) == Total(r, UdpLost(Some(true)))
    ensures EntriesUdpLost(Build(r), false) == Total(r, UdpLost(Some(false)))
  {
    hide Blk;
    EntrySum(r, r.streams, UdpLostOf(true), UdpLost(Some(true)));
    EntrySum(r, r.streams, UdpLostOf(false), UdpLost(Some(false)));
  }

  /** Losses: only a direction the server sends prints a bare 0, whatever its entries hold. */
  lemma UdpLossConservation(r: ReportInput, d: Flow)
    requires r.protocol.Udp? && !r.bareEnd && Active(r, d) && Consistent(r)
    ensures var e := Build(r);
            var sends := LocalSends(r, d);
            && UdpSide(r, d, e).Some?
            && (UdpSide(r, d, e).value.lost == Some(EntriesUdpLost(e, sends))
                <==> !(r.isServer && sends) || Total(r, UdpLost(Some(true))) == 0)
  {
    hide Bps, Sum, MeanJitter, LocalSentPackets, ExchangedSentPackets, Blk, Entries, EntriesUdpLost;
    UdpEntryLost(r);
    if !r.bidir {
      OneDirection(r, LocalSends(r, d));
    }
  }

  // ---- Jitter ----

  function UdpJitterOf(sends: bool): EndStream -> real {
    (e: EndStream) => if e.udp.Some? && e.udp.value.sender == sends then e.udp.value.jitterMs else 0.0
  }

  lemma {:induction false} EntryJitter(r: ReportInput, streams: seq<StreamReport>, sends: bool)
    requires r.protocol.Udp?
    ensures SumReal(UdpJitterOf(sends), Entries(r, streams)) == 1000.0 * SumReal(UdpJitter(Some(sends)), streams)
  {
    hide UdpFigures;
    if streams != [] {
      EntryJitter(r, streams[1..], sends);
      assert Entries(r, streams)[1..] == Entries(r, streams[1..]);
    }
  }

  lemma {:induction false} OneDirectionJitter(streams: seq<StreamReport>, sends: bool)
    requires forall s :: s in streams ==> s.isSender == sends
    ensures SumReal(UdpJitter(None), streams) == SumReal(UdpJitter(Some(sends)), streams)
  {
    if streams != [] {
      assert streams[0] in streams && forall s :: s in streams[1..] ==> s in streams;
      OneDirectionJitter(streams[1..], sends);
    }
  }

  function Divisor(r: ReportInput): (n: int)
    ensures n >= 1
  {
    if r.numStreams < 1 then 1 else r.numStreams
  }

  /** The aggregate jitter is the mean of its entries' over the requested number of streams. */
  lemma JitterIsMean(r: ReportInput, d: Flow)
    requires r.protocol.Udp? && !r.bareEnd && Active(r, d) && Consistent(r) && !(r.isServer && LocalSends(r, d))
    ensures UdpSide(r, d, Build(r)).Some? && UdpSide(r, d, Build(r)).value.jitterMs.Some?
    ensures UdpSide(r, d, Build(r)).value.jitterMs.value * Divisor(r) as real
         == SumReal(UdpJitterOf(LocalSends(r, d)), Build(r).streams)
  {
    hide Build, UdpSide, SumReal, Entries, Divisor, UdpJitter, UdpJitterOf;
    var sends := LocalSends(r, d);
    EntryJitter(r, r.streams, sends);
    if !r.bidir {
      OneDirectionJitter(r.streams, sends);
    }
    JitterFigure(r, d);
    BuildStreams(r);
    Unmean(SumReal(UdpJitter(if r.bidir then Some(sends) else None), r.streams), Divisor(r) as real,
           UdpSide(r, d, Build(r)).value.jitterMs.value);
  }

  lemma BuildStreams(r: ReportInput)
    ensures Build(r).streams == Entries(r, r.streams)
  {
  }

  lemma JitterFigure(r: ReportInput, d: Flow)
    requires r.protocol.Udp? && !r.bareEnd && Active(r, d) && !(r.isServer && LocalSends(r, d))
    ensures UdpSide(r, d, Build(r)).Some?
    ensures UdpSide(r, d, Build(r)).value.jitterMs
         == Some(SumReal(UdpJitter(if r.bidir then Some(LocalSends(r, d)) else None), r.streams) / Divisor(r) as real * 1000.0)
  {
    hide Bps, Sum, LocalSentPackets, ExchangedSentPackets, Blk, Entries, PeerBytes, SumReal;
  }

  lemma Unmean(x: real, n: real, mean: real)
    requires n >= 1.0 && mean == x / n * 1000.0
    ensures mean * n == 1000.0 * x
  {
    assert x / n * n == x;
  }

  // ---- Direction flags ----

  /**
   The `sender` flags: both TCP sides and the UDP `sum` of a direction say whether this host sends it;
   the UDP sent and received sides are always the sender's and the receiver's view.
  */
  lemma SenderFlags(r: ReportInput, d: Flow)
    requires !r.bareEnd && Active(r, d)
    ensures var e := Build(r);
            && SentSide(r, d, e).Some? && ReceivedSide(r, d, e).Some?
            && (UdpSide(r, d, e).Some? <==> r.protocol.Udp?)
            && SentSide(r, d, e).value.sender == (r.protocol.Udp? || LocalSends(r, d))
            && ReceivedSide(r, d, e).value.sender == (r.protocol.Tcp? && LocalSends(r, d))
            && (UdpSide(r, d, e).Some? ==> UdpSide(r, d, e).value.sender == LocalSends(r, d))
  {
    hide Bps, Total, MeanJitter, LocalSentPackets, ExchangedSentPackets, Blk, Entries, PeerBytes, RetransmitsFor;
  }

  // ---- Loss percentages ----

  /**
   One loss percentage per direction: the received side divides by the packets `sum` shows, even where
   that count came from the other host, except for a direction a bidir server sends, which divides by 0.
  */
  lemma OnePercentBase(r: ReportInput, d: Flow)
    requires r.protocol.Udp? && !r.bareEnd && Active(r, d)
    ensures var e := Build(r);
            && UdpSide(r, d, e).Some? && ReceivedSide(r, d, e).Some? && UdpSide(r, d, e).value.packets.Some?
            && UdpSide(r, d, e).value.pctOver == UdpSide(r, d, e).value.packets
            && (ReceivedSide(r, d, e).value.pctOver == UdpSide(r, d, e).value.packets
                <==> !(r.isServer && r.bidir && LocalSends(r, d)) || LocalSentPackets(r) == 0)
  {
    hide Bps, Total, MeanJitter, LocalSentPackets, ExchangedSentPackets, Blk, Entries, PeerBytes, RetransmitsFor;
  }

  /** An entry has a percentage exactly when its packets are a sender's count, never for a server's received stream. */
  lemma EntryPercentBase(r: ReportInput, s: StreamReport)
    requires r.protocol.Udp?
    ensures Entry(r, s).udp.Some?
    ensures var u := Entry(r, s).udp.value;
            && (u.pctOver.None? || u.pctOver == Some(u.packets))
            && (u.pctOver.Some? <==> || s.isSender
                                     || (!r.isServer && !r.terminated
                                         && (Positive(s.remotePackets).Some? || UnwrapOr(s.remoteBytes, s.localBytes) > 0)))
  {
    hide Blk;
  }

  // ---- Two hosts, one run ----

  /** The two reports of one run: what each host counted is what the client was told by the exchange. */
  predicate Mirrored(client: ReportInput, server: ReportInput) {
    && !client.isServer && server.isServer
    && client.protocol == server.protocol && client.reverse == server.reverse && client.bidir == server.bidir
    && |client.streams| == |server.streams|
    && forall i :: 0 <= i < |client.streams| ==>
         && server.streams[i].isSender == !client.streams[i].isSender
         && client.streams[i].remoteBytes == Some(server.streams[i].localBytes)
  }

  lemma {:induction false} MirroredTotals(c: seq<StreamReport>, s: seq<StreamReport>, sends: bool)
    requires |c| == |s|
    requires forall i :: 0 <= i < |c| ==> s[i].isSender == !c[i].isSender && c[i].remoteBytes == Some(s[i].localBytes)
    ensures Sum(LocalBytes(Some(!sends)), s) == Sum(RemoteBytes(Some(sends)), c)
  {
    if c != [] {
      MirroredTotals(c[1..], s[1..], sends);
    }
  }

  /** The figure of the side this host did not measure, once every stream carries the peer's. */
  lemma ExchangedFigure(r: ReportInput, sends: bool)
    requires forall s :: s in r.streams ==> s.remoteBytes.Some?
    ensures Grafted(r, PeerBytes(r, sends), Total(r, LocalBytes(Some(sends)))) == Total(r, RemoteBytes(Some(sends)))
    ensures UnwrapOr(PeerBytes(r, sends), 0) == Total(r, RemoteBytes(Some(sends)))
  {
    if PeerBytes(r, sends).None? {
      NothingReported(r, sends);
      SumZero(Unreported(Some(sends)), r.streams);
    }
  }

  lemma UdpOtherSide(r: ReportInput, d: Flow)
    requires r.protocol.Udp? && !r.bareEnd && Active(r, d) && Consistent(r) && !r.isServer
    requires forall s :: s in r.streams ==> s.remoteBytes.Some?
    ensures SentSide(r, d, Build(r)).Some? && ReceivedSide(r, d, Build(r)).Some?
    ensures (if LocalSends(r, d) then ReceivedSide(r, d, Build(r)) else SentSide(r, d, Build(r))).value.bytes
         == Total(r, RemoteBytes(Some(LocalSends(r, d))))
  {
    hide Bps, Sum, MeanJitter, LocalSentPackets, ExchangedSentPackets, Blk, Entries, UdpPackets, UdpLost, PeerBytes;
    ExchangedFigure(r, LocalSends(r, d));
    if !r.bidir {
      NoStreams(r, !LocalSends(r, d));
      LocalIsNonNegative(r, Some(LocalSends(r, d)));
    }
  }

  lemma ServerSide(r: ReportInput, d: Flow)
    requires !r.bareEnd && Active(r, d) && Consistent(r) && r.isServer
    ensures SentSide(r, d, Build(r)).Some? && ReceivedSide(r, d, Build(r)).Some?
    ensures (if LocalSends(r, d) then SentSide(r, d, Build(r)) else ReceivedSide(r, d, Build(r))).value.bytes
         == Total(r, LocalBytes(Some(LocalSends(r, d))))
  {
    hide Bps, Sum, MeanJitter, LocalSentPackets, RetransmitsFor, EffectiveSenderFlag, Entries, UdpPackets, UdpLost;
  }

  /**
   The two ends of one run print the same byte count for every side the server measured, in either
   protocol and direction, whatever ended the run.
  */
  lemma HostsAgree(client: ReportInput, server: ReportInput, d: Flow)
    requires Mirrored(client, server) && !client.bareEnd && !server.bareEnd
    requires Active(client, d) && Consistent(client) && Consistent(server)
    ensures var c, s := Build(client), Build(server);
            if LocalSends(server, d) then
              && SentSide(server, d, s).Some? && SentSide(client, d, c).Some?
              && SentSide(server, d, s).value.bytes == SentSide(client, d, c).value.bytes
            else
              && ReceivedSide(server, d, s).Some? && ReceivedSide(client, d, c).Some?
              && ReceivedSide(server, d, s).value.bytes == ReceivedSide(client, d, c).value.bytes
  {
    var sends := LocalSends(client, d);
    assert forall x :: x in client.streams ==> x.remoteBytes.Some?;
    hide Build, SentSide, ReceivedSide, Sum, Consistent, Active;
    SameFlow(client, server, d);
    MirroredTotals(client.streams, server.streams, sends);
    ServerSide(server, d);
    if client.protocol.Udp? {
      UdpOtherSide(client, d);
    } else {
      TcpFigures(client, d);
      ExchangedFigure(client, sends);
    }
  }

  lemma SameFlow(client: ReportInput, server: ReportInput, d: Flow)
    requires client.bidir == server.bidir && client.reverse == server.reverse && Active(client, d)
    ensures Active(server, d)
  {
  }
}
