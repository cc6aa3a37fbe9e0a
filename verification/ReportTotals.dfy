/** Retransmit totals, and the independence of every aggregate from the order of the streams. */
module ReportTotals {
  import opened Report
  import opened ReportConservation
  import opened Sums
  import opened Wrappers

  // ---- Retransmits ----

  /** A total as a reader adds it up: absent and unavailable count as 0. */
  function Clamped(n: Option<int>): int {
    if n.Some? && n.value > 0 then n.value else 0
  }

  /** None, the -1 sentinel and a real total, told apart by what the selected streams report. */
  lemma RetransmitsShape(r: ReportInput, want: Want)
    ensures RetransmitsFor(r, want).None?
        <==> forall s :: s in r.streams && Selected(want, s) ==> s.retransmits.None?
    ensures RetransmitsFor(r, want) == Some(-1)
        <==> && (exists s :: s in r.streams && Selected(want, s) && s.retransmits.Some?)
             && forall s :: s in r.streams && Selected(want, s) && s.retransmits.Some? ==> s.retransmits.value < 0
    ensures RetransmitsFor(r, want).Some? && RetransmitsFor(r, want).value != -1
        ==> RetransmitsFor(r, want) == Some(Total(r, Retransmits(want))) && Total(r, Retransmits(want)) >= 0
  {
    AnyIsExists(Reports(want), r.streams);
    AnyIsExists(ReportsCount(want), r.streams);
    SumNonNegative(Retransmits(want), r.streams);
    if s :| s in r.streams && Selected(want, s) && s.retransmits.Some? {
      assert Reports(want)(s);
      if t :| t in r.streams && Selected(want, t) && t.retransmits.Some? && t.retransmits.value >= 0 {
        assert ReportsCount(want)(t);
      }
    }
  }

  lemma ClampedRetransmits(r: ReportInput, want: Want)
    ensures Clamped(RetransmitsFor(r, want)) == Total(r, Retransmits(want))
  {
    AnyIsExists(Reports(want), r.streams);
    AnyIsExists(ReportsCount(want), r.streams);
    SumNonNegative(Retransmits(want), r.streams);
    if !Any(ReportsCount(want), r.streams) {
      SumZero(Retransmits(want), r.streams);
    }
  }

  /** The unfiltered total is the sum of the two directions'. */
  lemma RetransmitsSplit(r: ReportInput)
    ensures Clamped(RetransmitsFor(r, None))
         == Clamped(RetransmitsFor(r, Some(true))) + Clamped(RetransmitsFor(r, Some(false)))
  {
    hide RetransmitsFor;
    ClampedRetransmits(r, None);
    ClampedRetransmits(r, Some(true));
    ClampedRetransmits(r, Some(false));
    SumAdd(Retransmits(None), Retransmits(Some(true)), Retransmits(Some(false)), r.streams);
  }

  function EntryRetransmitsOf(sends: bool): EndStream -> int {
    (e: EndStream) => if e.sender.Some? && e.sender.value.sender == sends then Clamped(e.sender.value.retransmits) else 0
  }

  function EntriesRetransmits(e: End, sends: bool): int {
    Sum(EntryRetransmitsOf(sends), e.streams)
  }

  /** The retransmits an entry of the direction shows. */
  function ShownRetransmits(r: ReportInput, sends: bool): StreamReport -> int {
    (s: StreamReport) => if s.isSender == sends && EmitExtras(r, s) then Clamped(s.retransmits) else 0
  }

  lemma EntryRetransmits(r: ReportInput, sends: bool)
    requires r.protocol.Tcp?
    ensures EntriesRetransmits(Build(r), sends)
         == if (r.isServer && !sends) || !EffectiveSenderFlag(r, sends) then 0 else Total(r, Retransmits(Some(sends)))
  {
    EntrySum(r, r.streams, EntryRetransmitsOf(sends), ShownRetransmits(r, sends));
    if (r.isServer && !sends) || !EffectiveSenderFlag(r, sends) {
      SumZero(ShownRetransmits(r, sends), r.streams);
    } else {
      SumSame(ShownRetransmits(r, sends), Retransmits(Some(sends)), r.streams);
    }
  }

  /** In a single-direction run the unfiltered total is that of the run's direction. */
  lemma OneDirectionRetransmits(r: ReportInput, sends: bool)
    requires forall s :: s in r.streams ==> s.isSender == sends
    ensures Total(r, Retransmits(None)) == Total(r, Retransmits(Some(sends)))
  {
    SumSame(Retransmits(None), Retransmits(Some(sends)), r.streams);
  }

  lemma AggregateRetransmits(r: ReportInput, d: Flow)
    requires r.protocol.Tcp? && !r.bareEnd && Active(r, d) && Consistent(r)
    ensures SentSide(r, d, Build(r)).Some?
    ensures Clamped(SentSide(r, d, Build(r)).value.retransmits)
         == if r.isServer && !LocalSends(r, d) && r.bidir then 0
            else if !EffectiveSenderFlag(r, LocalSends(r, d) || r.isServer) then 0
            else Total(r, Retransmits(Some(LocalSends(r, d))))
  {
    hide RetransmitsFor, EffectiveSenderFlag, Entries, Bps, Total, Grafted, Substituted;
    ClampedRetransmits(r, Some(LocalSends(r, d)));
    ClampedRetransmits(r, None);
    if !r.bidir {
      OneDirectionRetransmits(r, LocalSends(r, d));
    }
    StreamLessIsZero(r, LocalSends(r, d));
  }

  lemma StreamLessIsZero(r: ReportInput, sends: bool)
    ensures Clamped(StreamLessSenderRetransmits(r)) == 0
    ensures RetransmitsFor(r, Some(sends)).None? ==> Total(r, Retransmits(Some(sends))) == 0
    ensures RetransmitsFor(r, None).None? ==> Total(r, Retransmits(None)) == 0
  {
    hide RetransmitsFor;
    ClampedRetransmits(r, Some(sends));
    ClampedRetransmits(r, None);
  }

  /**
   The retransmits of a direction's sent aggregate are those its entries show, except that `build`, on its
   own, would have a single-direction server also total streams it received, whose entries show none.
  */
  lemma RetransmitAgreement(r: ReportInput, d: Flow)
    requires r.protocol.Tcp? && !r.bareEnd && Active(r, d) && Consistent(r)
    ensures var e := Build(r);
            var sends := LocalSends(r, d);
            && SentSide(r, d, e).Some?
            && (Clamped(SentSide(r, d, e).value.retransmits) == EntriesRetransmits(e, sends)
                <==> || !r.isServer || sends || r.bidir || !r.localHasRetransmitInfo
                     || Total(r, Retransmits(Some(false))) == 0)
  {
    hide Build, SentSide, Total, EntriesRetransmits;
    AggregateRetransmits(r, d);
    EntryRetransmits(r, LocalSends(r, d));
  }

  /** A server measures no retransmits on the streams it received. */
  predicate MeasuredBySenders(r: ReportInput) {
    r.isServer ==> forall s :: s in r.streams && !s.isSender ==> s.retransmits.None?
  }

  /** For every input a host gives `build`, the retransmits of a sent aggregate are those its entries show. */
  lemma RetransmitsConserved(r: ReportInput, d: Flow)
    requires r.protocol.Tcp? && !r.bareEnd && Active(r, d) && Consistent(r) && MeasuredBySenders(r)
    ensures SentSide(r, d, Build(r)).Some?
    ensures Clamped(SentSide(r, d, Build(r)).value.retransmits) == EntriesRetransmits(Build(r), LocalSends(r, d))
  {
    hide Build, SentSide, EntriesRetransmits, Sum;
    RetransmitAgreement(r, d);
    if r.isServer {
      SumZero(Retransmits(Some(false)), r.streams);
    }
  }

  /** The input that `build` alone would get wrong: a server's received stream with 4 retransmits. */
  lemma ReceivedRetransmitsDisagree()
    ensures var odd := PlainStream(false, 9, None).(retransmits := Some(4));
            var r := PlainClient(Tcp, false, [odd]).(isServer := true);
            var e := Build(r);
            e.sumSent.Some? && e.sumSent.value.retransmits == Some(4) && EntriesRetransmits(e, false) == 0
  {
    var odd := PlainStream(false, 9, None).(retransmits := Some(4));
    var r := PlainClient(Tcp, false, [odd]).(isServer := true);
    hide Sum, Entries, Bps;
    AnyIsExists(Reports(None), r.streams);
    AnyIsExists(ReportsCount(None), r.streams);
    assert Reports(None)(odd) && ReportsCount(None)(odd);
    SumOfOne(Retransmits(None), odd);
    EntryRetransmits(r, false);
  }

  // ---- A bidir client's own retransmits ----

  /** The streams this host sent, in order. */
  function Senders(streams: seq<StreamReport>): seq<StreamReport> {
    if streams == [] then []
    else if streams[0].isSender then [streams[0]] + Senders(streams[1..])
    else Senders(streams[1..])
  }

  lemma {:induction false} SumOverSenders(f: StreamReport -> int, streams: seq<StreamReport>)
    requires forall s :: s in streams && !s.isSender ==> f(s) == 0
    ensures Sum(f, Senders(streams)) == Sum(f, streams)
  {
    if streams != [] {
      assert streams[0] in streams && forall s :: s in streams[1..] ==> s in streams;
      SumOverSenders(f, streams[1..]);
      if streams[0].isSender {
        assert Senders(streams)[1..] == Senders(streams[1..]);
      }
    }
  }

  lemma {:induction false} AnyOverSenders(p: StreamReport -> bool, streams: seq<StreamReport>)
    requires forall s :: s in streams && !s.isSender ==> !p(s)
    ensures Any(p, Senders(streams)) == Any(p, streams)
  {
    if streams != [] {
      assert streams[0] in streams && forall s :: s in streams[1..] ==> s in streams;
      AnyOverSenders(p, streams[1..]);
      if streams[0].isSender {
        assert Senders(streams)[1..] == Senders(streams[1..]);
      }
    }
  }

  lemma SendersDecide(r: ReportInput, streams: seq<StreamReport>)
    requires Senders(r.streams) == Senders(streams)
    ensures RetransmitsFor(r.(streams := streams), Some(true)) == RetransmitsFor(r, Some(true))
  {
    AnyOverSenders(Reports(Some(true)), r.streams);
    AnyOverSenders(Reports(Some(true)), streams);
    AnyOverSenders(ReportsCount(Some(true)), r.streams);
    AnyOverSenders(ReportsCount(Some(true)), streams);
    SumOverSenders(Retransmits(Some(true)), r.streams);
    SumOverSenders(Retransmits(Some(true)), streams);
  }

  lemma NoSendersNoRetransmits(r: ReportInput)
    requires Senders(r.streams) == []
    ensures RetransmitsFor(r, Some(true)) == None
  {
    AnyOverSenders(Reports(Some(true)), r.streams);
  }

  /**
   Client TCP bidir: the receiving streams never enter `sum_sent.retransmits`.  To `build`, on its own, they
   can only matter by existing at all: without any stream a retransmit-capable sender prints 0, not nothing.
  */
  lemma ReceiversDoNotCount(r: ReportInput, streams: seq<StreamReport>)
    requires r.protocol.Tcp? && !r.isServer && r.bidir && !r.bareEnd && Senders(r.streams) == Senders(streams)
    ensures var a, b := Build(r).sumSent, Build(r.(streams := streams)).sumSent;
            && a.Some? && b.Some?
            && (a.value.retransmits == b.value.retransmits
                <==> !r.localHasRetransmitInfo || r.reverse || (r.streams == [] <==> streams == []))
  {
    hide RetransmitsFor, Entries, Bps, Grafted, PeerBytes, LocalSent, LocalRecv;
    SendersDecide(r, streams);
    if r.streams == [] || streams == [] {
      NoSendersNoRetransmits(r);
    }
  }

  /** The streams a bidir client has created so far: n senders first, then up to n receivers. */
  predicate CreatedInOrder(streams: seq<StreamReport>, n: nat) {
    |streams| <= 2 * n && forall i :: 0 <= i < |streams| ==> (streams[i].isSender <==> i < n)
  }

  /** Of the streams a client creates, however many there are yet, only the senders decide `sum_sent.retransmits`. */
  lemma CreatedReceiversDoNotCount(r: ReportInput, streams: seq<StreamReport>, n: nat)
    requires r.protocol.Tcp? && !r.isServer && r.bidir && !r.bareEnd && Senders(r.streams) == Senders(streams)
    requires CreatedInOrder(r.streams, n) && CreatedInOrder(streams, n)
    ensures var a, b := Build(r).sumSent, Build(r.(streams := streams)).sumSent;
            a.Some? && b.Some? && a.value.retransmits == b.value.retransmits
  {
    hide Build;
    ReceiversDoNotCount(r, streams);
    assert r.streams != [] ==> Senders(r.streams) != [];
    assert streams != [] ==> Senders(streams) != [];
  }

  /** The inputs that `build` alone would tell apart: no stream, and one receiving stream. */
  lemma LoneReceiverCounts()
    ensures var none := PlainClient(Tcp, false, []).(bidir := true);
            var lone := none.(streams := [PlainStream(false, 9, None)]);
            && Build(none).sumSent.Some? && Build(none).sumSent.value.retransmits == Some(0)
            && Build(lone).sumSent.Some? && Build(lone).sumSent.value.retransmits == None
  {
    hide Entries, Bps, Grafted, PeerBytes, Sum;
    var s := PlainStream(false, 9, None);
    AnyIsExists(Reports(Some(true)), []);
    AnyIsExists(Reports(Some(true)), [s]);
  }

  // ---- Order ----

  lemma TotalReordered(r: ReportInput, q: ReportInput, f: StreamReport -> int)
    requires multiset(r.streams) == multiset(q.streams)
    ensures Total(r, f) == Total(q, f)
  {
    SumReordered(f, r.streams, q.streams);
  }

  lemma DirectionReordered(r: ReportInput, q: ReportInput, want: Want)
    requires q == r.(streams := q.streams) && multiset(r.streams) == multiset(q.streams)
    ensures Total(r, LocalBytes(want)) == Total(q, LocalBytes(want))
    ensures Total(r, UdpPackets(want)) == Total(q, UdpPackets(want))
    ensures Total(r, UdpLost(want)) == Total(q, UdpLost(want))
    ensures MeanJitter(r, want) == MeanJitter(q, want)
    ensures RetransmitsFor(r, want) == RetransmitsFor(q, want)
  {
    TotalReordered(r, q, LocalBytes(want));
    TotalReordered(r, q, UdpPackets(want));
    TotalReordered(r, q, UdpLost(want));
    SumRealReordered(UdpJitter(want), r.streams, q.streams);
    AnyReordered(Reports(want), r.streams, q.streams);
    AnyReordered(ReportsCount(want), r.streams, q.streams);
    TotalReordered(r, q, Retransmits(want));
  }

  lemma ExchangeReordered(r: ReportInput, q: ReportInput, sends: bool)
    requires q == r.(streams := q.streams) && multiset(r.streams) == multiset(q.streams)
    ensures PeerBytes(r, sends) == PeerBytes(q, sends)
    ensures ExchangedSentPackets(r, sends) == ExchangedSentPackets(q, sends)
  {
    AnyReordered(Reported(Some(sends)), r.streams, q.streams);
    TotalReordered(r, q, RemoteBytes(Some(sends)));
    AnyReordered(InDirection(Some(sends)), r.streams, q.streams);
    AnyReordered(NoPacketCount(Some(sends)), r.streams, q.streams);
    TotalReordered(r, q, ExchangedPackets(Some(sends)));
  }

  lemma SentPacketsReordered(r: ReportInput, q: ReportInput)
    requires q == r.(streams := q.streams) && multiset(r.streams) == multiset(q.streams)
    ensures LocalSentPackets(r) == LocalSentPackets(q)
  {
    hide Blk;
    TotalReordered(r, q, SentPackets(r));
    BlkSame(r, q);
    SumSame(SentPackets(r), SentPackets(q), q.streams);
  }

  lemma BlkSame(r: ReportInput, q: ReportInput)
    requires r.blksize == q.blksize
    ensures Blk(r) == Blk(q)
  {
  }

  /** The six aggregates do not depend on the order in which the streams are listed. */
  lemma AggregatesReordered(r: ReportInput, q: ReportInput)
    requires q == r.(streams := q.streams) && multiset(r.streams) == multiset(q.streams)
    ensures Aggregate(q) == Aggregate(r)
  {
    hide Total, MeanJitter, RetransmitsFor, PeerBytes, ExchangedSentPackets, LocalSentPackets, Blk, Bps;
    DirectionReordered(r, q, None);
    DirectionReordered(r, q, Some(true));
    DirectionReordered(r, q, Some(false));
    ExchangeReordered(r, q, true);
    ExchangeReordered(r, q, false);
    SentPacketsReordered(r, q);
    BlkSame(r, q);
    SameEmptiness(r.streams, q.streams);
  }

  lemma SameEmptiness<T>(s: seq<T>, t: seq<T>)
    requires multiset(s) == multiset(t)
    ensures s == [] <==> t == []
  {
    assert |multiset(s)| == |s| && |multiset(t)| == |t|;
  }
}
