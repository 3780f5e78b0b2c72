/** The buffer-flush example: an overflow handler that backs up the unread
    part of a thread's ring buffer into a list of snapshots, the walk that
    frees that list, and the report that walks the backed-up records of
    every thread.

    The list `msb` (newest snapshot first) is a field of `Backups`; its
    mutex changes nothing in this sequential model. A snapshot's buffer is
    the value of the bytes copied into it. */
module Example2 {
  import opened Bytes
  import opened Seqs
  import DataSrc
  import opened Records
  import opened Numap
  import opened Analyse

  /** A `mem_sampling_backed` node: the fd of the ring buffer it was
      copied from and the copied bytes (`buffer_size` is their length). */
  datatype Snapshot = Snapshot(fd: int, buffer: seq<byte>)

  // ---------------------------------------------------------------------
  // The ring-buffer arithmetic of the handler.

  /** The kernel's head as the handler uses it: reduced modulo the data
      size when it lies beyond the data area. */
  function NormHead(head: nat, size: nat): (h: nat)
    requires size > 0 || head <= size
    ensures h <= size
    ensures head <= size ==> h == head
    ensures head > size ==> h < size
  {
    if head > size then head % size else head
  }

  /** The number of unread bytes from `tail` to `head` in a ring of `size`
      bytes; when the two meet, the whole ring is unread. */
  function Span(head: nat, tail: nat, size: nat): (n: nat)
    requires head <= size && tail <= size
    ensures n <= size
    ensures head == tail ==> n == size
  {
    if head > tail then head - tail else (size - tail) + head
  }

  /** The unread bytes, in reading order: from `tail` up to `head`, or
      from `tail` to the end of the ring followed by its start up to
      `head`. */
  function Window(data: seq<byte>, tail: nat, head: nat): (w: seq<byte>)
    requires head <= |data| && tail <= |data|
    ensures |w| == Span(head, tail, |data|)
  {
    if head > tail then data[tail..head] else data[tail..] + data[..head]
  }

  /** The window holds the ring's bytes from `tail` on, each read from its
      position in the ring, wrapping past the end to the start, with no
      gap and no repetition. */
  lemma WindowIsRingOrder(data: seq<byte>, tail: nat, head: nat)
    requires head <= |data| && tail <= |data|
    ensures forall k :: 0 <= k < |Window(data, tail, head)| ==>
      tail + k < 2 * |data|
      && Window(data, tail, head)[k] == (if tail + k < |data| then data[tail + k] else data[tail + k - |data|])
  {
    var n := |data|;
    var w := Window(data, tail, head);
    forall k | 0 <= k < |w|
      ensures tail + k < 2 * n
      ensures w[k] == (if tail + k < n then data[tail + k] else data[tail + k - n])
    {
      if head <= tail && k >= n - tail {
        assert w[k] == data[..head][k - (n - tail)];
      }
    }
  }

  // ---------------------------------------------------------------------
  // The handler and the snapshot list.

  /** How the handler ends: the unread bytes backed up, no slot with the
      fd (the process exits), or a fault: the matching slot has no mapping,
      or a head beyond an empty data area is reduced modulo zero. */
  datatype FlushOutcome = Flushed | NoSlot | Faulted

  /** The slot the handler picks for `fd`: the last one below `nbThreads`
      holding it, since its loop never stops early. */
  function FlushSlot(m: SamplingMeasure, fd: int): (i: int)
    requires m.Valid()
    reads m`nbThreads, m.fdPerTid
    ensures -1 <= i < m.nbThreads
  {
    LastIndexOf(m.fdPerTid[..m.nbThreads], fd)
  }

  /** The ring buffer a flush of `fd` may write: that of its slot, if it
      is mapped. */
  function FlushTarget(m: SamplingMeasure, fd: int): set<MetadataPage>
    requires m.Valid()
    reads m`nbThreads, m.fdPerTid, m.metadataPages
  {
    var i := FlushSlot(m, fd);
    if i == -1 || m.metadataPages[i] == null then {} else {m.metadataPages[i]}
  }

  /** The global snapshot list `msb`. */
  class Backups {
    var msb: seq<Snapshot>

    constructor ()
      ensures msb == []
    {
      msb := [];
    }

    /** The slot search of `handler`. */
    method LastSlotWithFd(m: SamplingMeasure, fd: int) returns (i: int)
      requires m.Valid()
      ensures i == FlushSlot(m, fd)
    {
      ghost var fds := m.fdPerTid[..m.nbThreads];
      i := -1;
      var k := 0;
      while k < m.nbThreads
        invariant 0 <= k <= m.nbThreads
        invariant -1 <= i < k && (i >= 0 ==> fds[i] == fd)
        invariant forall u :: i < u < k ==> fds[u] != fd
      {
        if m.fdPerTid[k] == fd {
          i := k;
        }
        k := k + 1;
      }
      LastIndexOfAt(fds, fd, i);
    }

    /** `handler`: back up the unread bytes of the ring buffer of `fd`'s
        slot as a new snapshot at the head of the list, and mark them read. */
    method Handler(m: SamplingMeasure, fd: int) returns (st: FlushOutcome)
      requires m.Valid()
      requires forall t :: 0 <= t < MAX_NB_THREADS && m.metadataPages[t] != null ==> m.metadataPages[t].Valid()
      modifies this`msb, FlushTarget(m, fd)
      ensures var i := old(FlushSlot(m, fd));
        if i == -1 then st == NoSlot && msb == old(msb)
        else
          var page := old(m.metadataPages[i]);
          if page == null || (page.dataSize == 0 && old(page.dataHead) > 0) then
            st == Faulted && msb == old(msb) && (page != null ==> unchanged(page))
          else
            var head := NormHead(old(page.dataHead), page.dataSize);
            old(page.Valid()) && st == Flushed && page.dataHead == head && page.dataTail == head && page.Valid()
            && msb == [Snapshot(fd, Window(page.data[..], old(page.dataTail), head))] + old(msb)
    {
      var i := LastSlotWithFd(m, fd);
      if i == -1 {
        return NoSlot;
      }
      var page := m.metadataPages[i];
      if page == null {
        return Faulted;
      }
      st := Flush(page, fd);
    }

    /** The part of `handler` past the slot search: reduce the head into
        the data area and write it back, copy the bytes from the tail up to
        the head (wrapping at the end of the data area) into a new snapshot
        at the head of the list, and move the tail up to the head. A head
        past an empty data area is reduced modulo zero. */
    method Flush(page: MetadataPage, fd: int) returns (st: FlushOutcome)
      requires page.Valid()
      modifies this`msb, page
      ensures if page.dataSize == 0 && old(page.dataHead) > 0 then
          st == Faulted && msb == old(msb) && unchanged(page)
        else
          var head := NormHead(old(page.dataHead), page.dataSize);
          st == Flushed && page.dataHead == head && page.dataTail == head && page.Valid()
          && msb == [Snapshot(fd, Window(page.data[..], old(page.dataTail), head))] + old(msb)
    {
      if page.dataHead > page.dataSize {
        if page.dataSize == 0 {
          return Faulted;
        }
        page.dataHead := page.dataHead % page.dataSize;
      }
      var head := page.dataHead;
      var tail := page.dataTail;
      var buffer: seq<byte>;
      if head > tail {
        buffer := page.data[tail..head];
      } else {
        buffer := page.data[tail..page.dataSize] + page.data[..head];
      }
      assert buffer == Window(page.data[..], tail, head);
      msb := [Snapshot(fd, buffer)] + msb;
      page.dataTail := head;
      return Flushed;
    }
  }

  /** `free_mem_sampling_backed`: walk the list from its head, releasing
      each node; the nodes released, in order. */
  method FreeMemSamplingBacked(toClean: seq<Snapshot>) returns (freed: seq<Snapshot>)
    ensures freed == toClean
  {
    freed := [];
    var rest := toClean;
    while rest != []
      invariant freed + rest == toClean
      decreases |rest|
    {
      freed := freed + [rest[0]];
      rest := rest[1..];
    }
  }

  // ---------------------------------------------------------------------
  // The report over the snapshots.

  /** The counters `numap_sampling_print_backed` keeps per thread, less
      the four cache-level counters, whose predicates no file of the
      library defines: the read report's counters without its local-cache
      one. */
  datatype BackedTally = BackedTally(naMiss: nat, localMemory: nat, remoteMemory: nat, remoteCache: nat, total: nat)

  function Backed(t: Tally): (b: BackedTally)
    ensures b.total == t.total && b.naMiss == t.naMiss
  {
    BackedTally(t.naMiss, t.localMemory, t.remoteMemory, t.remoteCache, t.total)
  }

  /** Each counter of a thread's backed report is the number of its samples
      served by that counter's tier, and the total the number of samples. */
  lemma BackedCountsTiers(srcs: seq<bv64>)
    ensures Backed(CountAll(NoSamples, srcs)) == BackedTally(
      Matching(srcs, DataSrc.IsServedByLocalNAMiss),
      Matching(srcs, DataSrc.IsServedByLocalMemory),
      Matching(srcs, DataSrc.IsServedByRemoteMemory),
      Matching(srcs, DataSrc.IsServedByRemoteCacheOrLocalMemory),
      |srcs|)
  {
    CountAllCounts(NoSamples, srcs);
  }

  /** Where the walk over a thread's snapshots stands: the counters so
      far, or the error that ended it. */
  datatype Accum = Counted(tally: Tally) | StoppedAtZeroSize | StoppedAtFault

  /** The walk over the snapshots from the head of the list, counting
      into `t` the samples of each snapshot whose fd is `fd`; each is
      walked up to its own size. */
  function ThreadBacked(list: seq<Snapshot>, fd: int, t: Tally): Accum
    decreases |list|
  {
    if |list| == 0 then Counted(t)
    else if list[0].fd != fd then ThreadBacked(list[1..], fd, t)
    else
      match Walk(list[0].buffer, |list[0].buffer|)
      case Walked(srcs) => ThreadBacked(list[1..], fd, CountAll(t, srcs))
      case ZeroSize => StoppedAtZeroSize
      case Fault => StoppedAtFault
  }

  /** A report over the snapshots: how it ended and each reported thread's
      counters. */
  datatype BackedReport = BackedReport(outcome: PrintOutcome, tallies: seq<BackedTally>)

  /** The report for the threads whose fds are `fds`, in order, over a
      non-empty list: the first thread whose walk fails ends it. */
  function ThreadsBacked(fds: seq<int>, list: seq<Snapshot>): (r: BackedReport)
    ensures r.outcome == Printed ==> |r.tallies| == |fds|
    ensures r.outcome != Printed ==> |r.tallies| < |fds|
    decreases |fds|
  {
    if |fds| == 0 then BackedReport(Printed, [])
    else
      var before := ThreadsBacked(fds[..|fds| - 1], list);
      if before.outcome != Printed then before
      else
        match ThreadBacked(list, fds[|fds| - 1], NoSamples)
        case Counted(t) => BackedReport(Printed, before.tallies + [Backed(t)])
        case StoppedAtZeroSize => BackedReport(ZeroSizeHeader, before.tallies)
        case StoppedAtFault => BackedReport(Crashed, before.tallies)
  }

  /** `numap_sampling_print_backed` as a function: nothing to report for
      an empty list, otherwise one report per thread. */
  function PrintBackedSpec(fds: seq<int>, list: seq<Snapshot>): BackedReport
  {
    if |list| == 0 then BackedReport(Printed, []) else ThreadsBacked(fds, list)
  }

  /** The snapshots of one fd. */
  function OfFd(list: seq<Snapshot>, fd: int): (r: seq<Snapshot>)
    ensures |r| <= |list|
    ensures forall k :: 0 <= k < |r| ==> r[k].fd == fd && r[k] in list
  {
    if |list| == 0 then []
    else if list[0].fd == fd then [list[0]] + OfFd(list[1..], fd)
    else OfFd(list[1..], fd)
  }

  /** A thread's walk sees only the snapshots of its own fd. */
  lemma {:induction false} OnlyOwnSnapshots(list: seq<Snapshot>, fd: int, t: Tally)
    ensures ThreadBacked(list, fd, t) == ThreadBacked(OfFd(list, fd), fd, t)
    decreases |list|
  {
    if |list| > 0 {
      OnlyOwnSnapshots(list[1..], fd, t);
      if list[0].fd == fd {
        var rest := OfFd(list[1..], fd);
        assert OfFd(list, fd) == [list[0]] + rest;
        assert ([list[0]] + rest)[1..] == rest;
        match Walk(list[0].buffer, |list[0].buffer|)
        case Walked(srcs) => OnlyOwnSnapshots(list[1..], fd, CountAll(t, srcs));
        case ZeroSize =>
        case Fault =>
      }
    }
  }

  /** Every snapshot holds the encoding of the well-formed records at the
      same position of `rss`. */
  predicate SnapshotsEncode(list: seq<Snapshot>, rss: seq<seq<Record>>)
  {
    |rss| == |list|
    && forall k :: 0 <= k < |list| ==> AllWellFormed(rss[k]) && list[k].buffer == EncodeAll(rss[k])
  }

  /** The `data_src` words of the samples of the snapshots of `fd`, in list
      order. */
  function SrcsOfFd(list: seq<Snapshot>, rss: seq<seq<Record>>, fd: int): seq<bv64>
    requires |rss| == |list|
    decreases |list|
  {
    if |list| == 0 then []
    else (if list[0].fd == fd then SampleSrcs(rss[0]) else []) + SrcsOfFd(list[1..], rss[1..], fd)
  }

  /** Over snapshots of encoded records, a thread's walk counts, in list
      order, every sample of every snapshot of its fd. */
  lemma {:induction false} BackedCountsEncoded(list: seq<Snapshot>, rss: seq<seq<Record>>, fd: int, t: Tally)
    requires SnapshotsEncode(list, rss)
    ensures ThreadBacked(list, fd, t) == Counted(CountAll(t, SrcsOfFd(list, rss, fd)))
    decreases |list|
  {
    if |list| > 0 {
      assert SnapshotsEncode(list[1..], rss[1..]) by {
        assert forall k :: 0 <= k < |list| - 1 ==> list[1..][k] == list[k + 1] && rss[1..][k] == rss[k + 1];
      }
      if list[0].fd == fd {
        WalkEncoded(rss[0]);
        BackedCountsEncoded(list[1..], rss[1..], fd, CountAll(t, SampleSrcs(rss[0])));
        CountAllAppend(t, SampleSrcs(rss[0]), SrcsOfFd(list[1..], rss[1..], fd));
      } else {
        BackedCountsEncoded(list[1..], rss[1..], fd, t);
        assert SrcsOfFd(list, rss, fd) == SrcsOfFd(list[1..], rss[1..], fd);
      }
    }
  }

  /** The backed counters of the threads of `fds` over snapshots of
      encoded records. */
  function EncodedBacked(fds: seq<int>, list: seq<Snapshot>, rss: seq<seq<Record>>): (ts: seq<BackedTally>)
    requires |rss| == |list|
    ensures |ts| == |fds|
    ensures forall i :: 0 <= i < |fds| ==> ts[i] == Backed(CountAll(NoSamples, SrcsOfFd(list, rss, fds[i])))
  {
    if |fds| == 0 then []
    else EncodedBacked(fds[..|fds| - 1], list, rss) + [Backed(CountAll(NoSamples, SrcsOfFd(list, rss, fds[|fds| - 1])))]
  }

  /** Over snapshots of encoded records every thread is reported: nothing
      for an empty list, otherwise each thread's counters over all the
      samples of its fd's snapshots. */
  lemma {:induction false} PrintBackedOfEncoded(fds: seq<int>, list: seq<Snapshot>, rss: seq<seq<Record>>)
    requires SnapshotsEncode(list, rss)
    ensures PrintBackedSpec(fds, list).outcome == Printed
    ensures PrintBackedSpec(fds, list).tallies == if |list| == 0 then [] else EncodedBacked(fds, list, rss)
    decreases |fds|
  {
    if |list| > 0 && |fds| > 0 {
      var n := |fds| - 1;
      PrintBackedOfEncoded(fds[..n], list, rss);
      BackedCountsEncoded(list, rss, fds[n], NoSamples);
    }
  }

  /** The body of the report's inner loop over the snapshots, for the
      thread of `fd`. */
  method WalkSnapshots(list: seq<Snapshot>, fd: int) returns (acc: Accum)
    ensures acc == ThreadBacked(list, fd, NoSamples)
  {
    var tally := NoSamples;
    var k := 0;
    while k < |list|
      invariant 0 <= k <= |list|
      invariant ThreadBacked(list, fd, NoSamples) == ThreadBacked(list[k..], fd, tally)
    {
      assert list[k..][1..] == list[k + 1..];
      if list[k].fd == fd {
        var status, next := WalkRecords(list[k].buffer, |list[k].buffer|, tally);
        if status == ZeroSizeRecord {
          return StoppedAtZeroSize;
        } else if status == OutOfBounds {
          return StoppedAtFault;
        }
        tally := next;
      }
      k := k + 1;
    }
    return Counted(tally);
  }

  /** `numap_sampling_print_backed`: return 0 at once for an empty list;
      otherwise, for each thread below `nbThreads`, walk the snapshots of
      its fd and report its counters; return -1 at a record of size 0. */
  method PrintBacked(m: SamplingMeasure, list: seq<Snapshot>) returns (report: BackedReport)
    requires m.Valid()
    ensures report == PrintBackedSpec(m.fdPerTid[..m.nbThreads], list)
  {
    if |list| == 0 {
      return BackedReport(Printed, []);
    }
    ghost var fds := m.fdPerTid[..m.nbThreads];
    var tallies: seq<BackedTally> := [];
    var thread := 0;
    while thread < m.nbThreads
      invariant 0 <= thread <= m.nbThreads
      invariant ThreadsBacked(fds[..thread], list) == BackedReport(Printed, tallies)
    {
      assert fds[..thread + 1][..thread] == fds[..thread];
      var acc := WalkSnapshots(list, m.fdPerTid[thread]);
      if !acc.Counted? {
        ThreadsBackedKeepsFirstFailure(fds, thread + 1, list);
        return BackedReport(if acc.StoppedAtZeroSize? then ZeroSizeHeader else Crashed, tallies);
      }
      tallies := tallies + [Backed(acc.tally)];
      thread := thread + 1;
    }
    assert fds[..thread] == fds;
    return BackedReport(Printed, tallies);
  }

  /** Once a thread's walk fails, no later thread changes the report. */
  lemma {:induction false} ThreadsBackedKeepsFirstFailure(fds: seq<int>, k: nat, list: seq<Snapshot>)
    requires k <= |fds| && ThreadsBacked(fds[..k], list).outcome != Printed
    ensures ThreadsBacked(fds, list) == ThreadsBacked(fds[..k], list)
    decreases |fds|
  {
    if k < |fds| {
      var shorter := fds[..|fds| - 1];
      assert shorter[..k] == fds[..k];
      ThreadsBackedKeepsFirstFailure(shorter, k, list);
    } else {
      assert fds[..k] == fds;
    }
  }
}
