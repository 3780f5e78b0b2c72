/** The analysis side of the library: finding a thread's slot by its id,
    and the per-thread reports of a sampling measure, which walk each
    thread's ring buffer from its start up to the kernel's `data_head` and
    count the samples of each memory tier.

    The reports print their counters and percentages; here they return
    the counters of every thread reported, and the printed text (including
    the optional per-sample lines) is not modelled. */
module Analyse {
  import opened Bytes
  import opened Seqs
  import opened Records
  import opened Numap

  // ---------------------------------------------------------------------
  // Thread lookup.

  /** A `pid_t` as the `uint32_t` it is compared with. */
  function U32(x: int): (r: nat)
    ensures r < 0x1_0000_0000
    ensures 0 <= x < 0x1_0000_0000 ==> r == x
  {
    x % 0x1_0000_0000
  }

  /** The thread ids of a measure, as `uint32_t` values. */
  function U32s(ids: seq<int>): (r: seq<nat>)
    ensures |r| == |ids|
    ensures forall k :: 0 <= k < |ids| ==> r[k] == U32(ids[k])
  {
    if |ids| == 0 then [] else [U32(ids[0])] + U32s(ids[1..])
  }

  /** `get_index`: the first slot below `nbThreads` whose thread id equals
      `tid`, or -1. */
  method GetIndex(tid: nat, m: SamplingMeasure) returns (index: int)
    requires m.Valid() && tid < 0x1_0000_0000
    ensures index == FirstIndexOf(U32s(m.tids[..m.nbThreads]), tid)
  {
    ghost var ids := U32s(m.tids[..m.nbThreads]);
    index := 0;
    while index < m.nbThreads
      invariant 0 <= index <= m.nbThreads
      invariant forall u :: 0 <= u < index ==> ids[u] != tid
    {
      assert ids[index] == U32(m.tids[index]);
      if U32(m.tids[index]) == tid {
        FirstIndexOfAt(ids, tid, index);
        return index;
      }
      index := index + 1;
    }
    FirstIndexOfAt(ids, tid, index);
    return -1;
  }

  // ---------------------------------------------------------------------
  // The reports.

  /** What a report can read of one slot: no mapping, or the data area of
      its ring buffer with the kernel's `data_head`. */
  datatype PageView = NoPage | PageView(data: seq<byte>, head: nat)

  function ViewOf(p: MetadataPage?): PageView
    reads p
    reads if p == null then {} else {p.data}
  {
    if p == null then NoPage else PageView(p.data[..], p.dataHead)
  }

  /** The views of a sequence of slots. */
  function PageViews(pages: seq<MetadataPage?>): (vs: seq<PageView>)
    reads set p | p in pages && p != null :: p
    reads set p | p in pages && p != null :: p.data
    ensures |vs| == |pages|
    ensures forall t :: 0 <= t < |pages| ==> vs[t] == ViewOf(pages[t])
    decreases |pages|
  {
    if |pages| == 0 then []
    else
      assert pages[0] in pages && forall p :: p in pages[1..] ==> p in pages;
      [ViewOf(pages[0])] + PageViews(pages[1..])
  }

  /** How a report ends: every thread reported (0), a record of size 0
      (-1), or a read through a missing mapping or past a mapping's end,
      which the library does not guard against. */
  datatype PrintOutcome = Printed | ZeroSizeHeader | Crashed

  /** A report: how it ended and the counters of each thread reported, in
      thread order. */
  datatype PrintReport = PrintReport(outcome: PrintOutcome, tallies: seq<Tally>)

  /** The return code of a report that returns. */
  function ReturnCode(o: PrintOutcome): int
    requires o != Crashed
  {
    if o == Printed then 0 else -1
  }

  /** The report of one more thread after the threads counted in `done`. */
  function ThreadReport(done: seq<Tally>, v: PageView): PrintReport
  {
    match v
    case NoPage => PrintReport(Crashed, done)
    case PageView(data, head) =>
      match Walk(data, head)
      case Walked(srcs) => PrintReport(Printed, done + [CountAll(NoSamples, srcs)])
      case ZeroSize => PrintReport(ZeroSizeHeader, done)
      case Fault => PrintReport(Crashed, done)
  }

  /** The report over the given threads, in order: the first thread whose
      walk fails ends it, and each thread before it contributes its
      counters. */
  function Report(views: seq<PageView>): (r: PrintReport)
    ensures r.outcome == Printed ==> |r.tallies| == |views|
    ensures r.outcome != Printed ==> |r.tallies| < |views|
    decreases |views|
  {
    if |views| == 0 then PrintReport(Printed, [])
    else
      var before := Report(views[..|views| - 1]);
      if before.outcome != Printed then before
      else ThreadReport(before.tallies, views[|views| - 1])
  }

  /** The report over one more thread, after threads that all printed. */
  lemma ReportStep(views: seq<PageView>, k: nat, done: seq<Tally>)
    requires k < |views| && Report(views[..k]) == PrintReport(Printed, done)
    ensures Report(views[..k + 1]) == ThreadReport(done, views[k])
  {
    assert views[..k + 1][..k] == views[..k];
  }

  /** Once a thread's walk fails, no later thread changes the report. */
  lemma {:induction false} ReportKeepsFirstFailure(views: seq<PageView>, k: nat)
    requires k <= |views| && Report(views[..k]).outcome != Printed
    ensures Report(views) == Report(views[..k])
    decreases |views|
  {
    if k < |views| {
      var shorter := views[..|views| - 1];
      assert shorter[..k] == views[..k];
      ReportKeepsFirstFailure(shorter, k);
    } else {
      assert views[..k] == views;
    }
  }

  /** A thread's buffer starts with the encoding of the well-formed
      records `rs`, and `data_head` sits just past them. */
  predicate HoldsEncoded(v: PageView, rs: seq<Record>)
  {
    v.PageView? && AllWellFormed(rs) && v.head == TotalLen(rs)
    && TotalLen(rs) <= |v.data| && v.data[..TotalLen(rs)] == EncodeAll(rs)
  }

  /** The counters of threads whose buffers hold the given records. */
  function EncodedTallies(rss: seq<seq<Record>>): (ts: seq<Tally>)
    ensures |ts| == |rss|
    ensures forall t :: 0 <= t < |rss| ==> ts[t] == CountAll(NoSamples, SampleSrcs(rss[t]))
  {
    if |rss| == 0 then []
    else EncodedTallies(rss[..|rss| - 1]) + [CountAll(NoSamples, SampleSrcs(rss[|rss| - 1]))]
  }

  /** When every thread's buffer holds encoded well-formed records up to
      its `data_head`, every thread is reported, each counter counting the
      samples of its records. */
  lemma {:induction false} ReportOfEncodedBuffers(views: seq<PageView>, rss: seq<seq<Record>>)
    requires |rss| == |views|
    requires forall t :: 0 <= t < |views| ==> HoldsEncoded(views[t], rss[t])
    ensures Report(views) == PrintReport(Printed, EncodedTallies(rss))
    decreases |views|
  {
    if |views| > 0 {
      var n := |views| - 1;
      assert forall t :: 0 <= t < n ==> views[..n][t] == views[t] && rss[..n][t] == rss[t];
      ReportOfEncodedBuffers(views[..n], rss[..n]);
      assert HoldsEncoded(views[n], rss[n]);
      WalkEncodedPrefix(views[n].data, rss[n]);
    }
  }

  /** So each thread's sample total is the number of its sample records. */
  lemma ReportCountsEncodedSamples(views: seq<PageView>, rss: seq<seq<Record>>, t: nat)
    requires |rss| == |views| && t < |views|
    requires forall u :: 0 <= u < |views| ==> HoldsEncoded(views[u], rss[u])
    ensures Report(views).outcome == Printed && |Report(views).tallies| == |views|
    ensures Report(views).tallies[t].total == |SampleSrcs(rss[t])|
  {
    ReportOfEncodedBuffers(views, rss);
  }

  /** `numap_sampling_read_print`: for each thread below `nbThreads`, walk
      its ring buffer from offset 0 while the offset is below `data_head`,
      counting the samples of each tier; return -1 at a record of size 0. */
  method ReadPrint(m: SamplingMeasure) returns (report: PrintReport)
    requires m.Valid()
    ensures report == Report(PageViews(m.metadataPages[..m.nbThreads]))
  {
    ghost var views := PageViews(m.metadataPages[..m.nbThreads]);
    report := PrintReport(Printed, []);
    var thread := 0;
    while thread < m.nbThreads && report.outcome == Printed
      invariant 0 <= thread <= m.nbThreads
      invariant report.outcome == Printed ==> Report(views[..thread]) == report
      invariant report.outcome != Printed ==> Report(views) == report
    {
      var page := m.metadataPages[thread];
      assert views[thread] == ViewOf(page);
      ReportStep(views, thread, report.tallies);
      if page == null {
        report := PrintReport(Crashed, report.tallies);
      } else {
        report := PrintThread(page.data[..], page.dataHead, report.tallies);
      }
      if report.outcome != Printed {
        ReportKeepsFirstFailure(views, thread + 1);
      }
      thread := thread + 1;
    }
    if report.outcome == Printed {
      assert views[..thread] == views;
    }
    assert PageViews(m.metadataPages[..m.nbThreads]) == views;
  }

  /** The body of the report loop for one mapped thread, after the threads
      counted in `done`: its records are walked and counted. */
  method PrintThread(data: seq<byte>, head: nat, done: seq<Tally>) returns (r: PrintReport)
    ensures r == ThreadReport(done, PageView(data, head))
  {
    var status, tally := WalkRecords(data, head, NoSamples);
    if status == ZeroSizeRecord {
      return PrintReport(ZeroSizeHeader, done);
    } else if status == OutOfBounds {
      return PrintReport(Crashed, done);
    }
    return PrintReport(Printed, done + [tally]);
  }

  /** `numap_sampling_write_print`: the same walk and counters as the read
      report; its write samples are read with the read samples' layout. */
  method WritePrint(m: SamplingMeasure) returns (report: PrintReport)
    requires m.Valid()
    ensures report == Report(PageViews(m.metadataPages[..m.nbThreads]))
  {
    report := ReadPrint(m);
  }
}
