/** The records the kernel writes into a perf ring buffer, and the linear
    walk the library uses to visit them.

    Each record starts with an 8-byte `perf_event_header`: a 32-bit type, a
    16-bit `misc` field and a 16-bit total size, little-endian. A
    `PERF_RECORD_SAMPLE` record (type 9) carries, with the sample fields the
    library requests, the payload `ip, addr, weight, data_src` (64 bits
    each), so its `data_src` word sits at bytes 32..40 of the record. */
module Records {
  import opened Bytes
  import opened DataSrc

  const PERF_RECORD_SAMPLE: nat := 9
  const HEADER_SIZE: nat := 8
  /** Offset of `data_src` in a sample record: header, then ip, addr, weight. */
  const DATA_SRC_OFFSET: nat := 32
  /** Size of a sample record: header plus four 64-bit fields. */
  const SAMPLE_SIZE: nat := 40

  /** The `type` field of the header at `off`. */
  function RecordType(data: seq<byte>, off: nat): (t: nat)
    requires off + HEADER_SIZE <= |data|
  {
    LE(data[off..off + 4])
  }

  /** The `size` field of the header at `off`. */
  function RecordSize(data: seq<byte>, off: nat): (s: nat)
    requires off + HEADER_SIZE <= |data|
  {
    LE(data[off + 6..off + 8])
  }

  lemma Pow256Of8()
    ensures Pow256(8) == 0x1_0000_0000_0000_0000
  {
  }

  /** The `data_src` word of the sample record at `off`. */
  function DataSrcAt(data: seq<byte>, off: nat): (src: bv64)
    requires off + SAMPLE_SIZE <= |data|
  {
    Pow256Of8();
    LE(data[off + DATA_SRC_OFFSET..off + SAMPLE_SIZE]) as bv64
  }

  /** How a walk ends: every record before the limit visited (with the
      `data_src` words of the sample records, in order), a record of size 0
      (the library's -1), or a read past the end of the buffer (undefined
      behaviour in the library). */
  datatype WalkResult = Walked(srcs: seq<bv64>) | ZeroSize | Fault

  /** The walk from offset `off`, having already collected `acc`: while the
      offset is below `limit`, read a header, stop on size 0, collect the
      `data_src` of a sample and advance by the record's size. */
  function WalkFrom(data: seq<byte>, off: nat, limit: nat, acc: seq<bv64>): (r: WalkResult)
    decreases limit - off
  {
    if off >= limit then Walked(acc)
    else if off + HEADER_SIZE > |data| then Fault
    else if RecordSize(data, off) == 0 then ZeroSize
    else if RecordType(data, off) == PERF_RECORD_SAMPLE then
      if off + SAMPLE_SIZE > |data| then Fault
      else WalkFrom(data, off + RecordSize(data, off), limit, acc + [DataSrcAt(data, off)])
    else WalkFrom(data, off + RecordSize(data, off), limit, acc)
  }

  /** The walk over the records of a buffer, up to `limit` bytes. */
  function Walk(data: seq<byte>, limit: nat): WalkResult
  {
    WalkFrom(data, 0, limit, [])
  }

  // ---------------------------------------------------------------------
  // Encoding records, as the kernel lays them out.

  /** A record: a sample with its four payload fields, or any other record
      type with an opaque body. */
  datatype Record =
    | Sample(misc: nat, ip: nat, addr: nat, weight: nat, src: bv64)
    | Other(rtype: nat, misc: nat, body: seq<byte>)

  /** The records the kernel can emit: fields fit their widths, the total
      size fits the 16-bit size field, and non-sample types differ from 9. */
  predicate WellFormed(r: Record)
  {
    match r
    case Sample(misc, ip, addr, weight, _) =>
      misc < Pow256(2) && ip < Pow256(8) && addr < Pow256(8) && weight < Pow256(8)
    case Other(rtype, misc, body) =>
      rtype < Pow256(4) && rtype != PERF_RECORD_SAMPLE && misc < Pow256(2)
      && HEADER_SIZE + |body| < Pow256(2)
  }

  function EncodeHeader(rtype: nat, misc: nat, size: nat): (h: seq<byte>)
    ensures |h| == HEADER_SIZE
  {
    EncodeLE(rtype, 4) + EncodeLE(misc, 2) + EncodeLE(size, 2)
  }

  /** The header type a record carries. */
  function TypeOf(r: Record): nat
  {
    if r.Sample? then PERF_RECORD_SAMPLE else r.rtype
  }

  /** The size a record's header announces: its whole encoded length. */
  function RecordLen(r: Record): nat
  {
    if r.Sample? then SAMPLE_SIZE else HEADER_SIZE + |r.body|
  }

  function EncodeRecord(r: Record): (e: seq<byte>)
    ensures |e| == RecordLen(r)
  {
    match r
    case Sample(misc, ip, addr, weight, src) =>
      EncodeHeader(PERF_RECORD_SAMPLE, misc, SAMPLE_SIZE)
      + EncodeLE(ip, 8) + EncodeLE(addr, 8) + EncodeLE(weight, 8) + EncodeLE(src as nat, 8)
    case Other(rtype, misc, body) =>
      EncodeHeader(rtype, misc, HEADER_SIZE + |body|) + body
  }

  /** The summed lengths of a record list. */
  function TotalLen(rs: seq<Record>): nat
  {
    if |rs| == 0 then 0 else RecordLen(rs[0]) + TotalLen(rs[1..])
  }

  function EncodeAll(rs: seq<Record>): (e: seq<byte>)
    ensures |e| == TotalLen(rs)
  {
    if |rs| == 0 then [] else EncodeRecord(rs[0]) + EncodeAll(rs[1..])
  }

  /** The `data_src` word of a sample record, or nothing. */
  function FirstSrc(r: Record): (s: seq<bv64>)
  {
    if r.Sample? then [r.src] else []
  }

  /** The `data_src` words of the sample records, in order. */
  function SampleSrcs(rs: seq<Record>): (s: seq<bv64>)
    ensures |s| <= |rs|
  {
    if |rs| == 0 then [] else FirstSrc(rs[0]) + SampleSrcs(rs[1..])
  }

  /** The header at `off` reads back as the header of `r`: its size, whether
      it is a sample, and a sample's `data_src` word. */
  predicate HeaderAt(data: seq<byte>, off: nat, r: Record)
  {
    off + RecordLen(r) <= |data| && off + HEADER_SIZE <= |data|
    && RecordSize(data, off) == RecordLen(r)
    && (RecordType(data, off) == PERF_RECORD_SAMPLE <==> r.Sample?)
    && (r.Sample? ==> DataSrcAt(data, off) == r.src)
  }

  /** The headers of `rs` read back one after the other from `off` on. */
  predicate PlacedAt(data: seq<byte>, off: nat, rs: seq<Record>)
    decreases |rs|
  {
    |rs| == 0 || (HeaderAt(data, off, rs[0]) && PlacedAt(data, off + RecordLen(rs[0]), rs[1..]))
  }

  /** The type and size of an encoded header read back as written. */
  lemma HeaderFields(data: seq<byte>, off: nat, rtype: nat, misc: nat, size: nat)
    requires rtype < Pow256(4) && size < Pow256(2)
    requires off + HEADER_SIZE <= |data|
    requires data[off..off + HEADER_SIZE] == EncodeHeader(rtype, misc, size)
    ensures RecordType(data, off) == rtype && RecordSize(data, off) == size
  {
    var h := EncodeHeader(rtype, misc, size);
    assert data[off..off + 4] == h[..4] == EncodeLE(rtype, 4);
    assert data[off + 6..off + 8] == h[6..8] == EncodeLE(size, 2);
    DecodeEncode(rtype, 4);
    DecodeEncode(size, 2);
  }

  /** The first bytes of a record's encoding are its header. */
  lemma EncodedHeader(r: Record)
    ensures EncodeRecord(r)[..HEADER_SIZE] == EncodeHeader(TypeOf(r), r.misc, RecordLen(r))
  {
    var h := EncodeHeader(TypeOf(r), r.misc, RecordLen(r));
    match r
    case Sample(misc, ip, addr, weight, src) =>
      var rest := EncodeLE(ip, 8) + EncodeLE(addr, 8) + EncodeLE(weight, 8) + EncodeLE(src as nat, 8);
      assert EncodeRecord(r) == h + rest;
    case Other(rtype, misc, body) =>
      assert EncodeRecord(r) == h + body;
  }

  /** The last eight bytes of a sample's encoding are its `data_src` word. */
  lemma EncodedSrc(r: Record)
    requires r.Sample?
    ensures EncodeRecord(r)[DATA_SRC_OFFSET..SAMPLE_SIZE] == EncodeLE(r.src as nat, 8)
  {
  }

  /** A well-formed record written at `off` reads back as itself. */
  lemma HeaderOfEncoded(data: seq<byte>, off: nat, r: Record)
    requires WellFormed(r)
    requires off + RecordLen(r) <= |data|
    requires data[off..off + RecordLen(r)] == EncodeRecord(r)
    ensures HeaderAt(data, off, r)
  {
    var e := EncodeRecord(r);
    assert RecordType(data, off) == TypeOf(r) && RecordSize(data, off) == RecordLen(r) by {
      assert data[off..off + HEADER_SIZE] == e[..HEADER_SIZE];
      EncodedHeader(r);
      HeaderFields(data, off, TypeOf(r), r.misc, RecordLen(r));
    }
    if r.Sample? {
      assert DataSrcAt(data, off) == r.src by {
        assert data[off + DATA_SRC_OFFSET..off + SAMPLE_SIZE] == e[DATA_SRC_OFFSET..SAMPLE_SIZE];
        EncodedSrc(r);
        Pow256Of8();
        DecodeEncode(r.src as nat, 8);
      }
    }
  }

  /** A window of a buffer holding a concatenation holds each part. */
  lemma SliceOfConcat(data: seq<byte>, off: nat, a: seq<byte>, b: seq<byte>)
    requires off + |a| + |b| <= |data| && data[off..off + |a| + |b|] == a + b
    ensures data[off..off + |a|] == a
    ensures data[off + |a|..off + |a| + |b|] == b
  {
    assert data[off..off + |a|] == data[off..off + |a| + |b|][..|a|];
    assert data[off + |a|..off + |a| + |b|] == data[off..off + |a| + |b|][|a|..];
  }

  /** A record list is well formed when each of its records is. */
  predicate AllWellFormed(rs: seq<Record>)
  {
    forall k :: 0 <= k < |rs| ==> WellFormed(rs[k])
  }

  lemma AllWellFormedTail(rs: seq<Record>)
    requires |rs| > 0 && AllWellFormed(rs)
    ensures WellFormed(rs[0]) && AllWellFormed(rs[1..])
  {
    forall k | 0 <= k < |rs[1..]| ensures WellFormed(rs[1..][k]) {
      assert rs[1..][k] == rs[k + 1];
    }
  }

  /** An encoding written at `off` holds the first record's encoding, then
      the encoding of the rest. */
  lemma EncodingFirst(data: seq<byte>, off: nat, rs: seq<Record>)
    requires |rs| > 0
    requires off + |EncodeAll(rs)| <= |data|
    requires data[off..off + |EncodeAll(rs)|] == EncodeAll(rs)
    ensures off + |EncodeRecord(rs[0])| + |EncodeAll(rs[1..])| == off + |EncodeAll(rs)|
    ensures data[off..off + |EncodeRecord(rs[0])|] == EncodeRecord(rs[0])
    ensures data[off + |EncodeRecord(rs[0])|..off + |EncodeRecord(rs[0])| + |EncodeAll(rs[1..])|] == EncodeAll(rs[1..])
  {
    var e, rest := EncodeRecord(rs[0]), EncodeAll(rs[1..]);
    assert EncodeAll(rs) == e + rest;
    SliceOfConcat(data, off, e, rest);
  }

  /** The encoding of well-formed records, written at `off`, places their
      headers there. */
  lemma {:induction false} EncodingPlaced(data: seq<byte>, off: nat, rs: seq<Record>)
    requires AllWellFormed(rs)
    requires off + |EncodeAll(rs)| <= |data|
    requires data[off..off + |EncodeAll(rs)|] == EncodeAll(rs)
    ensures PlacedAt(data, off, rs)
    decreases |rs|
  {
    if |rs| > 0 {
      var next := off + |EncodeRecord(rs[0])|;
      AllWellFormedTail(rs);
      EncodingFirst(data, off, rs);
      HeaderOfEncoded(data, off, rs[0]);
      EncodingPlaced(data, next, rs[1..]);
      assert PlacedAt(data, off, rs) <== HeaderAt(data, off, rs[0]) && PlacedAt(data, next, rs[1..]);
    }
  }

  /** One step of the walk over a record whose header reads back. */
  lemma WalkStep(data: seq<byte>, off: nat, limit: nat, r: Record, acc: seq<bv64>)
    requires off < limit && HeaderAt(data, off, r) && RecordLen(r) > 0
    ensures WalkFrom(data, off, limit, acc) == WalkFrom(data, off + RecordLen(r), limit, acc + FirstSrc(r))
  {
    if !r.Sample? {
      assert acc + [] == acc;
    }
  }

  lemma WalkCongruence(data: seq<byte>, o1: nat, o2: nat, limit: nat, a1: seq<bv64>, a2: seq<bv64>)
    requires o1 == o2 && a1 == a2
    ensures WalkFrom(data, o1, limit, a1) == WalkFrom(data, o2, limit, a2)
  {
  }

  lemma WalkChain(data: seq<byte>, limit: nat, o1: nat, o2: nat, o3: nat, o4: nat,
                  a1: seq<bv64>, a2: seq<bv64>, a3: seq<bv64>, a4: seq<bv64>)
    requires WalkFrom(data, o1, limit, a1) == WalkFrom(data, o2, limit, a2)
    requires WalkFrom(data, o2, limit, a2) == WalkFrom(data, o3, limit, a3)
    requires o3 == o4 && a3 == a4
    ensures WalkFrom(data, o1, limit, a1) == WalkFrom(data, o4, limit, a4)
  {
  }

  lemma SrcsAssoc(acc: seq<bv64>, rs: seq<Record>)
    requires |rs| > 0
    ensures acc + SampleSrcs(rs) == (acc + FirstSrc(rs[0])) + SampleSrcs(rs[1..])
  {
  }

  /** Every record has a positive length. */
  lemma RecordLenPositive(r: Record)
    ensures RecordLen(r) >= HEADER_SIZE
  {
  }

  /** Walking records whose headers read back, placed anywhere in a buffer,
      visits all of them, collecting the `data_src` word of every sample,
      and reaches the offset just past them. */
  lemma {:induction false} WalkPlaced(data: seq<byte>, off: nat, rs: seq<Record>, acc: seq<bv64>, limit: nat,
                                      end: nat, fin: seq<bv64>)
    requires PlacedAt(data, off, rs) && end == off + TotalLen(rs) <= limit && fin == acc + SampleSrcs(rs)
    ensures WalkFrom(data, off, limit, acc) == WalkFrom(data, end, limit, fin)
    decreases |rs|
  {
    if |rs| == 0 {
      assert fin == acc;
    } else {
      var mid := off + RecordLen(rs[0]);
      var acc1 := acc + FirstSrc(rs[0]);
      assert WalkFrom(data, off, limit, acc) == WalkFrom(data, mid, limit, acc1) by {
        RecordLenPositive(rs[0]);
        WalkStep(data, off, limit, rs[0], acc);
      }
      SrcsAssoc(acc, rs);
      WalkPlaced(data, mid, rs[1..], acc1, limit, end, fin);
    }
  }

  /** Walking a buffer up to the end of the encoded records it starts
      with yields the `data_src` word of every sample, in order, whatever
      follows them. */
  lemma WalkEncodedPrefix(data: seq<byte>, rs: seq<Record>)
    requires AllWellFormed(rs)
    requires TotalLen(rs) <= |data| && data[..TotalLen(rs)] == EncodeAll(rs)
    ensures Walk(data, TotalLen(rs)) == Walked(SampleSrcs(rs))
  {
    var n := TotalLen(rs);
    assert data[0..0 + n] == EncodeAll(rs);
    EncodingPlaced(data, 0, rs);
    WalkPlaced(data, 0, rs, [], n, n, SampleSrcs(rs));
    assert [] + SampleSrcs(rs) == SampleSrcs(rs);
  }

  /** The round trip for a whole buffer of encoded records: walking it
      yields the `data_src` word of every sample, in order. */
  lemma WalkEncoded(rs: seq<Record>)
    requires AllWellFormed(rs)
    ensures Walk(EncodeAll(rs), |EncodeAll(rs)|) == Walked(SampleSrcs(rs))
  {
    var d := EncodeAll(rs);
    assert d[..TotalLen(rs)] == d;
    WalkEncodedPrefix(d, rs);
  }

  /** A size-0 header before the limit stops the walk with the error, even
      after well-formed records. */
  lemma WalkStopsAtZeroSize(rs: seq<Record>, rtype: nat, misc: nat, limit: nat)
    requires AllWellFormed(rs) && rtype < Pow256(4)
    requires limit > |EncodeAll(rs)|
    ensures Walk(EncodeAll(rs) + EncodeHeader(rtype, misc, 0), limit) == ZeroSize
  {
    var n := TotalLen(rs);
    var d := EncodeAll(rs) + EncodeHeader(rtype, misc, 0);
    assert PlacedAt(d, 0, rs) by {
      assert d[0..0 + n] == EncodeAll(rs);
      EncodingPlaced(d, 0, rs);
    }
    assert RecordSize(d, n) == 0 by {
      assert d[n..n + HEADER_SIZE] == EncodeHeader(rtype, misc, 0);
      HeaderFields(d, n, rtype, misc, 0);
    }
    WalkPlaced(d, 0, rs, [], limit, n, SampleSrcs(rs));
  }

  // ---------------------------------------------------------------------
  // Counting the samples of a walk.

  /** The counters the read/write report keeps for one thread. */
  datatype Tally = Tally(
    naMiss: nat,
    localCache: nat,
    localMemory: nat,
    remoteMemory: nat,
    remoteCache: nat,
    total: nat)

  const NoSamples: Tally := Tally(0, 0, 0, 0, 0, 0)

  function B(c: bool): nat { if c then 1 else 0 }

  /** The counters after one more sample. */
  function CountOne(t: Tally, src: bv64): (t': Tally)
    ensures t'.total == t.total + 1
  {
    Tally(
      t.naMiss + B(IsServedByLocalNAMiss(src)),
      t.localCache + B(IsServedByLocalCache(src)),
      t.localMemory + B(IsServedByLocalMemory(src)),
      t.remoteMemory + B(IsServedByRemoteMemory(src)),
      t.remoteCache + B(IsServedByRemoteCacheOrLocalMemory(src)),
      t.total + 1)
  }

  /** The counters after a sequence of samples, counted in order. */
  function CountAll(t: Tally, srcs: seq<bv64>): (t': Tally)
    ensures t'.total == t.total + |srcs|
    decreases |srcs|
  {
    if |srcs| == 0 then t else CountAll(CountOne(t, srcs[0]), srcs[1..])
  }

  /** The number of samples of a sequence that satisfy `p`. */
  function Matching(srcs: seq<bv64>, p: bv64 -> bool): (n: nat)
    ensures n <= |srcs|
  {
    if |srcs| == 0 then 0 else B(p(srcs[0])) + Matching(srcs[1..], p)
  }

  /** Each counter ends as its start plus the number of samples of its tier,
      and the total as its start plus the number of samples. */
  lemma {:induction false} CountAllCounts(t: Tally, srcs: seq<bv64>)
    ensures CountAll(t, srcs) == Tally(
      t.naMiss + Matching(srcs, IsServedByLocalNAMiss),
      t.localCache + Matching(srcs, IsServedByLocalCache),
      t.localMemory + Matching(srcs, IsServedByLocalMemory),
      t.remoteMemory + Matching(srcs, IsServedByRemoteMemory),
      t.remoteCache + Matching(srcs, IsServedByRemoteCacheOrLocalMemory),
      t.total + |srcs|)
    decreases |srcs|
  {
    if |srcs| > 0 {
      CountAllCounts(CountOne(t, srcs[0]), srcs[1..]);
    }
  }

  /** Counting two runs of samples one after the other counts their
      concatenation. */
  lemma {:induction false} CountAllAppend(t: Tally, a: seq<bv64>, b: seq<bv64>)
    ensures CountAll(CountAll(t, a), b) == CountAll(t, a + b)
    decreases |a|
  {
    if |a| == 0 {
      assert a + b == b;
    } else {
      assert (a + b)[0] == a[0] && (a + b)[1..] == a[1..] + b;
      CountAllAppend(CountOne(t, a[0]), a[1..], b);
    }
  }

  /** Counting the last sample after the others is counting all of them. */
  lemma CountAllSnoc(t: Tally, srcs: seq<bv64>, src: bv64)
    ensures CountAll(t, srcs + [src]) == CountOne(CountAll(t, srcs), src)
  {
    CountAllAppend(t, srcs, [src]);
    assert CountAll(CountOne(CountAll(t, srcs), src), []) == CountOne(CountAll(t, srcs), src);
  }

  // ---------------------------------------------------------------------
  // The walk loop itself.

  /** How the walk loop stops. */
  datatype WalkStatus = Completed | ZeroSizeRecord | OutOfBounds

  /** The record walk: from offset 0, while the offset is below `limit`,
      stop with an error on a size-0 record, count a sample record, and
      advance by the record's size. The counters continue from `start`. */
  method WalkRecords(data: seq<byte>, limit: nat, start: Tally) returns (status: WalkStatus, tally: Tally)
    ensures Walk(data, limit).Walked? <==> status == Completed
    ensures Walk(data, limit).ZeroSize? <==> status == ZeroSizeRecord
    ensures Walk(data, limit).Fault? <==> status == OutOfBounds
    ensures status == Completed ==> tally == CountAll(start, Walk(data, limit).srcs)
  {
    var consumed: nat := 0;
    ghost var srcs: seq<bv64> := [];
    tally := start;
    while consumed < limit
      invariant WalkFrom(data, consumed, limit, srcs) == Walk(data, limit)
      invariant tally == CountAll(start, srcs)
      decreases limit - consumed
    {
      if consumed + HEADER_SIZE > |data| {
        return OutOfBounds, tally;
      }
      var size := RecordSize(data, consumed);
      if size == 0 {
        return ZeroSizeRecord, tally;
      }
      if RecordType(data, consumed) == PERF_RECORD_SAMPLE {
        if consumed + SAMPLE_SIZE > |data| {
          return OutOfBounds, tally;
        }
        var src := DataSrcAt(data, consumed);
        CountAllSnoc(start, srcs, src);
        tally := CountOne(tally, src);
        srcs := srcs + [src];
      }
      consumed := consumed + size;
    }
    status := Completed;
  }
}
