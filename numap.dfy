/** The measurement lifecycles of the library: process-wide state set up
    when the library is loaded, counting measures (one read and one write
    counter per NUMA node), sampling measures (one perf ring buffer per
    monitored thread) and the registry that maps a ring buffer's file
    descriptor back to its measure for the overflow signal handler.

    Kernel calls are not executed: what `perf_event_open`, `mmap` and
    `read` return is passed in as arguments (one entry per slot or node),
    `ioctl`, `fcntl`, `munmap` and `close` change no modelled state, and the
    perf-encoding library is the predicate `encodes`. A call that ends the
    process (`exit`, `abort`) yields `Exited`. */
module Numap {
  import opened Archi
  import opened Seqs
  import opened Bytes

  const MAX_NB_NUMA_NODES: nat := 16
  const MAX_NB_THREADS: nat := 24

  const ERROR_PERF_EVENT_OPEN: int := -3
  const ERROR_NUMAP_NOT_NUMA: int := -4
  const ERROR_NUMAP_ALREADY_STARTED: int := -5
  const ERROR_NUMAP_STOP_BEFORE_START: int := -6
  const ERROR_NUMAP_ARCH_NOT_SUPPORTED: int := -7
  const ERROR_NUMAP_READ_SAMPLING_ARCH_NOT_SUPPORTED: int := -9
  const ERROR_NUMAP_WRITE_SAMPLING_ARCH_NOT_SUPPORTED: int := -10
  const ERROR_PFM: int := -11
  const ERROR_READ: int := -12

  /** `size_t` arithmetic wraps modulo 2^64. */
  const SIZE_T_MODULUS: nat := 0x1_0000_0000_0000_0000

  /** The refresh count a sampling measure starts with. */
  const DEFAULT_NB_REFRESH: int := 1000

  /** What a call that may end the process does. */
  datatype Status = Returned(code: int) | Exited

  /** What a counter `read` returns: a value or -1. */
  datatype ReadOutcome = ReadFailed | ReadValue(value: int)

  // ---------------------------------------------------------------------
  // The mapped ring buffer of one thread.

  /** A `perf_event_mmap_page` with its data area: the kernel advances
      `dataHead` as it writes records into `data`; the reader advances
      `dataTail` past what it has consumed. */
  class MetadataPage {
    var dataHead: nat
    var dataTail: nat
    const dataSize: nat
    const data: array<byte>

    /** The data area has `dataSize` bytes and the tail lies within it. */
    ghost predicate Valid()
      reads this`dataTail
    {
      data.Length == dataSize && dataTail <= dataSize
    }

    /** An empty ring buffer whose data area has `size` bytes. */
    ghost predicate Empty(size: nat)
      reads this`dataHead, this`dataTail
    {
      data.Length == dataSize && dataSize == size && dataHead == 0 && dataTail == 0
    }

    /** A fresh mapping: nothing written yet. */
    constructor (size: nat)
      ensures Valid() && fresh(data) && Empty(size)
      ensures dataSize == size && dataHead == 0 && dataTail == 0
    {
      dataSize := size;
      data := new byte[size](_ => 0);
      dataHead := 0;
      dataTail := 0;
    }
  }

  // ---------------------------------------------------------------------
  // The fd registry.

  /** A `link_fd_measure` node: a ring buffer's fd and its measure. */
  datatype Link = Link(fd: int, measure: SamplingMeasure)

  /** The fds of the registry, head first. */
  function Fds(links: seq<Link>): (fds: seq<int>)
    ensures |fds| == |links|
    ensures forall k :: 0 <= k < |links| ==> fds[k] == links[k].fd
  {
    if |links| == 0 then [] else [links[0].fd] + Fds(links[1..])
  }

  /** What the overflow signal handler does with one signal. */
  datatype Refresh =
    | NotHangUp                                       // not a POLL_HUP signal: nothing
    | NoMeasure                                       // no registered fd matches: abort
    | Refreshed(measure: SamplingMeasure, callHandler: bool)

  // ---------------------------------------------------------------------
  // Process-wide state.

  /** The library's globals: the NUMA configuration found at load time, the
      current architecture, and the registry `link_fd_measure`. */
  class Library {
    /** `nb_numa_nodes`: the node count, or -1 without NUMA support. */
    var nbNodes: int
    /** `numa_node_to_cpu`: the first CPU of each node, or -1. */
    const nodeToCpu: array<int>
    /** `*current_archi`. */
    var archi: Arch
    /** `link_fd_measure`, head first. */
    var registry: seq<Link>

    ghost predicate Valid()
      reads this
    {
      nodeToCpu.Length == MAX_NB_NUMA_NODES && -1 <= nbNodes <= MAX_NB_NUMA_NODES
      && archi == GetArchi(archi.id)
    }

    /** The state the load-time constructor leaves: the architecture of the
        CPU's (family, model), the node count (-1 without NUMA support) and
        the first CPU of each node. Reading /proc/cpuinfo and the NUMA
        bitmasks is not part of this model: their results are the
        arguments. */
    constructor (family: nat, model: nat, nodes: int, cpus: seq<int>)
      requires family < 256 && model < 256
      requires -1 <= nodes <= MAX_NB_NUMA_NODES && |cpus| >= nodes
      ensures Valid() && fresh(nodeToCpu)
      ensures archi == GetArchi(CpuModel(family, model)) && nbNodes == nodes
      ensures forall n :: 0 <= n < nodes ==> nodeToCpu[n] == cpus[n]
      ensures registry == []
    {
      archi := GetArchi(CpuModel(family, model));
      nbNodes := nodes;
      nodeToCpu := new int[MAX_NB_NUMA_NODES](n requires 0 <= n < MAX_NB_NUMA_NODES => if n < nodes then cpus[n] else 0);
      registry := [];
    }

    /** `numap_init`: refuse without NUMA support or when the perf-encoding
        library fails to initialise; otherwise empty the registry. */
    method NumapInit(pfmInitialized: bool) returns (code: int)
      requires Valid()
      modifies this`registry
      ensures nbNodes == -1 ==> code == ERROR_NUMAP_NOT_NUMA && registry == old(registry)
      ensures nbNodes != -1 && !pfmInitialized ==> code == ERROR_PFM && registry == old(registry)
      ensures nbNodes != -1 && pfmInitialized ==> code == 0 && registry == []
    {
      if nbNodes == -1 {
        return ERROR_NUMAP_NOT_NUMA;
      }
      if !pfmInitialized {
        return ERROR_PFM;
      }
      registry := [];
      return 0;
    }

    /** The search of `refresh_wrapper_handler`: the first registry entry
        whose fd matches, or -1. */
    method FindLink(fd: int) returns (i: int)
      ensures i == FirstIndexOf(Fds(registry), fd)
      ensures i != -1 ==> 0 <= i < |registry| && registry[i].fd == fd
      ensures i == -1 <==> forall k :: 0 <= k < |registry| ==> registry[k].fd != fd
    {
      var fds := Fds(registry);
      i := 0;
      while i < |registry| && registry[i].fd != fd
        invariant 0 <= i <= |registry|
        invariant fd !in fds[..i]
      {
        assert fds[..i + 1] == fds[..i] + [fds[i]];
        i := i + 1;
      }
      if i == |registry| {
        assert fds[..i] == fds;
        i := -1;
      } else {
        assert fds[i] == fd;
      }
    }

    /** `refresh_wrapper_handler`: on a POLL_HUP signal for `fd`, find the
        first registered measure with that fd (abort if there is none),
        report whether its handler is to be called, and add its refresh
        count to its sample total. */
    method RefreshWrapper(pollHup: bool, fd: int) returns (r: Refresh)
      modifies (set k | 0 <= k < |registry| :: registry[k].measure)`totalSamples
      ensures !pollHup ==> r == NotHangUp
      ensures pollHup && FirstIndexOf(Fds(registry), fd) == -1 ==> r == NoMeasure
      ensures pollHup && FirstIndexOf(Fds(registry), fd) != -1 ==>
        var m := registry[FirstIndexOf(Fds(registry), fd)].measure;
        r == Refreshed(m, m.hasHandler) && m.totalSamples == old(m.totalSamples) + m.nbRefresh
      ensures forall k :: 0 <= k < |registry| ==>
        (r.Refreshed? && registry[k].measure == r.measure) ||
        registry[k].measure.totalSamples == old(registry[k].measure.totalSamples)
    {
      if !pollHup {
        return NotHangUp;
      }
      var i := FindLink(fd);
      if i == -1 {
        return NoMeasure;
      }
      var m := registry[i].measure;
      r := Refreshed(m, m.hasHandler);
      m.totalSamples := m.totalSamples + m.nbRefresh;
    }
  }

  // ---------------------------------------------------------------------
  // Counting.

  /** The first valid node, from `k` on, whose read or write counter fails
      to open, or `n` when every one opens. */
  function FirstOpenFailure(valid: seq<bool>, readFds: seq<int>, writeFds: seq<int>, n: nat, k: nat): (r: nat)
    requires n <= |valid| && n <= |readFds| && n <= |writeFds| && k <= n
    ensures k <= r <= n
    ensures forall u :: k <= u < r ==> !valid[u] || (readFds[u] != -1 && writeFds[u] != -1)
    ensures r < n ==> valid[r] && (readFds[r] == -1 || writeFds[r] == -1)
    decreases n - k
  {
    if k == n then n
    else if valid[k] && (readFds[k] == -1 || writeFds[k] == -1) then k
    else FirstOpenFailure(valid, readFds, writeFds, n, k + 1)
  }

  /** The first valid node, from `k` on, whose read or write count cannot be
      read, or `n` when every one is read. */
  function FirstReadFailure(valid: seq<bool>, readCounts: seq<ReadOutcome>, writeCounts: seq<ReadOutcome>, n: nat, k: nat): (r: nat)
    requires n <= |valid| && n <= |readCounts| && n <= |writeCounts| && k <= n
    ensures k <= r <= n
    ensures forall u :: k <= u < r ==> !valid[u] || (readCounts[u].ReadValue? && writeCounts[u].ReadValue?)
    ensures r < n ==> valid[r] && (readCounts[r].ReadFailed? || writeCounts[r].ReadFailed?)
    decreases n - k
  {
    if k == n then n
    else if valid[k] && (readCounts[k].ReadFailed? || writeCounts[k].ReadFailed?) then k
    else FirstReadFailure(valid, readCounts, writeCounts, n, k + 1)
  }

  /** A counter table after a loop has stored `vals[u]` in every slot
      `u` below `t` for which `store[u]` holds. */
  function StoredAfter(base: seq<int>, store: seq<bool>, vals: seq<int>, t: nat): (r: seq<int>)
    requires |store| == |base| && t <= |vals| && t <= |base|
    ensures |r| == |base|
  {
    if t == 0 then base
    else
      var before := StoredAfter(base, store, vals, t - 1);
      if store[t - 1] then before[t - 1 := vals[t - 1]] else before
  }

  /** A count table after the stop loop has stored every count it could
      read in the slots `u` below `t` for which `store[u]` holds. */
  function CountsAfter(base: seq<int>, store: seq<bool>, outs: seq<ReadOutcome>, t: nat): (r: seq<int>)
    requires |store| == |base| && t <= |outs| && t <= |base|
    ensures |r| == |base|
  {
    if t == 0 then base
    else
      var before := CountsAfter(base, store, outs, t - 1);
      if store[t - 1] && outs[t - 1].ReadValue? then before[t - 1 := outs[t - 1].value] else before
  }

  /** After the store loop, each slot below `t` that the loop stores into
      holds its value and every other slot keeps its old one: slots the loop
      skips, and slots at or past `t`, are untouched. */
  lemma {:induction false} StoredAfterPointwise(base: seq<int>, store: seq<bool>, vals: seq<int>, t: nat)
    requires |store| == |base| && t <= |vals| && t <= |base|
    ensures forall u :: 0 <= u < |base| ==>
      StoredAfter(base, store, vals, t)[u] == (if u < t && store[u] then vals[u] else base[u])
  {
    if t > 0 {
      StoredAfterPointwise(base, store, vals, t - 1);
    }
  }

  /** After the stop loop, each node below `t` that the loop reads and
      whose read succeeded holds the count read; every other node keeps its
      old count. */
  lemma {:induction false} CountsAfterPointwise(base: seq<int>, store: seq<bool>, outs: seq<ReadOutcome>, t: nat)
    requires |store| == |base| && t <= |outs| && t <= |base|
    ensures forall u :: 0 <= u < |base| ==>
      CountsAfter(base, store, outs, t)[u] == (if u < t && store[u] && outs[u].ReadValue? then outs[u].value else base[u])
  {
    if t > 0 {
      CountsAfterPointwise(base, store, outs, t - 1);
    }
  }

  /** A counting measure (`struct numap_counting_measure`). */
  class CountingMeasure {
    var started: bool
    var nbNodes: int
    const isValid: array<bool>
    const fdReads: array<int>
    const fdWrites: array<int>
    const readsCount: array<int>
    const writesCount: array<int>

    ghost predicate Valid()
      reads this`nbNodes
    {
      isValid.Length == MAX_NB_NUMA_NODES && fdReads.Length == MAX_NB_NUMA_NODES
      && fdWrites.Length == MAX_NB_NUMA_NODES && readsCount.Length == MAX_NB_NUMA_NODES
      && writesCount.Length == MAX_NB_NUMA_NODES
      && fdReads != fdWrites && readsCount != writesCount
      && 0 <= nbNodes <= MAX_NB_NUMA_NODES
    }

    /** A zero-filled measure, as a static measure would be; the init
        function overwrites every field the lifecycle reads. */
    constructor ()
      ensures Valid() && !started && nbNodes == 0
      ensures fresh(isValid) && fresh(fdReads) && fresh(fdWrites) && fresh(readsCount) && fresh(writesCount)
    {
      started := false;
      nbNodes := 0;
      isValid := new bool[MAX_NB_NUMA_NODES](_ => false);
      fdReads := new int[MAX_NB_NUMA_NODES](_ => 0);
      fdWrites := new int[MAX_NB_NUMA_NODES](_ => 0);
      readsCount := new int[MAX_NB_NUMA_NODES](_ => 0);
      writesCount := new int[MAX_NB_NUMA_NODES](_ => 0);
    }

    /** `numap_counting_init_measure`: copy the node count and mark each
        node valid exactly when it has a CPU. Without NUMA support the C
        loop would run past the arrays, so a node count is required. */
    method Init(lib: Library) returns (code: int)
      requires Valid() && lib.Valid() && lib.nbNodes >= 0
      modifies this`started, this`nbNodes, isValid
      ensures Valid() && code == 0 && !started && nbNodes == lib.nbNodes
      ensures forall n :: 0 <= n < nbNodes ==> isValid[n] == (lib.nodeToCpu[n] != -1)
      ensures forall n :: nbNodes <= n < MAX_NB_NUMA_NODES ==> isValid[n] == old(isValid[n])
    {
      nbNodes := lib.nbNodes;
      var node := 0;
      while node < nbNodes
        modifies isValid
        invariant 0 <= node <= nbNodes
        invariant forall n :: 0 <= n < node ==> isValid[n] == (lib.nodeToCpu[n] != -1)
        invariant forall n :: node <= n < MAX_NB_NUMA_NODES ==> isValid[n] == old(isValid[n])
      {
        isValid[node] := lib.nodeToCpu[node] != -1;
        node := node + 1;
      }
      started := false;
      return 0;
    }

    /** `numap_counting_start`: encode the architecture's counting read
        event (a failure is ERROR_PFM), refuse a started measure, mark it
        started, then open a read and a write counter on every valid node,
        stopping with ERROR_PERF_EVENT_OPEN at the first that fails. The
        measure stays started on that failure. */
    method Start(lib: Library, encodes: string -> bool, openReads: seq<int>, openWrites: seq<int>) returns (code: int)
      requires Valid() && lib.Valid()
      requires |openReads| >= nbNodes && |openWrites| >= nbNodes
      modifies this`started, fdReads, fdWrites
      ensures !encodes(lib.archi.countingReadEvent) ==>
        code == ERROR_PFM && started == old(started) && unchanged(fdReads, fdWrites)
      ensures !encodes(NOT_SUPPORTED) ==> code == ERROR_PFM
      ensures encodes(lib.archi.countingReadEvent) && old(started) ==>
        code == ERROR_NUMAP_ALREADY_STARTED && started && unchanged(fdReads, fdWrites)
      ensures encodes(lib.archi.countingReadEvent) && !old(started) ==>
        var stop := FirstOpenFailure(isValid[..], openReads, openWrites, nbNodes, 0);
        started && code == (if stop == nbNodes then 0 else ERROR_PERF_EVENT_OPEN)
        && fdReads[..] == StoredAfter(old(fdReads[..]), isValid[..], openReads, if stop < nbNodes then stop + 1 else stop)
        && fdWrites[..] == StoredAfter(old(fdWrites[..]), isValid[..], openWrites,
                                       if stop < nbNodes && openReads[stop] != -1 then stop + 1 else stop)
    {
      CountingNeverSupported(lib.archi.id);
      if !encodes(lib.archi.countingReadEvent) {
        return ERROR_PFM;
      }
      if started {
        return ERROR_NUMAP_ALREADY_STARTED;
      }
      started := true;
      ghost var valid := isValid[..];
      ghost var reads0 := fdReads[..];
      ghost var writes0 := fdWrites[..];
      var node := 0;
      while node < nbNodes
        modifies fdReads, fdWrites
        invariant 0 <= node <= nbNodes
        invariant forall u :: 0 <= u < node ==> !valid[u] || (openReads[u] != -1 && openWrites[u] != -1)
        invariant fdReads[..] == StoredAfter(reads0, valid, openReads, node)
        invariant fdWrites[..] == StoredAfter(writes0, valid, openWrites, node)
      {
        if isValid[node] {
          fdReads[node] := openReads[node];
          if fdReads[node] == -1 {
            assert FirstOpenFailure(valid, openReads, openWrites, nbNodes, 0) == node;
            return ERROR_PERF_EVENT_OPEN;
          }
          fdWrites[node] := openWrites[node];
          if fdWrites[node] == -1 {
            assert FirstOpenFailure(valid, openReads, openWrites, nbNodes, 0) == node;
            return ERROR_PERF_EVENT_OPEN;
          }
        }
        node := node + 1;
      }
      assert FirstOpenFailure(valid, openReads, openWrites, nbNodes, 0) == nbNodes;
      return 0;
    }

    /** `numap_counting_stop`: refuse a measure that is not started, clear
        `started`, then read the two counts of every valid node below the
        library's node count, stopping with ERROR_READ at the first read
        that fails; a read count is stored before the write count is read. */
    method Stop(lib: Library, readCounts: seq<ReadOutcome>, writeCounts: seq<ReadOutcome>) returns (code: int)
      requires Valid() && lib.Valid() && lib.nbNodes >= 0
      requires |readCounts| >= lib.nbNodes && |writeCounts| >= lib.nbNodes
      modifies this`started, readsCount, writesCount
      ensures !started
      ensures !old(started) ==> code == ERROR_NUMAP_STOP_BEFORE_START && unchanged(readsCount, writesCount)
      ensures old(started) ==>
        var n := lib.nbNodes;
        var stop := FirstReadFailure(isValid[..], readCounts, writeCounts, n, 0);
        code == (if stop == n then 0 else ERROR_READ)
        && readsCount[..] == CountsAfter(old(readsCount[..]), isValid[..], readCounts, if stop < n then stop + 1 else stop)
        && writesCount[..] == CountsAfter(old(writesCount[..]), isValid[..], writeCounts, stop)
    {
      if !started {
        return ERROR_NUMAP_STOP_BEFORE_START;
      }
      started := false;
      ghost var valid := isValid[..];
      ghost var reads0 := readsCount[..];
      ghost var writes0 := writesCount[..];
      var node := 0;
      while node < lib.nbNodes
        modifies readsCount, writesCount
        invariant 0 <= node <= lib.nbNodes
        invariant forall u :: 0 <= u < node ==> !valid[u] || (readCounts[u].ReadValue? && writeCounts[u].ReadValue?)
        invariant readsCount[..] == CountsAfter(reads0, valid, readCounts, node)
        invariant writesCount[..] == CountsAfter(writes0, valid, writeCounts, node)
      {
        if isValid[node] {
          if readCounts[node].ReadFailed? {
            assert FirstReadFailure(valid, readCounts, writeCounts, lib.nbNodes, 0) == node;
            return ERROR_READ;
          }
          readsCount[node] := readCounts[node].value;
          if writeCounts[node].ReadFailed? {
            assert FirstReadFailure(valid, readCounts, writeCounts, lib.nbNodes, 0) == node;
            return ERROR_READ;
          }
          writesCount[node] := writeCounts[node].value;
        }
        node := node + 1;
      }
      assert FirstReadFailure(valid, readCounts, writeCounts, lib.nbNodes, 0) == lib.nbNodes;
      return 0;
    }
  }

  // ---------------------------------------------------------------------
  // Sampling.

  /** Which slots have no mapping yet. */
  function Unmapped(pages: seq<MetadataPage?>): (unmapped: seq<bool>)
    ensures |unmapped| == |pages|
    ensures forall t :: 0 <= t < |pages| ==> unmapped[t] == (pages[t] == null)
  {
    seq(|pages|, t requires 0 <= t < |pages| => pages[t] == null)
  }

  /** The first slot, from `k` on, that has no mapping and whose open or
      mmap fails, or `n` when every unmapped slot opens and maps. */
  function FirstSlotFailure(unmapped: seq<bool>, opens: seq<int>, mmapOk: seq<bool>, n: nat, k: nat): (r: nat)
    requires n <= |unmapped| && n <= |opens| && n <= |mmapOk| && k <= n
    ensures k <= r <= n
    ensures forall u :: k <= u < r ==> !unmapped[u] || (opens[u] != -1 && mmapOk[u])
    ensures r < n ==> unmapped[r] && (opens[r] == -1 || !mmapOk[r])
    decreases n - k
  {
    if k == n then n
    else if unmapped[k] && (opens[k] == -1 || !mmapOk[k]) then k
    else FirstSlotFailure(unmapped, opens, mmapOk, n, k + 1)
  }

  /** The registry after the start loop has handled the slots below `t`,
      starting from `reg`: one entry prepended per unmapped slot, so the
      latest slot comes first. */
  function RegistryAfter(m: SamplingMeasure, unmapped: seq<bool>, opens: seq<int>, t: nat, reg: seq<Link>): seq<Link>
    requires t <= |unmapped| && t <= |opens|
  {
    if t == 0 then reg
    else
      var before := RegistryAfter(m, unmapped, opens, t - 1, reg);
      if unmapped[t - 1] then [Link(opens[t - 1], m)] + before else before
  }

  /** Slots that all had a mapping already leave the registry as it was. */
  lemma {:induction false} NoLinksForMappedSlots(m: SamplingMeasure, unmapped: seq<bool>, opens: seq<int>, t: nat, reg: seq<Link>)
    requires t <= |unmapped| && t <= |opens|
    requires forall u :: 0 <= u < t ==> !unmapped[u]
    ensures RegistryAfter(m, unmapped, opens, t, reg) == reg
  {
    if t > 0 {
      NoLinksForMappedSlots(m, unmapped, opens, t - 1, reg);
    }
  }

  /** Slots none of which was unmapped add one entry each in front of the
      old registry, with the fds in reverse slot order. */
  lemma {:induction false} OneLinkPerOpenedSlot(m: SamplingMeasure, unmapped: seq<bool>, opens: seq<int>, t: nat, reg: seq<Link>)
    requires t <= |unmapped| && t <= |opens|
    requires forall u :: 0 <= u < t ==> unmapped[u]
    ensures |RegistryAfter(m, unmapped, opens, t, reg)| == t + |reg|
    ensures forall k :: 0 <= k < t ==> RegistryAfter(m, unmapped, opens, t, reg)[k] == Link(opens[t - 1 - k], m)
    ensures RegistryAfter(m, unmapped, opens, t, reg)[t..] == reg
  {
    if t > 0 {
      OneLinkPerOpenedSlot(m, unmapped, opens, t - 1, reg);
      var rest := RegistryAfter(m, unmapped, opens, t - 1, reg);
      assert RegistryAfter(m, unmapped, opens, t, reg) == [Link(opens[t - 1], m)] + rest;
      assert RegistryAfter(m, unmapped, opens, t, reg)[t..] == rest[t - 1..];
    }
  }

  /** The number of unmapped slots below `t`: the slots the start loop
      opens. */
  function UnmappedBelow(unmapped: seq<bool>, t: nat): (n: nat)
    requires t <= |unmapped|
    ensures n <= t
  {
    if t == 0 then 0 else UnmappedBelow(unmapped, t - 1) + (if unmapped[t - 1] then 1 else 0)
  }

  /** Whatever mix of mapped and unmapped slots, the start loop puts one
      entry per unmapped slot in front of the old registry, each the fd
      opened for one of those slots, and keeps the old registry behind
      them. */
  lemma {:induction false} RegistryGrowsByUnmapped(m: SamplingMeasure, unmapped: seq<bool>, opens: seq<int>, t: nat, reg: seq<Link>)
    requires t <= |unmapped| && t <= |opens|
    ensures |RegistryAfter(m, unmapped, opens, t, reg)| == UnmappedBelow(unmapped, t) + |reg|
    ensures RegistryAfter(m, unmapped, opens, t, reg)[UnmappedBelow(unmapped, t)..] == reg
    ensures forall k :: 0 <= k < UnmappedBelow(unmapped, t) ==>
      RegistryAfter(m, unmapped, opens, t, reg)[k].measure == m
      && exists v :: 0 <= v < t && unmapped[v] && RegistryAfter(m, unmapped, opens, t, reg)[k].fd == opens[v]
  {
    if t > 0 {
      RegistryGrowsByUnmapped(m, unmapped, opens, t - 1, reg);
      var before, n0 := RegistryAfter(m, unmapped, opens, t - 1, reg), UnmappedBelow(unmapped, t - 1);
      var r := RegistryAfter(m, unmapped, opens, t, reg);
      if unmapped[t - 1] {
        assert r == [Link(opens[t - 1], m)] + before;
        assert r[n0 + 1..] == before[n0..];
      }
    }
    forall k | 0 <= k < UnmappedBelow(unmapped, t)
      ensures RegistryAfter(m, unmapped, opens, t, reg)[k].measure == m
      ensures exists v :: 0 <= v < t && unmapped[v] && RegistryAfter(m, unmapped, opens, t, reg)[k].fd == opens[v]
    {
      NewEntryOrigin(m, unmapped, opens, t, reg, k);
    }
  }

  /** The slot whose opened fd the `k`-th new registry entry holds. */
  lemma {:induction false} NewEntryOrigin(m: SamplingMeasure, unmapped: seq<bool>, opens: seq<int>, t: nat, reg: seq<Link>, k: nat)
    requires t <= |unmapped| && t <= |opens| && k < UnmappedBelow(unmapped, t)
    ensures k < |RegistryAfter(m, unmapped, opens, t, reg)|
    ensures exists v :: 0 <= v < t && unmapped[v] && RegistryAfter(m, unmapped, opens, t, reg)[k] == Link(opens[v], m)
  {
    var before := RegistryAfter(m, unmapped, opens, t - 1, reg);
    var r := RegistryAfter(m, unmapped, opens, t, reg);
    if unmapped[t - 1] {
      assert r == [Link(opens[t - 1], m)] + before;
      if k == 0 {
        assert unmapped[t - 1] && r[0] == Link(opens[t - 1], m);
      } else {
        NewEntryOrigin(m, unmapped, opens, t - 1, reg, k - 1);
        var v :| 0 <= v < t - 1 && unmapped[v] && before[k - 1] == Link(opens[v], m);
        assert unmapped[v] && r[k] == Link(opens[v], m);
      }
    } else {
      NewEntryOrigin(m, unmapped, opens, t - 1, reg, k);
      var v :| 0 <= v < t - 1 && unmapped[v] && before[k] == Link(opens[v], m);
      assert unmapped[v] && r[k] == Link(opens[v], m);
    }
  }

  /** A sampling measure (`struct numap_sampling_measure`), with the
      fields the library uses: the refresh count, the overflow handler (only
      whether one is set) and the sample total. */
  class SamplingMeasure {
    var nbThreads: nat
    var samplingRate: nat
    var mmapPagesCount: nat
    const tids: array<int>
    const metadataPages: array<MetadataPage?>
    var pageSize: nat
    var mmapLen: nat
    var started: bool
    const fdPerTid: array<int>
    var hasHandler: bool
    var nbRefresh: int
    var totalSamples: int

    ghost predicate Valid()
      reads this`nbThreads
    {
      tids.Length == MAX_NB_THREADS && metadataPages.Length == MAX_NB_THREADS
      && fdPerTid.Length == MAX_NB_THREADS && tids != fdPerTid
      && nbThreads <= MAX_NB_THREADS
    }

    /** The size of a ring buffer's data area: the mapping less its first
        (metadata) page. */
    function DataAreaSize(): nat
      reads this`mmapLen, this`pageSize
    {
      if mmapLen >= pageSize then mmapLen - pageSize else 0
    }

    /** A zero-filled measure, as a static measure would be; the init
        function overwrites every field the lifecycle reads. */
    constructor ()
      ensures Valid() && !started && nbThreads == 0
      ensures fresh(tids) && fresh(metadataPages) && fresh(fdPerTid)
    {
      nbThreads := 0;
      samplingRate := 0;
      mmapPagesCount := 0;
      tids := new int[MAX_NB_THREADS](_ => 0);
      metadataPages := new MetadataPage?[MAX_NB_THREADS](_ => null);
      pageSize := 0;
      mmapLen := 0;
      started := false;
      fdPerTid := new int[MAX_NB_THREADS](_ => 0);
      hasHandler := false;
      nbRefresh := 0;
      totalSamples := 0;
    }

    /** `numap_sampling_init_measure`: record the parameters, size the
        mapping as one metadata page plus `mmapPagesCount` data pages, clear
        the fd and mapping of every slot below `nbThreads`, and reset the
        handler, the sample total and the refresh count. More than
        `MAX_NB_THREADS` threads would write past the slot arrays. */
    method InitMeasure(threads: nat, rate: nat, pagesCount: nat, systemPageSize: nat) returns (code: int)
      requires Valid() && threads <= MAX_NB_THREADS
      modifies this, fdPerTid, metadataPages
      ensures Valid() && code == 0 && !started
      ensures nbThreads == threads && samplingRate == rate && mmapPagesCount == pagesCount
      ensures pageSize == systemPageSize
      ensures mmapLen == (systemPageSize + systemPageSize * pagesCount) % SIZE_T_MODULUS
      ensures forall t :: 0 <= t < threads ==> fdPerTid[t] == 0 && metadataPages[t] == null
      ensures forall t :: threads <= t < MAX_NB_THREADS ==>
        fdPerTid[t] == old(fdPerTid[t]) && metadataPages[t] == old(metadataPages[t])
      ensures !hasHandler && totalSamples == 0 && nbRefresh == DEFAULT_NB_REFRESH
      ensures unchanged(tids)
    {
      started := false;
      pageSize := systemPageSize;
      mmapPagesCount := pagesCount;
      mmapLen := (systemPageSize + systemPageSize * pagesCount) % SIZE_T_MODULUS;
      nbThreads := threads;
      samplingRate := rate;
      var t := 0;
      while t < nbThreads
        modifies fdPerTid, metadataPages
        invariant 0 <= t <= nbThreads
        invariant forall u :: 0 <= u < t ==> fdPerTid[u] == 0 && metadataPages[u] == null
        invariant forall u :: t <= u < MAX_NB_THREADS ==>
          fdPerTid[u] == old(fdPerTid[u]) && metadataPages[u] == old(metadataPages[u])
      {
        fdPerTid[t] := 0;
        metadataPages[t] := null;
        t := t + 1;
      }
      hasHandler := false;
      totalSamples := 0;
      nbRefresh := DEFAULT_NB_REFRESH;
      return 0;
    }

    /** `numap_sampling_set_measure_handler`: refuse a started measure;
        otherwise install the handler, then end the process on a
        non-positive refresh count, else record it. */
    method SetMeasureHandler(handler: bool, refresh: int) returns (st: Status)
      modifies this`hasHandler, this`nbRefresh
      ensures started ==>
        st == Returned(ERROR_NUMAP_ALREADY_STARTED) && hasHandler == old(hasHandler) && nbRefresh == old(nbRefresh)
      ensures !started && refresh <= 0 ==> st == Exited && hasHandler == handler && nbRefresh == old(nbRefresh)
      ensures !started && refresh > 0 ==> st == Returned(0) && hasHandler == handler && nbRefresh == refresh
    {
      if started {
        return Returned(ERROR_NUMAP_ALREADY_STARTED);
      }
      hasHandler := handler;
      if refresh <= 0 {
        return Exited;
      }
      nbRefresh := refresh;
      return Returned(0);
    }

    /** The effect of `__numap_sampling_start`, from the state at `old` to
        the current one: a started measure is refused and left alone;
        otherwise the measure is started and its slots opened as
        `SlotsEffect` says. */
    twostate predicate StartEffect(lib: Library, opens: seq<int>, mmapOk: seq<bool>, st: Status)
      requires old(Valid()) && old(|opens| >= nbThreads && |mmapOk| >= nbThreads)
      reads this, fdPerTid, metadataPages, metadataPages[..], lib
    {
      started
      && (old(started) ==>
            st == Returned(ERROR_NUMAP_ALREADY_STARTED) && unchanged(fdPerTid, metadataPages)
            && lib.registry == old(lib.registry))
      && (!old(started) ==> SlotsEffect(lib, opens, mmapOk, st))
    }

    /** The effect of the start loop: every slot below `nbThreads` without
        a mapping is opened and mapped in order, each with one registry
        entry prepended, until the first open failure
        (ERROR_PERF_EVENT_OPEN) or mmap failure (the process ends); the fd
        of the failing slot is stored, but it gets no mapping. Mapped slots
        are skipped and other slots untouched. */
    twostate predicate SlotsEffect(lib: Library, opens: seq<int>, mmapOk: seq<bool>, st: Status)
      requires old(Valid()) && old(|opens| >= nbThreads && |mmapOk| >= nbThreads)
      reads fdPerTid, metadataPages, metadataPages[..], lib`registry
    {
      var unmapped := Unmapped(old(metadataPages[..]));
      var n := old(nbThreads);
      var stop := FirstSlotFailure(unmapped, opens, mmapOk, n, 0);
      st == (if stop == n then Returned(0) else if opens[stop] == -1 then Returned(ERROR_PERF_EVENT_OPEN) else Exited)
      && lib.registry == RegistryAfter(this, unmapped, opens, stop, old(lib.registry))
      && fdPerTid[..] == StoredAfter(old(fdPerTid[..]), unmapped, opens, if stop < n then stop + 1 else n)
      && PagesOpened(unmapped, stop, old(DataAreaSize()))
    }

    /** Between `old` and now, every unmapped slot below `t` received a
        fresh, empty ring buffer of `size` bytes; every other slot kept its
        mapping. */
    twostate predicate PagesOpened(unmapped: seq<bool>, t: nat, size: nat)
      requires |unmapped| == metadataPages.Length
      reads metadataPages, metadataPages[..]
    {
      forall u :: 0 <= u < metadataPages.Length ==>
        if u < t && unmapped[u] then
          metadataPages[u] != null && fresh(metadataPages[u]) && metadataPages[u].Empty(size)
        else metadataPages[u] == old(metadataPages[u])
    }

    /** `__numap_sampling_start`. The C marks the measure started before its
        loop; the loop never reads the flag, so the model sets it after. */
    method StartSlots(lib: Library, opens: seq<int>, mmapOk: seq<bool>) returns (st: Status)
      requires Valid() && |opens| >= nbThreads && |mmapOk| >= nbThreads
      modifies this`started, fdPerTid, metadataPages, lib`registry
      ensures Valid() && StartEffect(lib, opens, mmapOk, st)
    {
      if started {
        return Returned(ERROR_NUMAP_ALREADY_STARTED);
      }
      st := OpenSlots(lib, opens, mmapOk);
      started := true;
    }

    /** The loop of `__numap_sampling_start` over the thread slots. */
    method OpenSlots(lib: Library, opens: seq<int>, mmapOk: seq<bool>) returns (st: Status)
      requires Valid() && |opens| >= nbThreads && |mmapOk| >= nbThreads
      modifies fdPerTid, metadataPages, lib`registry
      ensures SlotsEffect(lib, opens, mmapOk, st)
    {
      ghost var unmapped := Unmapped(metadataPages[..]);
      ghost var reg0 := lib.registry;
      ghost var fds0 := fdPerTid[..];
      var size := DataAreaSize();
      var t := 0;
      while t < nbThreads
        invariant 0 <= t <= nbThreads
        invariant forall u :: 0 <= u < t ==> !unmapped[u] || (opens[u] != -1 && mmapOk[u])
        invariant lib.registry == RegistryAfter(this, unmapped, opens, t, reg0)
        invariant fdPerTid[..] == StoredAfter(fds0, unmapped, opens, t)
        invariant PagesOpened(unmapped, t, size)
      {
        if metadataPages[t] != null {
        } else {
          st := OpenSlot(lib, t, opens[t], mmapOk[t], size);
          assert StoredAfter(fds0, unmapped, opens, t + 1) == StoredAfter(fds0, unmapped, opens, t)[t := opens[t]];
          if st != Returned(0) {
            assert FirstSlotFailure(unmapped, opens, mmapOk, nbThreads, 0) == t;
            return;
          }
        }
        t := t + 1;
      }
      assert FirstSlotFailure(unmapped, opens, mmapOk, nbThreads, 0) == nbThreads;
      return Returned(0);
    }

    /** One pass of the start loop over an unmapped slot: store the fd the
        kernel gave, stop on a failed open (ERROR_PERF_EVENT_OPEN) or a
        failed mmap (the process ends), otherwise map a fresh ring buffer
        with a data area of `size` bytes and prepend the slot's registry entry. */
    method OpenSlot(lib: Library, t: nat, fd: int, ok: bool, size: nat) returns (st: Status)
      requires Valid() && t < MAX_NB_THREADS && metadataPages[t] == null
      modifies fdPerTid, metadataPages, lib`registry
      ensures st == (if fd == -1 then Returned(ERROR_PERF_EVENT_OPEN) else if !ok then Exited else Returned(0))
      ensures fdPerTid[..] == old(fdPerTid[..])[t := fd]
      ensures forall u :: 0 <= u < MAX_NB_THREADS && u != t ==> metadataPages[u] == old(metadataPages[u])
      ensures st != Returned(0) ==> metadataPages[t] == null && lib.registry == old(lib.registry)
      ensures st == Returned(0) ==>
        metadataPages[t] != null && fresh(metadataPages[t]) && metadataPages[t].Empty(size)
        && lib.registry == [Link(fd, this)] + old(lib.registry)
    {
      fdPerTid[t] := fd;
      if fdPerTid[t] == -1 {
        return Returned(ERROR_PERF_EVENT_OPEN);
      }
      if !ok {
        return Exited;
      }
      var page := new MetadataPage(size);
      metadataPages[t] := page;
      lib.registry := [Link(fd, this)] + lib.registry;
      return Returned(0);
    }

    /** `numap_sampling_read_start`: refuse an architecture without a read
        sampling event, then one whose event the perf-encoding library
        cannot encode, both before looking at `started` and without
        changing anything; otherwise start the slots. */
    method ReadStart(lib: Library, encodes: string -> bool, opens: seq<int>, mmapOk: seq<bool>) returns (st: Status)
      requires Valid() && lib.Valid() && |opens| >= nbThreads && |mmapOk| >= nbThreads
      modifies this`started, fdPerTid, metadataPages, lib`registry
      ensures Valid()
      ensures !SamplingReadSupported(lib.archi) ==> st == Returned(ERROR_NUMAP_READ_SAMPLING_ARCH_NOT_SUPPORTED)
      ensures SamplingReadSupported(lib.archi) && !encodes(lib.archi.samplingReadEvent) ==> st == Returned(ERROR_PFM)
      ensures !SamplingReadSupported(lib.archi) || !encodes(lib.archi.samplingReadEvent) ==>
        started == old(started) && unchanged(fdPerTid, metadataPages) && lib.registry == old(lib.registry)
      ensures SamplingReadSupported(lib.archi) && encodes(lib.archi.samplingReadEvent) ==>
        StartEffect(lib, opens, mmapOk, st)
    {
      if !SamplingReadSupported(lib.archi) {
        return Returned(ERROR_NUMAP_READ_SAMPLING_ARCH_NOT_SUPPORTED);
      }
      if !encodes(lib.archi.samplingReadEvent) {
        return Returned(ERROR_PFM);
      }
      st := StartSlots(lib, opens, mmapOk);
    }

    /** `numap_sampling_write_start`: as read start, with the write sampling
        event and its error code. */
    method WriteStart(lib: Library, encodes: string -> bool, opens: seq<int>, mmapOk: seq<bool>) returns (st: Status)
      requires Valid() && lib.Valid() && |opens| >= nbThreads && |mmapOk| >= nbThreads
      modifies this`started, fdPerTid, metadataPages, lib`registry
      ensures Valid()
      ensures !SamplingWriteSupported(lib.archi) ==> st == Returned(ERROR_NUMAP_WRITE_SAMPLING_ARCH_NOT_SUPPORTED)
      ensures SamplingWriteSupported(lib.archi) && !encodes(lib.archi.samplingWriteEvent) ==> st == Returned(ERROR_PFM)
      ensures !SamplingWriteSupported(lib.archi) || !encodes(lib.archi.samplingWriteEvent) ==>
        started == old(started) && unchanged(fdPerTid, metadataPages) && lib.registry == old(lib.registry)
      ensures SamplingWriteSupported(lib.archi) && encodes(lib.archi.samplingWriteEvent) ==>
        StartEffect(lib, opens, mmapOk, st)
    {
      if !SamplingWriteSupported(lib.archi) {
        return Returned(ERROR_NUMAP_WRITE_SAMPLING_ARCH_NOT_SUPPORTED);
      }
      if !encodes(lib.archi.samplingWriteEvent) {
        return Returned(ERROR_PFM);
      }
      st := StartSlots(lib, opens, mmapOk);
    }

    /** `numap_sampling_resume`: refuse a started measure, otherwise mark
        it started; no slot is opened or mapped. */
    method Resume() returns (code: int)
      modifies this`started
      ensures started
      ensures code == (if old(started) then ERROR_NUMAP_ALREADY_STARTED else 0)
    {
      if started {
        return ERROR_NUMAP_ALREADY_STARTED;
      }
      started := true;
      return 0;
    }

    /** `numap_sampling_read_stop`: refuse a measure that is not started,
        otherwise clear `started`; no slot is opened or closed. */
    method ReadStop() returns (code: int)
      modifies this`started
      ensures !started
      ensures code == (if old(started) then 0 else ERROR_NUMAP_STOP_BEFORE_START)
    {
      if !started {
        return ERROR_NUMAP_STOP_BEFORE_START;
      }
      started := false;
      return 0;
    }

    /** `numap_sampling_write_stop` is read stop. */
    method WriteStop() returns (code: int)
      modifies this`started
      ensures !started
      ensures code == (if old(started) then 0 else ERROR_NUMAP_STOP_BEFORE_START)
    {
      code := ReadStop();
    }

    /** `numap_sampling_end`: free the whole registry (of every measure),
        then unmap and close each slot, which changes no modelled state. */
    method End(lib: Library) returns (code: int)
      modifies lib`registry
      ensures code == 0 && lib.registry == []
    {
      while lib.registry != []
        modifies lib`registry
        decreases |lib.registry|
      {
        lib.registry := lib.registry[1..];
      }
      return 0;
    }
  }
}
