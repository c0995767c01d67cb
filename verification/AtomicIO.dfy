/**
  Append-only files, their recovery after a torn write, and atomic replacement
  (moss/atomic_io.py).
*/
module AtomicIO {
  import opened History

  type Byte = b: nat | b < 256

  type Bytes = seq<Byte>

  const LF: Byte := 10
  const CR: Byte := 13

  // ---- Appending, with an fsync every so many lines ----

  function Terminated(line: Bytes): Bytes {
    if |line| > 0 && line[|line| - 1] == LF then line else line + [LF]
  }

  /** Whether this append, the (count + 1)-st since the counter was reset, fsyncs. */
  predicate ShouldFsync(count: nat, fsyncEvery: int, forceFsync: bool) {
    forceFsync || (fsyncEvery > 0 && (count + 1) % fsyncEvery == 0)
  }

  /** Of one file: this process's append counter, and how many lines a power cut could lose. */
  datatype Sync = Sync(count: nat, unsynced: nat)

  /**
    `works` is the answer of fsync_file.  A counter lives as long as its process, the
    unsynced lines outlive it.
  */
  datatype FileOp = Append(force: bool, works: bool) | Truncate(torn: bool, works: bool) | Restart

  function AfterOp(s: Sync, op: FileOp, every: int): Sync {
    match op
    case Append(force, works) =>
      var due := ShouldFsync(s.count, every, force);
      Sync(if due then 0 else s.count + 1, if due && works then 0 else s.unsynced + 1)
    case Truncate(torn, works) => if torn && works then s.(unsynced := 0) else s
    case Restart => s.(count := 0)
  }

  class Appender {
    var files: map<string, Bytes>
    var appendCounts: map<string, nat>
    var degradations: set<string>
    ghost var unsynced: map<string, nat>

    ghost function At(path: string): Sync
      reads this
    {
      Sync(if path in appendCounts then appendCounts[path] else 0, if path in unsynced then unsynced[path] else 0)
    }

    constructor ()
      ensures files == map[] && degradations == {} && forall path :: At(path) == Sync(0, 0)
    {
      files, appendCounts, degradations, unsynced := map[], map[], {}, map[];
    }

    /** A failed fsync is noted by name, and the counter starts over all the same. */
    method AppendLine(path: string, line: Bytes, fsyncEvery: int, forceFsync: bool, fsyncWorks: bool)
      modifies this
      ensures files == old(files)[path := (if path in old(files) then old(files)[path] else []) + Terminated(line)]
      ensures At(path) == AfterOp(old(At(path)), Append(forceFsync, fsyncWorks), fsyncEvery)
      ensures forall p :: p != path ==> At(p) == old(At(p))
      ensures degradations == old(degradations) +
                if ShouldFsync(old(At(path)).count, fsyncEvery, forceFsync) && !fsyncWorks then {"file_fsync_unsupported"} else {}
    {
      hide Terminated;
      var count := if path in appendCounts then appendCounts[path] else 0;
      var shouldFsync := ShouldFsync(count, fsyncEvery, forceFsync);
      files := files[path := (if path in files then files[path] else []) + Terminated(line)];
      Settle(path, shouldFsync, fsyncWorks);
    }

    /** The bookkeeping of one append: fsync if due, and count the line. */
    method Settle(path: string, shouldFsync: bool, fsyncWorks: bool)
      modifies this`appendCounts, this`degradations, this`unsynced
      ensures At(path) == Sync(if shouldFsync then 0 else old(At(path)).count + 1,
                               if shouldFsync && fsyncWorks then 0 else old(At(path)).unsynced + 1)
      ensures forall p :: p != path ==> At(p) == old(At(p))
      ensures degradations == old(degradations) + if shouldFsync && !fsyncWorks then {"file_fsync_unsupported"} else {}
    {
      var count := if path in appendCounts then appendCounts[path] else 0;
      ghost var pending := (if path in unsynced then unsynced[path] else 0) + 1;
      if shouldFsync && !fsyncWorks {
        degradations := degradations + {"file_fsync_unsupported"};
      }
      unsynced := unsynced[path := if shouldFsync && fsyncWorks then 0 else pending];
      appendCounts := appendCounts[path := if shouldFsync then 0 else count + 1];
    }

    /** Returns the number of bytes dropped; a missing file has none. */
    method TruncatePartialTail(path: string, fsyncWorks: bool) returns (dropped: nat)
      modifies this`files, this`degradations, this`unsynced
      ensures path !in old(files) ==> dropped == 0 && files == old(files)
      ensures path in old(files) ==>
                files == old(files)[path := Truncated(old(files)[path])] &&
                dropped == |old(files)[path]| - |files[path]|
      ensures At(path) == AfterOp(old(At(path)), Truncate(dropped > 0, fsyncWorks), 0)
      ensures forall p :: p != path ==> At(p) == old(At(p))
      ensures dropped == 0 ==> degradations == old(degradations)
      ensures dropped > 0 && fsyncWorks ==> degradations == old(degradations) + {"partial_jsonl_tail_dropped"}
      ensures dropped > 0 && !fsyncWorks ==>
                degradations == old(degradations) + {"partial_jsonl_tail_dropped", "file_fsync_unsupported"}
    {
      if path !in files || |files[path]| == 0 {
        return 0;
      }
      var data := files[path];
      if data[|data| - 1] == LF || data[|data| - 1] == CR {
        return 0;
      }
      var keep := RFind(data, LF);
      dropped := |data| - keep;
      files := files[path := data[..keep]];
      if fsyncWorks {
        unsynced := unsynced[path := 0];
      } else {
        degradations := degradations + {"file_fsync_unsupported"};
      }
      degradations := degradations + {"partial_jsonl_tail_dropped"};
    }

    /** Another process takes over: the counters and the noted degradations are gone, the files are not. */
    method RestartProcess()
      modifies this`appendCounts, this`degradations
      ensures files == old(files) && appendCounts == map[] && degradations == {}
      ensures forall path :: At(path) == AfterOp(old(At(path)), Restart, 0)
    {
      appendCounts, degradations := map[], {};
    }
  }

  // ---- How many lines a power cut can lose ----

  function RunOps(s: Sync, ops: seq<FileOp>, every: int): Sync {
    if |ops| == 0 then s else AfterOp(RunOps(s, ops[..|ops| - 1], every), ops[|ops| - 1], every)
  }

  const NewFile := Sync(0, 0)

  /** Appends by one process, every fsync working. */
  predicate OrderlyAppends(ops: seq<FileOp>) {
    forall op <- ops :: op.Append? && op.works
  }

  lemma CountStaysBelow(count: nat, fsyncEvery: int, forceFsync: bool)
    requires count < fsyncEvery
    ensures ShouldFsync(count, fsyncEvery, forceFsync) || count + 1 < fsyncEvery
    ensures count + 1 < fsyncEvery && !forceFsync ==> !ShouldFsync(count, fsyncEvery, forceFsync)
  {
  }

  /** The counter never reaches the interval. */
  lemma {:induction false} CountBelowInterval(s: Sync, ops: seq<FileOp>, every: int)
    requires s.count < every
    ensures RunOps(s, ops, every).count < every
    decreases |ops|
  {
    if |ops| > 0 {
      hide ShouldFsync;
      CountBelowInterval(s, ops[..|ops| - 1], every);
      var op, before := ops[|ops| - 1], RunOps(s, ops[..|ops| - 1], every);
      if op.Append? {
        CountStaysBelow(before.count, every, op.force);
      }
    }
  }

  lemma {:induction false} OrderlyKeepsCounted(s: Sync, ops: seq<FileOp>, every: int)
    requires s.unsynced <= s.count < every && OrderlyAppends(ops)
    ensures var r := RunOps(s, ops, every); r.unsynced <= r.count < every
    decreases |ops|
  {
    if |ops| > 0 {
      hide ShouldFsync;
      assert ops[|ops| - 1] in ops && forall op <- ops[..|ops| - 1] :: op in ops;
      OrderlyKeepsCounted(s, ops[..|ops| - 1], every);
      CountBelowInterval(s, ops, every);
    }
  }

  /** `n` plain appends. */
  function Plain(n: nat): seq<FileOp> {
    seq(n, (_: nat) => Append(false, true))
  }

  lemma {:induction false} PlainRun(s: Sync, n: nat, every: int)
    requires s.count + n < every
    ensures RunOps(s, Plain(n), every) == Sync(s.count + n, s.unsynced + n)
  {
    if n > 0 {
      hide ShouldFsync;
      PlainRun(s, n - 1, every);
      assert Plain(n)[..n - 1] == Plain(n - 1);
      CountStaysBelow(s.count + n - 1, every, false);
    }
  }

  /**
    From a given state of a file, orderly appends never leave more than every - 1 lines
    unsynced if and only if no more lines are unsynced than the process has counted.
  */
  lemma {:induction false} BoundKeptIff(s: Sync, every: int)
    requires s.count < every
    ensures (forall ops :: OrderlyAppends(ops) ==> RunOps(s, ops, every).unsynced <= every - 1) <==> s.unsynced <= s.count
  {
    hide OrderlyAppends, RunOps;
    if s.unsynced <= s.count {
      forall ops | OrderlyAppends(ops)
        ensures RunOps(s, ops, every).unsynced <= every - 1
      {
        OrderlyKeepsCounted(s, ops, every);
      }
    } else {
      PlainRun(s, every - 1 - s.count, every);
      PlainIsOrderly(every - 1 - s.count);
    }
  }

  lemma PlainIsOrderly(n: nat)
    ensures OrderlyAppends(Plain(n))
  {
  }

  /**
    Whether, since the last fsync of the file that worked, a due fsync failed or a process
    ended while lines were unsynced.
  */
  predicate Spoiled(ops: seq<FileOp>, every: int) {
    if |ops| == 0 then false
    else
      var front, op := ops[..|ops| - 1], ops[|ops| - 1];
      var before := RunOps(NewFile, front, every);
      match op
      case Append(force, works) => if ShouldFsync(before.count, every, force) then !works else Spoiled(front, every)
      case Truncate(torn, works) => !(torn && works) && Spoiled(front, every)
      case Restart => before.unsynced > 0
  }

  /**
    Over every history of appends, truncations and restarts: the file is where orderly
    appends keep the bound exactly when it is not spoiled.
  */
  lemma {:induction false} BoundKeptUnlessSpoiled(ops: seq<FileOp>, every: int)
    requires every > 0
    ensures (forall more :: OrderlyAppends(more) ==> RunOps(RunOps(NewFile, ops, every), more, every).unsynced <= every - 1)
            <==> !Spoiled(ops, every)
  {
    hide RunOps, Spoiled, OrderlyAppends;
    CountBelowInterval(NewFile, ops, every);
    SpoiledIff(ops, every);
    BoundKeptIff(RunOps(NewFile, ops, every), every);
  }

  lemma {:induction false} SpoiledIff(ops: seq<FileOp>, every: int)
    ensures RunOps(NewFile, ops, every).unsynced <= RunOps(NewFile, ops, every).count <==> !Spoiled(ops, every)
    decreases |ops|
  {
    if |ops| > 0 {
      hide ShouldFsync;
      SpoiledIff(ops[..|ops| - 1], every);
    }
  }

  lemma {:induction false} RunOn(s: Sync, ops: seq<FileOp>, more: seq<FileOp>, every: int)
    ensures RunOps(s, ops + more, every) == RunOps(RunOps(s, ops, every), more, every)
    decreases |more|
  {
    hide AfterOp;
    if |more| == 0 {
      assert ops + more == ops;
    } else {
      RunOn(s, ops, more[..|more| - 1], every);
      assert (ops + more)[..|ops + more| - 1] == ops + more[..|more| - 1];
    }
  }

  /** One process after another, each ending just before its first fsync. */
  function ShortProcesses(k: nat, every: int): seq<FileOp>
    requires every > 0
  {
    if k == 0 then [] else ShortProcesses(k - 1, every) + (Plain(every - 1) + [Restart])
  }

  /** Many short processes leave any number of lines unsynced, all fsyncs working. */
  lemma {:induction false} ShortProcessesPileUp(k: nat, every: int)
    requires every > 0
    ensures RunOps(NewFile, ShortProcesses(k, every), every) == Sync(0, k * (every - 1))
  {
    if k > 0 {
      hide RunOps, AfterOp;
      ShortProcessesPileUp(k - 1, every);
      var before := Sync(0, (k - 1) * (every - 1));
      RunOn(NewFile, ShortProcesses(k - 1, every), Plain(every - 1) + [Restart], every);
      RunOn(before, Plain(every - 1), [Restart], every);
      PlainRun(before, every - 1, every);
      LastOp(RunOps(before, Plain(every - 1), every), Restart, every);
    } else {
      assert ShortProcesses(0, every) == [];
    }
  }

  lemma LastOp(s: Sync, op: FileOp, every: int)
    ensures RunOps(s, [op], every) == AfterOp(s, op, every)
  {
    assert [op][..0] == [];
  }

  const FSYNC_INTERVAL := 20

  /** Two processes with the default interval: 38 lines at risk; and one failed fsync: 20. */
  lemma {:induction false} BoundCanFail()
    ensures RunOps(NewFile, ShortProcesses(2, FSYNC_INTERVAL), FSYNC_INTERVAL).unsynced == 38
    ensures RunOps(NewFile, Plain(19) + [Append(false, false)], FSYNC_INTERVAL) == Sync(0, 20)
  {
    ShortProcessesPileUp(2, FSYNC_INTERVAL);
    hide RunOps;
    RunOn(NewFile, Plain(19), [Append(false, false)], FSYNC_INTERVAL);
    PlainRun(NewFile, 19, FSYNC_INTERVAL);
    LastOp(Sync(19, 19), Append(false, false), FSYNC_INTERVAL);
  }

  // ---- Truncation ----

  /** One past the last occurrence of `b`, or 0. */
  function RFind(data: Bytes, b: Byte): (end: nat)
    ensures end <= |data| && (end > 0 ==> data[end - 1] == b)
    ensures forall i :: end <= i < |data| ==> data[i] != b
  {
    if |data| == 0 then 0
    else if data[|data| - 1] == b then |data|
    else RFind(data[..|data| - 1], b)
  }

  function Truncated(data: Bytes): Bytes {
    if |data| == 0 || data[|data| - 1] == LF || data[|data| - 1] == CR then data
    else data[..RFind(data, LF)]
  }

  /** The file holding complete records, one per line. */
  function Join(records: seq<Bytes>): Bytes {
    if |records| == 0 then [] else Join(records[..|records| - 1]) + records[|records| - 1] + [LF]
  }

  ghost predicate NewlineFree(record: Bytes) {
    LF !in record
  }

  lemma {:induction false} JoinEndsClean(records: seq<Bytes>)
    ensures |Join(records)| > 0 ==> Join(records)[|Join(records)| - 1] == LF
  {
  }

  lemma JoinExtend(records: seq<Bytes>, record: Bytes)
    ensures Join(records + [record]) == Join(records) + record + [LF]
  {
    assert (records + [record])[..|records|] == records;
  }

  /** Appending a record to a file of complete records gives one more, whether or not it brings its own newline. */
  lemma AppendWritesOneRecord(records: seq<Bytes>, record: Bytes)
    requires NewlineFree(record)
    ensures Join(records) + Terminated(record) == Join(records + [record])
    ensures Join(records) + Terminated(record + [LF]) == Join(records + [record])
  {
    hide Join;
    JoinExtend(records, record);
    assert Join(records) + record + [LF] == Join(records) + (record + [LF]);
  }

  /** The only place where the last newline can be. */
  lemma RFindIs(data: Bytes, end: nat)
    requires end <= |data| && (end > 0 ==> data[end - 1] == LF)
    requires forall i :: end <= i < |data| ==> data[i] != LF
    ensures RFind(data, LF) == end
  {
  }

  /**
    Torn tails.  After complete records and any newline-free rest, truncation gives back
    exactly the records if and only if the rest does not end in a carriage return.
  */
  lemma {:induction false} TornTailIff(records: seq<Bytes>, rest: Bytes)
    requires NewlineFree(rest)
    ensures Truncated(Join(records) + rest) == Join(records) <==> |rest| == 0 || rest[|rest| - 1] != CR
  {
    hide Join, RFind;
    JoinEndsClean(records);
    var data := Join(records) + rest;
    if |rest| == 0 {
      assert data == Join(records);
    } else {
      assert data[|data| - 1] == rest[|rest| - 1];
      RFindIs(data, |Join(records)|);
    }
  }

  /**
    A crash during an append.  Whatever part of the next line reached the file, truncation
    leaves the old records, or all of them with the new one if its newline was written;
    given that no written part ends in a carriage return.
  */
  lemma {:induction false} TornAppendRecovers(records: seq<Bytes>, record: Bytes, n: nat)
    requires NewlineFree(record) && CR !in record && n <= |record| + 1
    ensures Truncated(Join(records) + (record + [LF])[..n]) ==
            Join(if n == |record| + 1 then records + [record] else records)
  {
    hide Join, Truncated;
    if n == |record| + 1 {
      JoinExtend(records, record);
      assert (record + [LF])[..n] == record + [LF];
      assert Join(records) + (record + [LF]) == Join(records + [record]);
      TornTailIff(records + [record], []);
      assert Join(records + [record]) + [] == Join(records + [record]);
    } else {
      assert (record + [LF])[..n] == record[..n];
      TornTailIff(records, record[..n]);
    }
  }

  // ---- Reading the last line backwards ----

  /** data.rstrip(b"\n\r"). */
  function RStrip(data: Bytes): Bytes {
    if |data| > 0 && (data[|data| - 1] == LF || data[|data| - 1] == CR) then RStrip(data[..|data| - 1]) else data
  }

  /** The whole-file answer: the text after the last newline of the stripped file. */
  function LastLine(data: Bytes): Bytes {
    RStrip(data)[RFind(RStrip(data), LF)..]
  }

  lemma {:induction false} RStripTail(front: Bytes, tail: Bytes)
    requires |RStrip(tail)| > 0
    ensures RStrip(front + tail) == front + RStrip(tail)
    decreases |tail|
  {
    var last := tail[|tail| - 1];
    assert (front + tail)[|front + tail| - 1] == last;
    if last == LF || last == CR {
      assert (front + tail)[..|front + tail| - 1] == front + tail[..|tail| - 1];
      RStripTail(front, tail[..|tail| - 1]);
    }
  }

  lemma RFindTail(front: Bytes, tail: Bytes)
    requires LF in tail
    ensures RFind(front + tail, LF) == |front| + RFind(tail, LF)
  {
    hide RFind;
    var end := |front| + RFind(tail, LF);
    var i :| 0 <= i < |tail| && tail[i] == LF;
    assert end > |front|;
    RFindIs(front + tail, end);
  }

  /** Once a newline is inside the stripped tail, the rest of the file cannot matter. */
  lemma {:induction false} TailDecides(front: Bytes, tail: Bytes)
    requires LF in RStrip(tail)
    ensures LastLine(front + tail) == LastLine(tail)
  {
    hide RStrip, RFind;
    RStripTail(front, tail);
    RFindTail(front, RStrip(tail));
  }

  /** The backward loop gives the whole-file answer for every chunk size. */
  method ReadLastLine(data: Bytes, chunk: nat) returns (line: Bytes)
    requires chunk > 0
    ensures line == LastLine(data)
  {
    hide RStrip, RFind, LastLine;
    var buffer: Bytes := [];
    var position := |data|;
    while position > 0
      invariant 0 <= position <= |data|
      invariant buffer == data[position..]
    {
      var step := if chunk < position then chunk else position;
      position := position - step;
      buffer := data[position..position + step] + buffer;
      if LF in RStrip(buffer) {
        TailDecides(data[..position], buffer);
        assert data == data[..position] + buffer;
        return LastLine(buffer);
      }
    }
    assert data[0..] == data;
    return LastLine(buffer);
  }

  lemma {:induction false} RStripBlank(front: Bytes, blank: Bytes)
    requires forall i :: 0 <= i < |blank| ==> blank[i] == LF || blank[i] == CR
    requires |front| > 0 && front[|front| - 1] != LF && front[|front| - 1] != CR
    ensures RStrip(front + blank) == front
    decreases |blank|
  {
    if |blank| == 0 {
      assert front + blank == front;
    } else {
      assert (front + blank)[..|front + blank| - 1] == front + blank[..|blank| - 1];
      assert (front + blank)[|front + blank| - 1] == blank[|blank| - 1];
      RStripBlank(front, blank[..|blank| - 1]);
    }
  }

  /** The last non-empty record is found behind any number of blank lines. */
  lemma {:induction false} LastRecordIsLastLine(records: seq<Bytes>, record: Bytes, blank: Bytes)
    requires NewlineFree(record) && |record| > 0 && record[|record| - 1] != CR
    requires forall i :: 0 <= i < |blank| ==> blank[i] == LF || blank[i] == CR
    ensures LastLine(Join(records) + record + blank) == record
  {
    hide RStrip, RFind, Join;
    var text := Join(records) + record;
    JoinEndsClean(records);
    assert text[|text| - 1] == record[|record| - 1] != LF;
    RStripBlank(text, blank);
    RFindIs(text, |Join(records)|);
  }

  /** After recovery the last line is the last complete record. */
  lemma {:induction false} RecoveredLastLine(records: seq<Bytes>, record: Bytes, rest: Bytes)
    requires NewlineFree(record) && |record| > 0 && record[|record| - 1] != CR
    requires NewlineFree(rest) && CR !in rest
    ensures LastLine(Truncated(Join(records + [record]) + rest)) == record
  {
    hide Join, Truncated, LastLine;
    TornTailIff(records + [record], rest);
    JoinExtend(records, record);
    LastRecordIsLastLine(records, record, [LF]);
  }

  // ---- Atomic replacement ----

  datatype WriteStep = WriteTemp | SyncTemp | Replace | SyncDir

  /** What has been done so far to the temporary file and to the directory entry. */
  datatype Progress = Progress(written: bool, tempSynced: bool, renamed: bool, dirSynced: bool)

  function Do(p: Progress, step: WriteStep): Progress {
    match step
    case WriteTemp => p.(written := true)
    case SyncTemp => p.(tempSynced := p.written)
    case Replace => p.(renamed := p.written)
    case SyncDir => p.(dirSynced := p.renamed)
  }

  function After(steps: seq<WriteStep>): Progress {
    if |steps| == 0 then Progress(false, false, false, false)
    else Do(After(steps[..|steps| - 1]), steps[|steps| - 1])
  }

  /** write_atomic. */
  function WriteAtomic(fsync: bool): seq<WriteStep> {
    [WriteTemp] + (if fsync then [SyncTemp] else []) + [Replace] + (if fsync then [SyncDir] else [])
  }

  /**
    What the path may hold after a power cut: the old content until the rename is durable,
    and of an unsynced file any prefix of the data.
  */
  ghost predicate MayHold(p: Progress, before: Option<Bytes>, data: Bytes, found: Option<Bytes>) {
    || (!p.dirSynced && found == before)
    || (p.renamed && found.Some? && (if p.tempSynced then found.value == data else found.value <= data))
  }

  /** No power cut, at whatever point, leaves anything but the old or the new content. */
  ghost predicate PowerSafe(steps: seq<WriteStep>) {
    forall n: nat, before: Option<Bytes>, data: Bytes, found: Option<Bytes> ::
      n <= |steps| && MayHold(After(steps[..n]), before, data, found) ==> found == before || found == Some(data)
  }

  /** A sequence of steps is safe exactly when it never renames a file it has not synced. */
  lemma {:induction false} PowerSafeIff(steps: seq<WriteStep>)
    ensures PowerSafe(steps) <==>
            forall n: nat :: n <= |steps| && After(steps[..n]).renamed ==> After(steps[..n]).tempSynced
  {
    hide After;
    forall n: nat | n <= |steps| && After(steps[..n]).renamed && !After(steps[..n]).tempSynced
      ensures !PowerSafe(steps)
    {
      var data: Bytes := [0];
      assert MayHold(After(steps[..n]), None, data, Some([]));
    }
  }

  /** In the order used, with fsync, a power cut leaves old or new; at the end it is the new. */
  lemma {:induction false} WriteAtomicIsAtomic(before: Option<Bytes>, data: Bytes, found: Option<Bytes>)
    ensures PowerSafe(WriteAtomic(true)) && !PowerSafe(WriteAtomic(false))
    ensures !PowerSafe([WriteTemp, Replace, SyncTemp, SyncDir])
    ensures MayHold(After(WriteAtomic(true)), before, data, found) <==> found == Some(data)
  {
    SyncedOrder();
    UnsyncedOrder();
    PowerSafeIff(WriteAtomic(true));
    PowerSafeIff(WriteAtomic(false));
    PowerSafeIff([WriteTemp, Replace, SyncTemp, SyncDir]);
  }

  lemma {:induction false} AfterStep(steps: seq<WriteStep>, n: nat)
    requires n < |steps|
    ensures After(steps[..n + 1]) == Do(After(steps[..n]), steps[n])
  {
    assert steps[..n + 1][..n] == steps[..n];
  }

  lemma {:induction false} SyncedOrder()
    ensures var steps := WriteAtomic(true);
            (forall n: nat :: n <= |steps| && After(steps[..n]).renamed ==> After(steps[..n]).tempSynced) &&
            After(steps) == Progress(true, true, true, true)
  {
    var steps := WriteAtomic(true);
    assert steps == [WriteTemp, SyncTemp, Replace, SyncDir];
    assert steps[..0] == [] && steps[..4] == steps;
    AfterStep(steps, 0);
    AfterStep(steps, 1);
    AfterStep(steps, 2);
    AfterStep(steps, 3);
  }

  lemma {:induction false} UnsyncedOrder()
    ensures var steps := WriteAtomic(false); After(steps[..2]) == Progress(true, false, true, false)
    ensures var steps := [WriteTemp, Replace, SyncTemp, SyncDir]; After(steps[..2]) == Progress(true, false, true, false)
  {
    var a, b := WriteAtomic(false), [WriteTemp, Replace, SyncTemp, SyncDir];
    assert a == [WriteTemp, Replace] && a[..0] == [] && b[..0] == [];
    AfterStep(a, 0);
    AfterStep(a, 1);
    AfterStep(b, 0);
    AfterStep(b, 1);
  }
}
