/**
 * The undo ledger: every successful rename is appended with the time it
 * happened; renames less than five seconds apart form one batch, and undo
 * reverses the most recent batch, newest rename first.
 *
 * The ledger's transitions are functions on `UndoState`; the `Ledger`
 * class holds the state in place and its methods are proved to perform
 * exactly those transitions. Time is the `now` parameter (milliseconds),
 * and the file system is a `Files.FileSystem`.
 */
module Undo {
  import opened Text
  import Paths
  import Files

  /** A rename opens a new batch when the previous one is more than this many milliseconds older. */
  const BatchGapMs: int := 5000

  datatype RenameOperation = RenameOperation(
    timestamp: int,
    oldPath: string,
    newPath: string,
    oldName: string,
    newName: string)

  datatype UndoState = UndoState(operations: seq<RenameOperation>, lastBatch: int)

  /** The state `loadUndoState` yields when there is no ledger file. */
  const EmptyState := UndoState([], 0)

  /** `recordRename(oldPath, newPath)` at time `now`. */
  function Recorded(s: UndoState, oldPath: string, newPath: string, now: int): (r: UndoState)
    ensures |r.operations| == |s.operations| + 1 && r.operations[..|s.operations|] == s.operations
    ensures r.operations[|s.operations|] ==
      RenameOperation(now, oldPath, newPath, Paths.Basename(oldPath), Paths.Basename(newPath))
    ensures s.operations == [] ==> r.lastBatch == now
    ensures s.operations != [] && now - s.operations[|s.operations| - 1].timestamp > BatchGapMs ==> r.lastBatch == now
    ensures s.operations != [] && now - s.operations[|s.operations| - 1].timestamp <= BatchGapMs ==> r.lastBatch == s.lastBatch
  {
    var lastBatch :=
      if |s.operations| > 0 then
        (if now - s.operations[|s.operations| - 1].timestamp > BatchGapMs then now else s.lastBatch)
      else now;
    var op := RenameOperation(now, oldPath, newPath, Paths.Basename(oldPath), Paths.Basename(newPath));
    assert (s.operations + [op])[..|s.operations|] == s.operations;
    UndoState(s.operations + [op], lastBatch)
  }

  /** The operations stamped at or after `t`, in recorded order. */
  function AtOrAfter(ops: seq<RenameOperation>, t: int): (r: seq<RenameOperation>)
    ensures |r| <= |ops|
  {
    if ops == [] then []
    else if ops[0].timestamp >= t then [ops[0]] + AtOrAfter(ops[1..], t)
    else AtOrAfter(ops[1..], t)
  }

  /** `AtOrAfter` keeps exactly the operations stamped at or after `t`. */
  lemma {:induction false} AtOrAfterMembers(ops: seq<RenameOperation>, t: int)
    ensures forall op :: op in AtOrAfter(ops, t) <==> op in ops && op.timestamp >= t
  {
    if ops != [] {
      AtOrAfterMembers(ops[1..], t);
      assert ops == [ops[0]] + ops[1..];
    }
  }

  /** The operations stamped before `t`, in recorded order. */
  function Before(ops: seq<RenameOperation>, t: int): (r: seq<RenameOperation>)
    ensures |r| <= |ops|
  {
    if ops == [] then []
    else if ops[0].timestamp < t then [ops[0]] + Before(ops[1..], t)
    else Before(ops[1..], t)
  }

  /** `Before` keeps exactly the operations stamped before `t`. */
  lemma {:induction false} BeforeMembers(ops: seq<RenameOperation>, t: int)
    ensures forall op :: op in Before(ops, t) <==> op in ops && op.timestamp < t
  {
    if ops != [] {
      BeforeMembers(ops[1..], t);
      assert ops == [ops[0]] + ops[1..];
    }
  }

  /** The batch filter distributes over concatenation, so it keeps the recorded order. */
  lemma {:induction false} AtOrAfterDistributes(a: seq<RenameOperation>, b: seq<RenameOperation>, t: int)
    ensures AtOrAfter(a + b, t) == AtOrAfter(a, t) + AtOrAfter(b, t)
  {
    if a == [] {
      assert a + b == b;
    } else {
      assert (a + b)[1..] == a[1..] + b;
      AtOrAfterDistributes(a[1..], b, t);
    }
  }

  /** So does the pruning filter. */
  lemma {:induction false} BeforeDistributes(a: seq<RenameOperation>, b: seq<RenameOperation>, t: int)
    ensures Before(a + b, t) == Before(a, t) + Before(b, t)
  {
    if a == [] {
      assert a + b == b;
    } else {
      assert (a + b)[1..] == a[1..] + b;
      BeforeDistributes(a[1..], b, t);
    }
  }

  /** Every operation lands in exactly one of the two filters. */
  lemma {:induction false} FiltersPartition(ops: seq<RenameOperation>, t: int)
    ensures |AtOrAfter(ops, t)| + |Before(ops, t)| == |ops|
  {
    if ops != [] {
      FiltersPartition(ops[1..], t);
    }
  }

  /** `getLastBatch()`: the operations at or after the start of the last batch, in recorded order. */
  function LastBatch(s: UndoState): (b: seq<RenameOperation>)
    ensures s.operations == [] ==> b == []
    ensures |b| <= |s.operations|
  {
    if |s.operations| == 0 then [] else AtOrAfter(s.operations, s.lastBatch)
  }

  /** The last batch holds exactly the operations stamped at or after `lastBatch`. */
  lemma LastBatchMembers(s: UndoState)
    ensures forall op :: op in LastBatch(s) <==> op in s.operations && op.timestamp >= s.lastBatch
  {
    AtOrAfterMembers(s.operations, s.lastBatch);
  }

  /** The state once an undo with at least one success has dropped the last batch. */
  function Pruned(s: UndoState): (r: UndoState)
    ensures r.lastBatch == s.lastBatch
    ensures |r.operations| == |s.operations| - |LastBatch(s)|
  {
    FiltersPartition(s.operations, s.lastBatch);
    UndoState(Before(s.operations, s.lastBatch), s.lastBatch)
  }

  /** Pruning keeps exactly the operations stamped before `lastBatch`, those whose undo failed included. */
  lemma PrunedMembers(s: UndoState)
    ensures forall op :: op in Pruned(s).operations <==> op in s.operations && op.timestamp < s.lastBatch
  {
    BeforeMembers(s.operations, s.lastBatch);
  }

  /** Timestamps never decrease along the ledger, as when the clock never runs backwards. */
  predicate Chronological(ops: seq<RenameOperation>) {
    forall i, j :: 0 <= i < j < |ops| ==> ops[i].timestamp <= ops[j].timestamp
  }

  /**
   * In a chronological ledger the last batch is a suffix of the operations,
   * and pruning keeps exactly the prefix before it.
   */
  lemma {:induction false} LastBatchIsSuffix(ops: seq<RenameOperation>, t: int) returns (k: nat)
    requires Chronological(ops)
    ensures k <= |ops|
    ensures Before(ops, t) == ops[..k] && AtOrAfter(ops, t) == ops[k..]
  {
    if ops == [] {
      k := 0;
    } else if ops[0].timestamp >= t {
      forall i | 0 <= i < |ops|
        ensures ops[i].timestamp >= t
      {
        if i > 0 {
          assert ops[0].timestamp <= ops[i].timestamp;
        }
      }
      AllAtOrAfter(ops, t);
      k := 0;
    } else {
      ChronologicalTail(ops);
      var k' := LastBatchIsSuffix(ops[1..], t);
      k := k' + 1;
      assert Before(ops, t) == [ops[0]] + Before(ops[1..], t);
      assert AtOrAfter(ops, t) == AtOrAfter(ops[1..], t);
      assert ops[..k] == [ops[0]] + ops[1..][..k'];
      assert ops[k..] == ops[1..][k'..];
    }
  }

  lemma ChronologicalTail(ops: seq<RenameOperation>)
    requires ops != [] && Chronological(ops)
    ensures Chronological(ops[1..])
  {
    forall i, j | 0 <= i < j < |ops| - 1
      ensures ops[1..][i].timestamp <= ops[1..][j].timestamp
    {
      assert ops[1..][i] == ops[i + 1] && ops[1..][j] == ops[j + 1];
    }
  }

  lemma {:induction false} AllAtOrAfter(ops: seq<RenameOperation>, t: int)
    requires forall i :: 0 <= i < |ops| ==> ops[i].timestamp >= t
    ensures AtOrAfter(ops, t) == ops && Before(ops, t) == []
  {
    if ops != [] {
      AllAtOrAfter(ops[1..], t);
      assert ops == [ops[0]] + ops[1..];
    }
  }

  datatype UndoError =
    | FileNotFound(newName: string)   // the renamed file is gone
    | NameTaken(oldName: string)      // a file exists again under the original name
    | RenameThrew(newName: string)    // fs.renameSync threw
    | NothingToUndo

  /** The message the source reports for each error; an OS error's own text is not modelled. */
  function Message(e: UndoError): string {
    match e
    case FileNotFound(n) => n + ": Datei nicht gefunden"
    case NameTaken(n) => n + ": Zielname bereits belegt"
    case RenameThrew(n) => n + ": "
    case NothingToUndo => "Keine Operationen zum Rückgängigmachen"
  }

  datatype UndoResult = UndoResult(success: nat, failed: nat, errors: seq<UndoError>)

  /** The files and counters of the undo loop between two turns. */
  datatype Progress = Progress(files: set<string>, success: nat, failed: nat, errors: seq<UndoError>)

  /** One turn of the undo loop, on operation `op`. */
  function UndoStep(p: Progress, op: RenameOperation, locked: set<string>): (q: Progress)
    ensures q.success + q.failed == p.success + p.failed + 1
    ensures |q.errors| - q.failed == |p.errors| - p.failed
    ensures q.success == p.success + 1 <==>
      op.newPath in p.files && op.oldPath !in p.files && Files.RenameSucceeds(p.files, locked, op.newPath, op.oldPath)
    ensures q.success == p.success + 1 ==> q.files == p.files - {op.newPath} + {op.oldPath} && q.errors == p.errors
    ensures q.success == p.success ==> q.files == p.files
    ensures op.newPath !in p.files ==> q.errors == p.errors + [FileNotFound(op.newName)]
    ensures op.newPath in p.files && op.oldPath in p.files ==> q.errors == p.errors + [NameTaken(op.oldName)]
  {
    if op.newPath !in p.files then
      Progress(p.files, p.success, p.failed + 1, p.errors + [FileNotFound(op.newName)])
    else if op.oldPath in p.files then
      Progress(p.files, p.success, p.failed + 1, p.errors + [NameTaken(op.oldName)])
    else if !Files.RenameSucceeds(p.files, locked, op.newPath, op.oldPath) then
      Progress(p.files, p.success, p.failed + 1, p.errors + [RenameThrew(op.newName)])
    else
      Progress(p.files - {op.newPath} + {op.oldPath}, p.success + 1, p.failed, p.errors)
  }

  /**
   * The undo loop once it has handled `batch[i..]`, which it visits from the
   * last element down to `batch[i]`.
   */
  function UndoFrom(files: set<string>, batch: seq<RenameOperation>, i: nat, locked: set<string>): (p: Progress)
    requires i <= |batch|
    ensures p.success + p.failed == |batch| - i
    ensures |p.errors| == p.failed
    decreases |batch| - i
  {
    if i == |batch| then Progress(files, 0, 0, [])
    else UndoStep(UndoFrom(files, batch, i + 1, locked), batch[i], locked)
  }

  datatype UndoOutcome = UndoOutcome(result: UndoResult, state: UndoState, files: set<string>)

  /** `undoLastBatch()`: what it reports, the ledger it leaves and the files it leaves. */
  function Undone(s: UndoState, files: set<string>, locked: set<string>): (o: UndoOutcome)
    ensures LastBatch(s) == [] ==> o == UndoOutcome(UndoResult(0, 0, [NothingToUndo]), s, files)
    ensures LastBatch(s) != [] ==>
      o.result.success + o.result.failed == |LastBatch(s)| && |o.result.errors| == o.result.failed
    ensures o.result.success > 0 ==> o.state == Pruned(s)
    ensures o.result.success == 0 ==> o.state == s
  {
    var batch := LastBatch(s);
    if |batch| == 0 then UndoOutcome(UndoResult(0, 0, [NothingToUndo]), s, files)
    else
      var p := UndoFrom(files, batch, 0, locked);
      UndoOutcome(UndoResult(p.success, p.failed, p.errors), if p.success > 0 then Pruned(s) else s, p.files)
  }

  datatype UndoStats = UndoStats(totalOperations: nat, lastBatchSize: nat, lastBatchTime: Option<int>)

  /** `getUndoStats()`. */
  function Stats(s: UndoState): (st: UndoStats)
    ensures st.totalOperations == |s.operations| && st.lastBatchSize <= st.totalOperations
    ensures st.lastBatchSize == |LastBatch(s)|
    ensures st.lastBatchTime.Some? <==> st.lastBatchSize > 0
    ensures st.lastBatchTime.Some? ==> st.lastBatchTime.value >= s.lastBatch && st.lastBatchTime.value == LastBatch(s)[0].timestamp
  {
    LastBatchMembers(s);
    var batch := LastBatch(s);
    assert |batch| > 0 ==> batch[0] in batch;
    UndoStats(|s.operations|, |batch|, if |batch| > 0 then Some(batch[0].timestamp) else None)
  }

  /**
   * Undo reverses a batch newest first: when a file was renamed A to B and
   * then B to C within one batch, undo moves C back to B and then B back to
   * A. Taken oldest first, the first step would find no B and fail.
   */
  lemma ChainedRenamesUndoNewestFirst(files: set<string>, locked: set<string>, a: RenameOperation, b: RenameOperation)
    requires a.newPath == b.oldPath && a.oldPath != a.newPath && b.oldPath != b.newPath && a.oldPath != b.newPath
    requires b.newPath in files && a.oldPath !in files && a.newPath !in files
    requires a.oldPath !in locked && a.newPath !in locked && b.newPath !in locked
    ensures UndoFrom(files, [a, b], 0, locked) ==
      Progress(files - {b.newPath} + {a.oldPath}, 2, 0, [])
    ensures UndoStep(Progress(files, 0, 0, []), a, locked).errors == [FileNotFound(a.newName)]
  {
    var batch := [a, b];
    assert UndoFrom(files, batch, 2, locked) == Progress(files, 0, 0, []);
    var p1 := UndoFrom(files, batch, 1, locked);
    assert p1 == UndoStep(Progress(files, 0, 0, []), b, locked);
    assert p1.files == files - {b.newPath} + {a.newPath};
    assert files - {b.newPath} + {a.newPath} - {a.newPath} + {a.oldPath} == files - {b.newPath} + {a.oldPath};
  }

  /**
   * A rename recorded more than five seconds after the previous one, in a
   * ledger whose operations all predate it, is the whole of the last batch,
   * and pruning leaves exactly the earlier operations.
   */
  lemma {:induction false} RecordedAfterGap(s: UndoState, oldPath: string, newPath: string, now: int)
    requires s.operations != [] ==> now - s.operations[|s.operations| - 1].timestamp > BatchGapMs
    requires forall i :: 0 <= i < |s.operations| ==> s.operations[i].timestamp < now
    ensures var r := Recorded(s, oldPath, newPath, now);
      r.lastBatch == now && LastBatch(r) == [r.operations[|s.operations|]] &&
      Pruned(r) == UndoState(s.operations, now)
  {
    var r := Recorded(s, oldPath, newPath, now);
    var op := r.operations[|s.operations|];
    assert r.operations == s.operations + [op];
    AtOrAfterDistributes(s.operations, [op], now);
    BeforeDistributes(s.operations, [op], now);
    NoneAtOrAfter(s.operations, now);
    assert AtOrAfter([op], now) == [op] + AtOrAfter([op][1..], now);
    assert Before([op], now) == Before([op][1..], now);
  }

  /**
   * A rename recorded more than five seconds after every earlier one forms
   * a batch of its own, and undoing it restores the file system and the
   * earlier operations.
   */
  lemma {:induction false} RecordThenUndoRestores(s: UndoState, files: set<string>, locked: set<string>,
                                                  oldPath: string, newPath: string, now: int)
    requires oldPath in files && newPath !in files && oldPath !in locked && newPath !in locked
    requires forall i :: 0 <= i < |s.operations| ==> s.operations[i].timestamp < now - BatchGapMs
    ensures var r := Recorded(s, oldPath, newPath, now);
      Undone(r, files - {oldPath} + {newPath}, locked) ==
      UndoOutcome(UndoResult(1, 0, []), UndoState(s.operations, now), files)
  {
    var r := Recorded(s, oldPath, newPath, now);
    var op := r.operations[|s.operations|];
    assert LastBatch(r) == [op] && Pruned(r) == UndoState(s.operations, now) by {
      RecordedAfterGap(s, oldPath, newPath, now);
    }
    assert op.oldPath == oldPath && op.newPath == newPath;
    var renamed := files - {oldPath} + {newPath};
    assert renamed - {newPath} + {oldPath} == files;
    UndoneOfOneRename(r, renamed, locked, op);
  }

  /** A last batch of one rename whose target is there and whose source is free is undone and pruned. */
  lemma UndoneOfOneRename(r: UndoState, files: set<string>, locked: set<string>, op: RenameOperation)
    requires LastBatch(r) == [op]
    requires op.newPath in files && op.oldPath !in files
    requires op.oldPath !in locked && op.newPath !in locked
    ensures Undone(r, files, locked) == UndoOutcome(UndoResult(1, 0, []), Pruned(r), files - {op.newPath} + {op.oldPath})
  {
    UndoOfOneRename(files, locked, op);
  }

  /** Undoing a batch of one rename whose target is there and whose source is free moves the file back. */
  lemma UndoOfOneRename(files: set<string>, locked: set<string>, op: RenameOperation)
    requires op.newPath in files && op.oldPath !in files
    requires op.oldPath !in locked && op.newPath !in locked
    ensures UndoFrom(files, [op], 0, locked) == Progress(files - {op.newPath} + {op.oldPath}, 1, 0, [])
  {
    assert UndoFrom(files, [op], 1, locked) == Progress(files, 0, 0, []);
  }

  lemma {:induction false} NoneAtOrAfter(ops: seq<RenameOperation>, t: int)
    requires forall i :: 0 <= i < |ops| ==> ops[i].timestamp < t
    ensures AtOrAfter(ops, t) == [] && Before(ops, t) == ops
  {
    if ops != [] {
      NoneAtOrAfter(ops[1..], t);
      assert ops == [ops[0]] + ops[1..];
    }
  }

  /**
   * A gap of exactly 5000 ms does not split a batch: renames at 0, 2000 and
   * 7000 ms form one batch, begun at 0.
   */
  lemma GapOfFiveSecondsJoinsBatch(p: string, q: string)
    ensures var s := Recorded(Recorded(Recorded(EmptyState, p, q, 0), p, q, 2000), p, q, 7000);
      s.lastBatch == 0 && LastBatch(s) == s.operations
  {
    var s1 := Recorded(EmptyState, p, q, 0);
    var s2 := Recorded(s1, p, q, 2000);
    var s3 := Recorded(s2, p, q, 7000);
    assert s2.operations[0] == s1.operations[0];
    assert s3.operations[0] == s2.operations[0] && s3.operations[1] == s2.operations[1];
    AllAtOrAfter(s3.operations, 0);
  }

  /** A gap of 5001 ms does: a rename at 7001 ms after 0 and 2000 ms is a batch of its own. */
  lemma LongerGapStartsBatch(p: string, q: string)
    ensures var s := Recorded(Recorded(Recorded(EmptyState, p, q, 0), p, q, 2000), p, q, 7001);
      s.lastBatch == 7001 && LastBatch(s) == [s.operations[2]]
  {
    var s1 := Recorded(EmptyState, p, q, 0);
    var s2 := Recorded(s1, p, q, 2000);
    assert s2.operations[0] == s1.operations[0];
    RecordedAfterGap(s2, p, q, 7001);
  }

  /** The ledger as the source keeps it in its state file, held in place. */
  class Ledger {
    var operations: seq<RenameOperation>
    var lastBatch: int

    function State(): UndoState
      reads this
    {
      UndoState(operations, lastBatch)
    }

    constructor ()
      ensures State() == EmptyState
    {
      operations := [];
      lastBatch := 0;
    }

    /** `recordRename(oldPath, newPath)`, with the clock reading `now`. */
    method RecordRename(oldPath: string, newPath: string, now: int)
      modifies this
      ensures State() == Recorded(old(State()), oldPath, newPath, now)
    {
      if |operations| > 0 {
        var lastOp := operations[|operations| - 1];
        if now - lastOp.timestamp > BatchGapMs {
          lastBatch := now;
        }
      } else {
        lastBatch := now;
      }
      operations := operations + [RenameOperation(now, oldPath, newPath, Paths.Basename(oldPath), Paths.Basename(newPath))];
    }

    /** `undoLastBatch()` on the file system `fs`. */
    method UndoLastBatch(fs: Files.FileSystem) returns (result: UndoResult)
      modifies this, fs
      ensures Undone(old(State()), old(fs.files), fs.locked) == UndoOutcome(result, State(), fs.files)
    {
      var batch := LastBatch(State());
      if |batch| == 0 {
        return UndoResult(0, 0, [NothingToUndo]);
      }
      var success, failed, errors := 0, 0, [];
      var i := |batch| - 1;
      while i >= 0
        invariant -1 <= i < |batch|
        invariant UndoFrom(old(fs.files), batch, i + 1, fs.locked) == Progress(fs.files, success, failed, errors)
        invariant operations == old(operations) && lastBatch == old(lastBatch)
      {
        var op := batch[i];
        var found := fs.Exists(op.newPath);
        if !found {
          errors := errors + [FileNotFound(op.newName)];
          failed := failed + 1;
          i := i - 1;
          continue;
        }
        var taken := fs.Exists(op.oldPath);
        if taken {
          errors := errors + [NameTaken(op.oldName)];
          failed := failed + 1;
          i := i - 1;
          continue;
        }
        var ok := fs.Rename(op.newPath, op.oldPath);
        if ok {
          success := success + 1;
        } else {
          errors := errors + [RenameThrew(op.newName)];
          failed := failed + 1;
        }
        i := i - 1;
      }
      if success > 0 {
        operations := Before(operations, lastBatch);
      }
      result := UndoResult(success, failed, errors);
    }
  }
}
