// The file system from its callers to the blocks, by the operations of a history
// alone: which files are there, how long they are and what each byte of them is.
module FileHistory {
  import opened Wrappers
  import opened Coalesce
  import opened QueueRuns
  import opened FileSystem
  import opened BlockStore
  import opened FileMirror
  import opened FileWorker

  // ----- one file, one byte, by the operations

  predicate Changes(op: Op, n: string) { (op.WriteAt? || op.Resize?) && op.name == n }

  predicate Creates(op: Op, n: string) { op.Open? && op.name == n && op.create }

  predicate IsThere(start: Fs, ops: seq<Op>, n: string) {
    if ops == [] then n in start.mem
    else
      var op := ops[|ops| - 1];
      Creates(op, n) || Changes(op, n) || (!Removes(op, n) && IsThere(start, ops[..|ops| - 1], n))
  }

  // The file was made by opening a temporary one, and is not mirrored.
  predicate IsTemporary(start: Fs, ops: seq<Op>, n: string) {
    if ops == [] then n in start.memoryOnly
    else
      var before, op := ops[..|ops| - 1], ops[|ops| - 1];
      if Creates(op, n) && !IsThere(start, before, n) then op.temporary
      else !Removes(op, n) && IsTemporary(start, before, n)
  }

  // The file was brought back through a handle that had outlived it.
  predicate IsStray(start: Fs, ops: seq<Op>, n: string) {
    if ops == [] then false
    else
      var before, op := ops[..|ops| - 1], ops[|ops| - 1];
      !Removes(op, n) && (IsStray(start, before, n) || (Changes(op, n) && !IsThere(start, before, n)))
  }

  function LengthAfter(start: Fs, ops: seq<Op>, n: string): nat {
    if ops == [] then |Held(start.mem, n)|
    else
      var before, op := LengthAfter(start, ops[..|ops| - 1], n), ops[|ops| - 1];
      if Removes(op, n) then 0
      else if op.Resize? && op.name == n then op.length
      else if op.WriteAt? && op.name == n && before < EndOf(op.patch) then EndOf(op.patch)
      else before
  }

  // The byte last written there, unless it was cut off or removed since; a byte
  // that was never written is zero.
  function ByteAfter(start: Fs, ops: seq<Op>, n: string, pos: nat): Byte {
    if ops == [] then ByteOf(Held(start.mem, n), pos)
    else
      var before, op := ops[..|ops| - 1], ops[|ops| - 1];
      if Removes(op, n) || (op.Resize? && op.name == n && pos >= op.length) then 0
      else if op.WriteAt? && op.name == n && op.patch.offset <= pos < EndOf(op.patch)
      then op.patch.bytes[pos - op.patch.offset]
      else ByteAfter(start, before, n, pos)
  }

  // Cutting the file dropped a byte other than zero from the block that stays.
  ghost predicate DropsBytes(start: Fs, before: seq<Op>, op: Op, n: string) {
    op.Resize? && op.name == n &&
    exists pos: nat :: op.length <= pos < CutEnd(op.length) && ByteAfter(start, before, n, pos) != 0
  }

  ghost predicate IsCut(start: Fs, ops: seq<Op>, n: string) {
    if ops == [] then false
    else
      var before, op := ops[..|ops| - 1], ops[|ops| - 1];
      !Removes(op, n) && (IsCut(start, before, n) || DropsBytes(start, before, op, n))
  }

  // ----- memory

  ghost predicate HeldAsSaid(fs: Fs, start: Fs, ops: seq<Op>, n: string) {
    && (n in fs.mem <==> IsThere(start, ops, n))
    && (n in fs.memoryOnly <==> IsTemporary(start, ops, n))
    && |Held(fs.mem, n)| == LengthAfter(start, ops, n)
    && (forall pos: nat :: ByteOf(Held(fs.mem, n), pos) == ByteAfter(start, ops, n, pos))
  }

  lemma ThereStep(fs: Fs, op: Op, n: string)
    ensures n in Do(fs, op).mem <==> Creates(op, n) || Changes(op, n) || (!Removes(op, n) && n in fs.mem)
    ensures n in Do(fs, op).memoryOnly <==>
            if Creates(op, n) && n !in fs.mem then op.temporary || n in fs.memoryOnly
            else !Removes(op, n) && n in fs.memoryOnly
  {
    hide Issues, Step, Apply, Resized;
  }

  lemma HeldStep(fs: Fs, op: Op, n: string)
    ensures var c := Held(fs.mem, n);
            Held(Do(fs, op).mem, n) ==
            if Removes(op, n) then []
            else if op.WriteAt? && op.name == n then Apply(c, op.patch)
            else if op.Resize? && op.name == n then Resized(c, op.length)
            else c
  {
    hide Issues, Step, Unmirrored, Apply, Resized;
  }

  lemma ByteStep(fs: Fs, op: Op, n: string, pos: nat)
    ensures ByteOf(Held(Do(fs, op).mem, n), pos) ==
            if Removes(op, n) || (op.Resize? && op.name == n && pos >= op.length) then 0
            else if op.WriteAt? && op.name == n && op.patch.offset <= pos < EndOf(op.patch)
            then op.patch.bytes[pos - op.patch.offset]
            else ByteOf(Held(fs.mem, n), pos)
  {
    HeldStep(fs, op, n);
    hide Do;
    if op.WriteAt? && op.name == n {
      ApplyByte(Held(fs.mem, n), op.patch, pos);
    } else if op.Resize? && op.name == n {
      ResizedByte(Held(fs.mem, n), op.length, pos);
    }
    hide Apply, Resized, Held;
  }

  lemma ByteAfterOne(start: Fs, before: seq<Op>, op: Op, n: string, pos: nat)
    ensures ByteAfter(start, before + [op], n, pos) ==
            if Removes(op, n) || (op.Resize? && op.name == n && pos >= op.length) then 0
            else if op.WriteAt? && op.name == n && op.patch.offset <= pos < EndOf(op.patch)
            then op.patch.bytes[pos - op.patch.offset]
            else ByteAfter(start, before, n, pos)
  {
    var ops := before + [op];
    assert ops[|ops| - 1] == op && ops[..|ops| - 1] == before;
    hide ByteOf, Held;
  }

  lemma BytesAsSaid(fs: Fs, start: Fs, before: seq<Op>, op: Op, n: string, pos: nat)
    requires ByteOf(Held(fs.mem, n), pos) == ByteAfter(start, before, n, pos)
    ensures ByteOf(Held(Do(fs, op).mem, n), pos) == ByteAfter(start, before + [op], n, pos)
  {
    hide Do, Held, ByteOf, ByteAfter;
    ByteStep(fs, op, n, pos);
    ByteAfterOne(start, before, op, n, pos);
  }

  lemma FileAsSaid(fs: Fs, start: Fs, before: seq<Op>, op: Op, n: string)
    requires HeldAsSaid(fs, start, before, n) && fs.memoryOnly <= fs.mem.Keys
    ensures n in Do(fs, op).mem <==> IsThere(start, before + [op], n)
    ensures n in Do(fs, op).memoryOnly <==> IsTemporary(start, before + [op], n)
    ensures |Held(Do(fs, op).mem, n)| == LengthAfter(start, before + [op], n)
  {
    assert (before + [op])[..|before|] == before;
    ThereStep(fs, op, n);
    HeldStep(fs, op, n);
    hide Do, Held, Apply, Resized, ByteAfter, ByteOf;
  }

  lemma StepAsSaid(fs: Fs, start: Fs, before: seq<Op>, op: Op, n: string)
    requires HeldAsSaid(fs, start, before, n) && fs.memoryOnly <= fs.mem.Keys
    ensures HeldAsSaid(Do(fs, op), start, before + [op], n)
  {
    hide Do, Held, ByteAfter, ByteOf, IsThere, IsTemporary, LengthAfter;
    FileAsSaid(fs, start, before, op, n);
    forall pos: nat
      ensures ByteOf(Held(Do(fs, op).mem, n), pos) == ByteAfter(start, before + [op], n, pos)
    {
      BytesAsSaid(fs, start, before, op, n, pos);
    }
  }

  // After any history memory holds the files, the lengths and the bytes that the
  // operations alone say.
  lemma {:induction false} MemoryIsItsHistory(start: Fs, ops: seq<Op>, n: string)
    requires Safe(start)
    ensures HeldAsSaid(DoAll(start, ops), start, ops, n)
  {
    if ops != [] {
      var before, op := ops[..|ops| - 1], ops[|ops| - 1];
      MemoryIsItsHistory(start, before, n);
      HistoryKeepsSafe(start, before);
      assert DoAll(start, before).memoryOnly <= DoAll(start, before).mem.Keys by { hide AllSensible, Settled; }
      hide HeldAsSaid, Do, Safe;
      StepAsSaid(DoAll(start, before), start, before, op, n);
      assert before + [op] == ops;
    }
  }

  lemma {:induction false} StraysAreSaid(start: Fs, ops: seq<Op>, n: string)
    requires Safe(start)
    ensures Astray(start, ops, n) <==> IsStray(start, ops, n)
  {
    if ops != [] {
      var before := ops[..|ops| - 1];
      StraysAreSaid(start, before, n);
      MemoryIsItsHistory(start, before, n);
      hide Safe, DoAll, ByteAfter, LengthAfter, IsTemporary, IsThere;
    }
  }

  lemma SpoilsAsSaid(fs: Fs, start: Fs, before: seq<Op>, op: Op, n: string)
    requires HeldAsSaid(fs, start, before, n)
    ensures Spoils(fs.mem, op, n) <==> DropsBytes(start, before, op, n)
  {
    hide IsThere, IsTemporary, LengthAfter, ByteAfter, CutEnd;
  }

  lemma {:induction false} CutsAreSaid(start: Fs, ops: seq<Op>, n: string)
    requires Safe(start)
    ensures Spoilt(start, ops, n) <==> IsCut(start, ops, n)
  {
    if ops != [] {
      var before := ops[..|ops| - 1];
      CutsAreSaid(start, before, n);
      MemoryIsItsHistory(start, before, n);
      hide HeldAsSaid, Safe, DoAll, Spoils, DropsBytes;
      SpoilsAsSaid(DoAll(start, before), start, before, ops[|ops| - 1], n);
    }
  }

  // ----- every operation is possible

  lemma ShowsAlready(q: Queue, n: string, p: Patch)
    ensures QueueShows(q, q, n, p)
  {
  }

  // At any worker every operation can happen, a write with the buffer as it is
  // for its view and the end of a write with the blocks it touches.
  lemma EveryOperationIsPossible(w: Worker, op: Op) returns (a: Act)
    ensures Allowed(w, a)
    ensures a.op == if op.WriteAt? then op.(view := Held(w.fs.mem, op.name)) else op
  {
    hide Touched, TouchedBlocks, QueueShows, Held;
    if op.Background? && !op.event.Issue? {
      a := QueueAct(w, op.event);
      QueueActs(w, op.event);
    } else {
      var c := if op.WriteAt? then Held(w.fs.mem, op.name) else [];
      a := Act(if op.WriteAt? then op.(view := c) else op, w.fs.queue, map[]);
      ShowsAlready(w.fs.queue, if op.WriteAt? || op.Resize? then op.name else "",
                   if op.WriteAt? then op.patch
                   else if op.Resize? then Cleared(Held(w.fs.mem, op.name), op.length) else Patch(0, []));
    }
  }

  // ----- from the operations to the blocks

  // What is read back from the blocks is the file that the operations say.
  ghost predicate ReadsAs(c: Contents, start: Fs, ops: seq<Op>, n: string) {
    |c| == LengthAfter(start, ops, n) && forall pos: nat :: pos < |c| ==> c[pos] == ByteAfter(start, ops, n, pos)
  }

  lemma HeldReads(fs: Fs, start: Fs, ops: seq<Op>, n: string)
    requires HeldAsSaid(fs, start, ops, n) && n in fs.mem
    ensures ReadsAs(fs.mem[n], start, ops, n)
  {
    hide IsThere, IsTemporary, LengthAfter, ByteAfter;
    assert Held(fs.mem, n) == fs.mem[n];
    assert forall pos: nat :: pos < |fs.mem[n]| ==> fs.mem[n][pos] == ByteOf(fs.mem[n], pos);
  }

  // Whatever is opened, deleted, written and resized and however the queue runs
  // meanwhile, the queue can run on until it has drained; then the blocks hold
  // exactly the files that are there, mirrored and not brought back through a
  // stale handle, and every one that no cut has dropped bytes of reads back,
  // length and bytes, as the operations alone say.
  lemma BlocksAreHistory(w: Worker, acts: seq<Act>, n: string) returns (more: seq<Act>)
    requires Good(w) && AllAllowed(w, acts) && FileAgrees(w, n) && StoredUnless(w.fs, n, false)
    ensures AllAllowed(w, acts + more) && IsRunningOnly(more)
    ensures var end, ops := PerformAll(w, acts + more), Ops(acts);
            && IsDrained(end.fs.queue)
            && (n in end.disk <==> IsThere(w.fs, ops, n) && !IsTemporary(w.fs, ops, n) && !IsStray(w.fs, ops, n))
            && (n in end.disk && !IsCut(w.fs, ops, n) ==>
                  ReadsAs(ReadBack(end.disk[n]), w.fs, ops, n) && CleanTail(end.disk[n]))
  {
    var ops := Ops(acts);
    assert Safe(w.fs);
    more := EveryHistoryDrains(w, acts, n);
    SameMemory(w, acts);
    MemoryIsItsHistory(w.fs, ops, n);
    StraysAreSaid(w.fs, ops, n);
    CutsAreSaid(w.fs, ops, n);
    var s := DoAll(w.fs, ops);
    if n in s.mem {
      HeldReads(s, w.fs, ops, n);
    }
    hide Good, Safe, PerformAll, AllAllowed, Astray, Spoilt, IsStray, IsCut, ReadBack, CleanTail, FileAgrees, Ops,
         DoAll, IsThere, IsTemporary, ReadsAs, LengthAfter, ByteAfter;
  }
}
