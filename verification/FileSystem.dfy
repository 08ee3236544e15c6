// The file system as its callers see it: files in memory, mirrored to the
// store by the operations that opening, deleting, writing and resizing issue.
module FileSystem {
  import FileMirror
  import opened Wrappers
  import opened Coalesce
  import opened QueueRuns

  // The files in memory, the names that are never mirrored, and the queue.
  datatype Fs = Fs(mem: Memory, memoryOnly: set<string>, queue: Queue)

  type Memory = map<string, Contents>

  datatype Op =
    | Open(name: string, create: bool, temporary: bool)  // dN.aY
    | Remove(name: string)                                // dN.dh
    | WriteAt(name: string, patch: Patch, view: Contents) // jn.bg, through a handle
    | Resize(name: string, length: nat)                   // jn.cq, through a handle
    | Background(event: Event)                            // the queue running an item

  // What is written to or resized in memory: a missing file counts as empty.
  function Held(mem: Memory, n: string): Contents {
    if n in mem then mem[n] else []
  }

  function Remembered(mem: Memory, op: Op): Memory {
    match op
    case Open(n, create, _) => if n in mem || !create then mem else mem[n := []]
    case Remove(n) => mem - {n}
    case WriteAt(n, p, _) => mem[n := Apply(Held(mem, n), p)]
    case Resize(n, length) => mem[n := Resized(Held(mem, n), length)]
    case Background(_) => mem
  }

  function Unmirrored(mem: Memory, only: set<string>, op: Op): set<string> {
    match op
    case Open(n, create, temporary) => if n !in mem && create && temporary then only + {n} else only
    case Remove(n) => only - {n}
    case _ => only
  }

  // The item an operation has the queue carry out, if any.
  function Issues(mem: Memory, only: set<string>, op: Op): Option<Item> {
    match op
    case Open(n, create, temporary) => if n in mem || !create || temporary then None else Some(Create(n))
    case Remove(n) => if n in only then None else Some(Delete(n))
    case WriteAt(n, p, v) => if n in only then None else Some(Write(n, v, [p]))
    case Resize(n, length) => if n in only then None else Some(Barrier(Resizing(n, length)))
    case Background(_) => None
  }

  function Do(fs: Fs, op: Op): Fs {
    var item := Issues(fs.mem, fs.memoryOnly, op);
    var queue := if item.Some? then Step(fs.queue, Issue(item.value))
                 else if op.Background? && !op.event.Issue? then Step(fs.queue, op.event)
                 else fs.queue;
    Fs(Remembered(fs.mem, op), Unmirrored(fs.mem, fs.memoryOnly, op), queue)
  }

  function DoAll(fs: Fs, ops: seq<Op>): Fs {
    if ops == [] then fs else Do(DoAll(fs, ops[..|ops| - 1]), ops[|ops| - 1])
  }

  // The part of memory that is mirrored.
  function Persistent(fs: Fs): Store {
    fs.mem - fs.memoryOnly
  }

  // ----- any history at all, operations through stale handles included

  // What is stored or will be is in memory, and every pending create will find
  // no file there.
  ghost predicate Safe(fs: Fs) {
    && fs.memoryOnly <= fs.mem.Keys
    && AllSensible(fs.queue.waiting, AfterRunning(fs.queue))
    && Settled(fs.queue).Keys <= fs.mem.Keys - fs.memoryOnly
  }

  lemma RunKeys(item: Item, st: Store)
    requires item.Barrier? ==> item.job.Resizing?
    ensures Run(item, st).Keys == if item.Create? then st.Keys + {item.name}
                                  else if item.Delete? then st.Keys - {item.name} else st.Keys
  {
    hide ApplyAll, Resized;
  }

  lemma IssuedIsNamed(mem: Memory, only: set<string>, op: Op)
    ensures var item := Issues(mem, only, op);
            item.Some? ==>
              && (item.value.Create? <==> op.Open?) && (item.value.Delete? <==> op.Remove?)
              && (item.value.Write? <==> op.WriteAt?)
              && (item.value.Barrier? ==> op.Resize? && item.value.job == Resizing(op.name, op.length))
              && (!item.value.Barrier? ==> item.value.name == op.name)
              && (op.Open? ==> op.name !in mem && op.create && !op.temporary)
              && (!op.Open? ==> op.name !in only)
  {
  }

  // The queue after an operation: what it will settle on changes by what the
  // operation issues, and nothing else.
  lemma DoSettles(fs: Fs, op: Op)
    requires Safe(fs)
    ensures var item, q := Issues(fs.mem, fs.memoryOnly, op), Do(fs, op).queue;
            && AllSensible(q.waiting, AfterRunning(q))
            && Settled(q) == if item.Some? then Run(item.value, Settled(fs.queue)) else Settled(fs.queue)
  {
    IssuedIsNamed(fs.mem, fs.memoryOnly, op);
    hide Run, AllSensible, Step, Issues, RunAll, Remembered, Unmirrored;
    var item := Issues(fs.mem, fs.memoryOnly, op);
    if item.Some? {
      StepSettles(fs.queue, Issue(item.value), Settled(fs.queue));
    } else if op.Background? && !op.event.Issue? {
      StepSettles(fs.queue, op.event, Settled(fs.queue));
    }
  }

  lemma DoKeepsSafe(fs: Fs, op: Op)
    requires Safe(fs)
    ensures Safe(Do(fs, op))
  {
    DoSettles(fs, op);
    IssuedIsNamed(fs.mem, fs.memoryOnly, op);
    var item := Issues(fs.mem, fs.memoryOnly, op);
    if item.Some? {
      RunKeys(item.value, Settled(fs.queue));
    }
    hide AllSensible, Settled, AfterRunning, Step, Run, Apply, Resized;
  }

  lemma {:induction false} HistoryKeepsSafe(fs: Fs, ops: seq<Op>)
    requires Safe(fs)
    ensures Safe(DoAll(fs, ops))
  {
    if ops != [] {
      HistoryKeepsSafe(fs, ops[..|ops| - 1]);
      hide Safe, Do;
      DoKeepsSafe(DoAll(fs, ops[..|ops| - 1]), ops[|ops| - 1]);
    }
  }

  // Everything a history has the queue carry out, in order.
  function AllIssued(fs: Fs, ops: seq<Op>): seq<Item> {
    if ops == [] then []
    else
      var before := DoAll(fs, ops[..|ops| - 1]);
      var item := Issues(before.mem, before.memoryOnly, ops[|ops| - 1]);
      AllIssued(fs, ops[..|ops| - 1]) + if item.Some? then [item.value] else []
  }

  // After any history the queue settles on what running everything issued, one
  // by one with nothing combined, gives: combining never shows.
  lemma {:induction false} CombiningIsAlwaysSound(fs: Fs, ops: seq<Op>)
    requires Safe(fs)
    ensures Settled(DoAll(fs, ops).queue) == RunAll(AllIssued(fs, ops), Settled(fs.queue))
  {
    if ops != [] {
      var before, op := ops[..|ops| - 1], ops[|ops| - 1];
      var b := DoAll(fs, before);
      CombiningIsAlwaysSound(fs, before);
      HistoryKeepsSafe(fs, before);
      DoSettles(b, op);
      var item := Issues(b.mem, b.memoryOnly, op);
      if item.Some? {
        RunSnoc(AllIssued(fs, before), item.value, Settled(fs.queue));
      } else {
        assert AllIssued(fs, before) + [] == AllIssued(fs, before);
      }
      hide Safe, Do, Run, RunAll, Settled, Issues;
    }
  }

  // In particular no file survives the deletion of its own pending create.
  lemma NothingSurvives(fs: Fs, ops: seq<Op>, n: string)
    requires Safe(fs)
    ensures var q := DoAll(fs, ops).queue;
            !Survives(q.waiting, |q.waiting|, n, AfterRunning(q))
  {
    HistoryKeepsSafe(fs, ops);
    var q := DoAll(fs, ops).queue;
    SensibleNeverSurvives(q.waiting, |q.waiting|, n, AfterRunning(q));
  }

  // ----- which files the store settles on

  // A write or a resizing that finds the file missing: its handle is stale.
  predicate IsStale(mem: Memory, op: Op, n: string) {
    (op.WriteAt? || op.Resize?) && op.name == n && n !in mem
  }

  predicate Removes(op: Op, n: string) { op.Remove? && op.name == n }

  // The file was brought back through a stale handle and not removed since.
  predicate Astray(fs: Fs, ops: seq<Op>, n: string) {
    if ops == [] then false
    else
      var before, op := ops[..|ops| - 1], ops[|ops| - 1];
      !Removes(op, n) && (Astray(fs, before, n) || IsStale(DoAll(fs, before).mem, op, n))
  }

  // The file is on its way to the store exactly when it is in memory, unless it
  // is astray, which it is in memory only.
  ghost predicate StoredUnless(fs: Fs, n: string, astray: bool) {
    && (astray ==> n in Persistent(fs))
    && (n in Settled(fs.queue) <==> n in Persistent(fs) && !astray)
  }

  lemma DoKeepsStored(fs: Fs, op: Op, n: string, astray: bool)
    requires Safe(fs) && StoredUnless(fs, n, astray)
    ensures StoredUnless(Do(fs, op), n, !Removes(op, n) && (astray || IsStale(fs.mem, op, n)))
  {
    DoSettles(fs, op);
    IssuedIsNamed(fs.mem, fs.memoryOnly, op);
    var item := Issues(fs.mem, fs.memoryOnly, op);
    if item.Some? {
      RunKeys(item.value, Settled(fs.queue));
    }
    hide AllSensible, Settled, AfterRunning, Step, Run, Apply, Resized;
  }

  // After any history the store settles on exactly the persistent files that are
  // not astray.
  lemma {:induction false} StoredExactly(fs: Fs, ops: seq<Op>, n: string)
    requires Safe(fs) && StoredUnless(fs, n, false)
    ensures StoredUnless(DoAll(fs, ops), n, Astray(fs, ops, n))
  {
    if ops != [] {
      var before := ops[..|ops| - 1];
      StoredExactly(fs, before, n);
      HistoryKeepsSafe(fs, before);
      hide Safe, Do, StoredUnless;
      DoKeepsStored(DoAll(fs, before), ops[|ops| - 1], n, Astray(fs, before, n));
    }
  }

  // A write reaches the store exactly when its file is in memory and not astray.
  lemma WriteReachesStoreExactly(fs: Fs, ops: seq<Op>, n: string, p: Patch, v: Contents)
    requires Safe(fs) && StoredUnless(fs, n, false)
    ensures var before := DoAll(fs, ops);
            var st, after := Settled(before.queue), Settled(Do(before, WriteAt(n, p, v)).queue);
            n !in before.memoryOnly ==>
              if n in before.mem && !Astray(fs, ops, n) then n in st && after == st[n := Apply(st[n], p)]
              else after == st && n !in st
  {
    StoredExactly(fs, ops, n);
    HistoryKeepsSafe(fs, ops);
    var before := DoAll(fs, ops);
    DoSettles(before, WriteAt(n, p, v));
    if n in Settled(before.queue) {
      OnePatch(Settled(before.queue)[n], p);
    }
    hide Safe, DoAll, Do, Settled, Apply, ApplyAll;
  }

  lemma OnePatch(c: Contents, p: Patch)
    ensures ApplyAll(c, [p]) == Apply(c, p)
  {
    assert ApplyTo(c, [p], 1) == Apply(ApplyTo(c, [p], 0), p);
  }

  // ----- what they hold

  // Shrinking drops bytes of the last block that the store keeps, which contents
  // do not show and FileWorker follows; it matters unless they are zeros.
  ghost predicate Spoils(mem: Memory, op: Op, n: string) {
    op.Resize? && op.name == n && n in mem && !FileMirror.CutsZeros(mem[n], op.length)
  }

  // The file was cut like that and not removed since.
  ghost predicate Spoilt(fs: Fs, ops: seq<Op>, n: string) {
    if ops == [] then false
    else
      var before, op := ops[..|ops| - 1], ops[|ops| - 1];
      !Removes(op, n) && (Spoilt(fs, before, n) || Spoils(DoAll(fs, before).mem, op, n))
  }

  // The store settles on what memory holds.
  ghost predicate Mirrored(fs: Fs, n: string) {
    n in Persistent(fs) ==> n in Settled(fs.queue) && Settled(fs.queue)[n] == fs.mem[n]
  }

  lemma DoKeepsMirrored(fs: Fs, op: Op, n: string)
    requires Safe(fs) && Mirrored(fs, n) && !IsStale(fs.mem, op, n) && !Spoils(fs.mem, op, n)
    ensures Mirrored(Do(fs, op), n)
  {
    DoSettles(fs, op);
    if op.WriteAt? {
      OnePatch(Held(fs.mem, n), op.patch);
    }
    hide AllSensible, Settled, AfterRunning, Step, ApplyAll, Apply, Resized;
  }

  lemma {:induction false} MirroredUnless(fs: Fs, ops: seq<Op>, n: string)
    requires Safe(fs) && Mirrored(fs, n)
    ensures !Astray(fs, ops, n) && !Spoilt(fs, ops, n) ==> Mirrored(DoAll(fs, ops), n)
  {
    if ops != [] {
      var before, op := ops[..|ops| - 1], ops[|ops| - 1];
      if Removes(op, n) {
        RemoveForgets(DoAll(fs, before), n);
      } else if !Astray(fs, ops, n) && !Spoilt(fs, ops, n) {
        MirroredUnless(fs, before, n);
        HistoryKeepsSafe(fs, before);
        hide Safe, Do, Mirrored;
        DoKeepsMirrored(DoAll(fs, before), op, n);
      }
    }
  }

  lemma RemoveForgets(fs: Fs, n: string)
    ensures n !in Do(fs, Remove(n)).mem
  {
  }

  // After any history, file by file: the drained store holds exactly the
  // persistent files that are not astray, and of those that were not spoilt
  // either, what memory holds.
  lemma DrainedStoreIsMemory(fs: Fs, ops: seq<Op>, n: string)
    requires Safe(fs) && Mirrored(fs, n)
    ensures var end := DoAll(fs, ops);
            end.queue.running.None? && end.queue.waiting == [] ==>
              && (n in end.queue.store <==> n in Persistent(end) && !Astray(fs, ops, n))
              && (n in end.queue.store && !Spoilt(fs, ops, n) ==> end.queue.store[n] == end.mem[n])
  {
    assert StoredUnless(fs, n, false);
    StoredExactly(fs, ops, n);
    MirroredUnless(fs, ops, n);
    hide Safe, DoAll, Astray, Spoilt;
  }

  // ----- stale handles at work

  function Empty(): Fs { Fs(map[], {}, Queue(map[], None, [])) }

  lemma EmptyIsSafe(n: string)
    ensures Safe(Empty()) && Mirrored(Empty(), n) && StoredUnless(Empty(), n, false)
  {
  }

  lemma DoSnoc(fs: Fs, ops: seq<Op>, op: Op, n: string)
    ensures DoAll(fs, ops + [op]) == Do(DoAll(fs, ops), op)
    ensures Astray(fs, ops + [op], n) <==> !Removes(op, n) && (Astray(fs, ops, n) || IsStale(DoAll(fs, ops).mem, op, n))
  {
    assert (ops + [op])[..|ops|] == ops;
    hide Do;
  }

  // Create, delete, and write twice through the old handle: the first write
  // brings the file back in memory only, and the second, which finds it there,
  // is missed by the store like the first.
  lemma StaleHandleWitness(p: Patch, v: Contents)
    ensures var ops := [Open("f", true, false), Remove("f"), WriteAt("f", p, v)];
            var mid, end := DoAll(Empty(), ops), DoAll(Empty(), ops + [WriteAt("f", p, v)]);
            && Safe(Empty()) && Astray(Empty(), ops, "f")
            && "f" in Persistent(mid) && "f" !in Settled(mid.queue)
            && "f" in Persistent(end) && "f" !in Settled(end.queue)
  {
    var open, remove, write := Op.Open("f", true, false), Remove("f"), WriteAt("f", p, v);
    var first, ops := [open, remove], [open, remove, write];
    EmptyIsSafe("f");
    DoSnoc(Empty(), [open], remove, "f");
    DoSnoc(Empty(), first, write, "f");
    DoSnoc(Empty(), ops, write, "f");
    assert [open] + [remove] == first && first + [write] == ops;
    RemoveForgets(DoAll(Empty(), [open]), "f");
    StoredExactly(Empty(), ops, "f");
    StoredExactly(Empty(), ops + [write], "f");
    hide DoAll, Do, Safe, Settled, Mirrored;
  }
}
