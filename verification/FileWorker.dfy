// All the files together: the combined queue, live views and 4096-byte blocks.
// Whatever is opened, deleted, written and resized, and however the queue runs
// meanwhile, once it has drained the blocks of a file read back as memory, unless
// that file itself was brought back through a stale handle, or cut so that bytes
// other than zeros were left in its last block.
module FileWorker {
  import opened Wrappers
  import opened Coalesce
  import opened QueueRuns
  import opened FileSystem
  import opened BlockStore
  import opened FileMirror

  type Disk = map<string, StoredFile>

  // The files as callers see them, and the blocks that are stored.
  datatype Worker = Worker(fs: Fs, disk: Disk)

  // ----- what the pending work makes of one file

  // A stored file and the work on it that is still to come, if it is there.
  datatype Track = Absent | Present(file: StoredFile, works: seq<Work>)

  function NoFile(): StoredFile { StoredFile(0, map[]) }

  predicate Concerns(item: Item, n: string) {
    if item.Barrier? then item.job.Resizing? && item.job.file == n else item.name == n
  }

  function Follow(t: Track, item: Item, n: string): Track {
    if !Concerns(item, n) then t
    else match item
      case Create(_) => if t.Absent? then Present(NoFile(), []) else t
      case Write(_, v, ps) => if t.Absent? then t else t.(works := t.works + [Work(v, ps)])
      case Delete(_) => Absent
      case Barrier(job) => if t.Absent? then t else t.(works := t.works + [Cut(job.length)])
  }

  function FollowTo(q: seq<Item>, k: nat, t: Track, n: string): Track
    requires k <= |q|
  {
    if k == 0 then t else Follow(FollowTo(q, k - 1, t, n), q[k - 1], n)
  }

  function FollowAll(q: seq<Item>, t: Track, n: string): Track {
    FollowTo(q, |q|, t, n)
  }

  function OnDisk(disk: Disk, n: string): Track {
    if n in disk then Present(disk[n], []) else Absent
  }

  // The file once what runs now has run.
  function Running(w: Worker, n: string): Track {
    var t := OnDisk(w.disk, n);
    if w.fs.queue.running.Some? then Follow(t, w.fs.queue.running.value, n) else t
  }

  function TrackOf(w: Worker, n: string): Track {
    FollowAll(w.fs.queue.waiting, Running(w, n), n)
  }

  // ----- the steps

  // dg.U, b6, ed.U and bf: an item reaches the blocks.
  function RunOnDisk(item: Item, disk: Disk, blocks: Blocks): Disk {
    match item
    case Create(n) => if n in disk then disk else disk[n := NoFile()]
    case Write(n, v, ps) =>
      if n in disk then disk[n := Flush(disk[n], blocks, Longer(|v|, ps, |ps|))] else disk
    case Delete(n) => disk - {n}
    case Barrier(job) =>
      if job.Resizing? && job.file in disk then disk[job.file := Truncate(disk[job.file], job.length)] else disk
  }

  // A file operation or a step of the queue; while memory is written to, the
  // views of pending writes may or may not come to show it.
  datatype Act = Act(op: Op, shown: Queue, blocks: Blocks)

  function Perform(w: Worker, a: Act): Worker {
    var running := w.fs.queue.running;
    var disk := if a.op == Background(Finish) && running.Some? then RunOnDisk(running.value, w.disk, a.blocks)
                else w.disk;
    Worker(Do(w.fs.(queue := a.shown), a.op), disk)
  }

  // The item shows the same view, or one in which some of the patch shows.
  ghost predicate Shows(before: Item, after: Item, n: string, p: Patch) {
    || after == before
    || (before.Write? && after.Write? && before.name == n && after.name == n && after.patches == before.patches
        && MayShow(before.view, after.view, p))
  }

  ghost predicate AllShow(before: seq<Item>, after: seq<Item>, n: string, p: Patch) {
    |before| == |after| && forall i :: 0 <= i < |before| ==> Shows(before[i], after[i], n, p)
  }

  ghost predicate QueueShows(before: Queue, after: Queue, n: string, p: Patch) {
    && after.store == before.store && AllShow(before.waiting, after.waiting, n, p)
    && after.running.Some? == before.running.Some?
    && (before.running.Some? ==> Shows(before.running.value, after.running.value, n, p))
  }

  // Views show what is written to the buffer, and the blocks put are those the
  // write's patches touch.
  ghost predicate Allowed(w: Worker, a: Act) {
    && (match a.op
        case WriteAt(n, p, v) => QueueShows(w.fs.queue, a.shown, n, p) && MayShow(Held(w.fs.mem, n), v, p)
        case Resize(n, c) => QueueShows(w.fs.queue, a.shown, n, Cleared(Held(w.fs.mem, n), c))
        case _ => a.shown == w.fs.queue)
    && (a.op == Background(Finish) && w.fs.queue.running.Some? && w.fs.queue.running.value.Write? ==>
          Touched(a.blocks, w.fs.queue.running.value.view, w.fs.queue.running.value.patches))
  }

  function PerformAll(w: Worker, acts: seq<Act>): Worker {
    if acts == [] then w else Perform(PerformAll(w, acts[..|acts| - 1]), acts[|acts| - 1])
  }

  ghost predicate AllAllowed(w: Worker, acts: seq<Act>) {
    acts == [] ||
    (AllAllowed(w, acts[..|acts| - 1]) && Allowed(PerformAll(w, acts[..|acts| - 1]), acts[|acts| - 1]))
  }

  function Ops(acts: seq<Act>): (ops: seq<Op>)
    ensures |ops| == |acts| && forall i :: 0 <= i < |acts| ==> ops[i] == acts[i].op
  {
    seq(|acts|, i requires 0 <= i < |acts| => acts[i].op)
  }

  // ----- the agreement

  // The only barriers pending are resizings.
  predicate Known(item: Item) { item.Barrier? ==> item.job.Resizing? }

  ghost predicate AllKnown(q: seq<Item>) {
    forall i :: 0 <= i < |q| ==> Known(q[i])
  }

  ghost predicate QueueKnown(q: Queue) {
    AllKnown(q.waiting) && (q.running.Some? ==> Known(q.running.value))
  }

  ghost predicate DiskFits(disk: Disk, st: Store) {
    disk.Keys == st.Keys && forall n :: n in disk ==> Sound(disk[n])
  }

  // What holds whatever is done to the files.
  ghost predicate Good(w: Worker) {
    Safe(w.fs) && QueueKnown(w.fs.queue) && DiskFits(w.disk, w.fs.queue.store)
  }

  function LengthBefore(n: nat, ws: seq<Work>, i: nat): nat
    requires i <= |ws|
  {
    if i == 0 then n else LengthOf(ws[i - 1])
  }

  // The work follows on a file of this length: no write makes it shorter.
  predicate Fits(w: Work, n: nat) { w.Work? ==> n <= |w.base| }

  ghost predicate Chained(n: nat, ws: seq<Work>) {
    forall i :: 0 <= i < |ws| ==> Fits(ws[i], LengthBefore(n, ws, i))
  }

  ghost predicate TrackAgrees(m: Contents, t: Track) {
    t.Present? && Agree(m, t.file, t.works) && Chained(t.file.length, t.works) && TailClean(t.file)
  }

  // The pending work laid over the file's blocks is the file in memory.
  ghost predicate FileAgrees(w: Worker, n: string) {
    n in Persistent(w.fs) ==> TrackAgrees(w.fs.mem[n], TrackOf(w, n))
  }

  // ----- following a queue

  lemma {:induction false} FollowPrefix(q: seq<Item>, r: seq<Item>, k: nat, t: Track, n: string)
    requires k <= |q| && k <= |r| && forall i :: 0 <= i < k ==> q[i] == r[i]
    ensures FollowTo(q, k, t, n) == FollowTo(r, k, t, n)
  {
    hide Follow;
    if k > 0 { FollowPrefix(q, r, k - 1, t, n); }
  }

  lemma FollowSnoc(q: seq<Item>, item: Item, t: Track, n: string)
    ensures FollowAll(q + [item], t, n) == Follow(FollowAll(q, t, n), item, n)
  {
    hide Follow;
    FollowPrefix(q + [item], q, |q|, t, n);
  }

  lemma FollowTake(q: seq<Item>, k: nat, t: Track, n: string)
    requires k <= |q|
    ensures FollowAll(q[..k], t, n) == FollowTo(q, k, t, n)
  {
    hide Follow;
    FollowPrefix(q[..k], q, k, t, n);
  }

  lemma {:induction false} FollowShift(q: seq<Item>, k: nat, t: Track, n: string)
    requires k < |q|
    ensures FollowTo(q, k + 1, t, n) == FollowTo(q[1..], k, Follow(t, q[0], n), n)
  {
    hide Follow;
    if k == 0 {
      assert FollowTo(q, 1, t, n) == Follow(FollowTo(q, 0, t, n), q[0], n);
    } else {
      FollowShift(q, k - 1, t, n);
    }
  }

  // A file is there in the blocks exactly when it is there in the contents.
  lemma {:induction false} PresentExactly(q: seq<Item>, k: nat, t: Track, n: string, st: Store)
    requires k <= |q| && AllKnown(q) && (t.Present? <==> n in st)
    ensures FollowTo(q, k, t, n).Present? <==> n in RunTo(q, k, st)
  {
    hide Run, Follow, Known;
    if k > 0 {
      PresentExactly(q, k - 1, t, n, st);
      PresentStep(FollowTo(q, k - 1, t, n), q[k - 1], n, RunTo(q, k - 1, st));
    }
  }

  lemma PresentStep(t: Track, item: Item, n: string, st: Store)
    requires Known(item) && (t.Present? <==> n in st)
    ensures Follow(t, item, n).Present? <==> n in Run(item, st)
  {
    hide ApplyAll, Resized;
  }

  lemma PresentWhenSettled(w: Worker, n: string)
    requires Good(w)
    ensures TrackOf(w, n).Present? <==> n in Settled(w.fs.queue)
  {
    hide Run, Follow, AllKnown, Known, Sound, Safe;
    var q := w.fs.queue;
    if q.running.Some? {
      PresentStep(OnDisk(w.disk, n), q.running.value, n, q.store);
    }
    PresentExactly(q.waiting, |q.waiting|, Running(w, n), n, AfterRunning(q));
  }

  // ----- issuing

  // Purging one file's work leaves what becomes of the others.
  lemma {:induction false} PurgeOthers(q: seq<Item>, k: nat, n: string, t: Track, m: string)
    requires k <= |q| && m != n
    ensures FollowAll(Purge(q, k, n).0, t, m) == FollowTo(q, k, t, m)
  {
    if k > 0 {
      var last := q[k - 1];
      PurgeOthers(q, k - 1, n, t, m);
      FollowSnoc(Purge(q, k - 1, n).0, last, t, m);
      FollowTake(q, k, t, m);
      FollowTake(q, k - 1, t, m);
    }
  }

  lemma {:induction false} PurgeKnown(q: seq<Item>, k: nat, n: string)
    requires k <= |q| && AllKnown(q)
    ensures AllKnown(Purge(q, k, n).0)
  {
    if k > 0 { PurgeKnown(q, k - 1, n); }
  }

  lemma EnqueueKnown(q: seq<Item>, item: Item)
    requires AllKnown(q) && Known(item)
    ensures AllKnown(Enqueue(q, item))
  {
    hide Purge, FindWrite;
    if item.Delete? {
      PurgeKnown(q, |q|, item.name);
    }
  }

  // Issuing an operation on one file leaves what becomes of the others.
  lemma EnqueueOthers(q: seq<Item>, item: Item, t: Track, m: string)
    requires !Concerns(item, m)
    ensures FollowAll(Enqueue(q, item), t, m) == FollowAll(q, t, m)
  {
    hide Purge, FindWrite, FollowAll;
    match item
    case Create(n) => FollowSnoc(q, item, t, m);
    case Barrier(_) => FollowSnoc(q, item, t, m);
    case Delete(n) =>
      PurgeOthersAll(q, n, t, m);
      FollowSnoc(Purge(q, |q|, n).0, item, t, m);
    case Write(n, v, ps) =>
      FollowSnoc(q, item, t, m);
      var f := FindWrite(q, |q|, n);
      if f.Some? {
        JoinOthers(q, f.value, ps, t, m);
      }
  }

  lemma PurgeOthersAll(q: seq<Item>, n: string, t: Track, m: string)
    requires m != n
    ensures FollowAll(Purge(q, |q|, n).0, t, m) == FollowAll(q, t, m)
  {
    PurgeOthers(q, |q|, n, t, m);
  }

  lemma {:induction false} JoinOthersTo(q: seq<Item>, i: nat, ps: seq<Patch>, k: nat, t: Track, m: string)
    requires i < |q| && k <= |q| && q[i].Write? && q[i].name != m
    ensures FollowTo(JoinInto(q, i, ps), k, t, m) == FollowTo(q, k, t, m)
  {
    if k > 0 { JoinOthersTo(q, i, ps, k - 1, t, m); }
  }

  lemma JoinOthers(q: seq<Item>, i: nat, ps: seq<Patch>, t: Track, m: string)
    requires i < |q| && q[i].Write? && q[i].name != m
    ensures FollowAll(JoinInto(q, i, ps), t, m) == FollowAll(q, t, m)
  {
    JoinOthersTo(q, i, ps, |q|, t, m);
  }

  // A patch joined into the file's last pending write.
  lemma {:induction false} JoinOwn(q: seq<Item>, i: nat, p: Patch, k: nat, t: Track, n: string)
    requires i < k <= |q| && q[i].Write? && q[i].name == n
    requires forall j :: i < j < k ==> !q[j].Barrier? && q[j].name != n
    requires FollowTo(q, k, t, n).Present?
    ensures var a := FollowTo(q, k, t, n);
            a.works != [] && a.works[|a.works| - 1].Work?
            && FollowTo(JoinInto(q, i, [p]), k, t, n) == Present(a.file, JoinLast(a.works, p))
  {
    if k == i + 1 {
      FollowPrefix(q, JoinInto(q, i, [p]), i, t, n);
      var works := FollowTo(q, i, t, n).works;
      assert JoinLast(works + [Work(q[i].view, q[i].patches)], p) == works + [Work(q[i].view, q[i].patches + [p])];
    } else {
      JoinOwn(q, i, p, k - 1, t, n);
    }
  }

  // ----- views that come to show a patch

  ghost predicate TrackShows(a: Track, b: Track, p: Patch) {
    if a.Absent? then b.Absent? else b.Present? && b.file == a.file && Refreshed(a.works, b.works, p)
  }

  lemma ShowsStep(a: Track, b: Track, before: Item, after: Item, n: string, p: Patch)
    requires TrackShows(a, b, p) && Shows(before, after, n, p)
    ensures TrackShows(Follow(a, before, n), Follow(b, after, n), p)
  {
    hide MayShow;
    if before.Write? {
      MayShowItself(before.view, p);
    }
  }

  lemma MayShowItself(c: Contents, p: Patch)
    ensures MayShow(c, c, p)
  {
  }

  lemma {:induction false} ShownOwn(q: seq<Item>, r: seq<Item>, k: nat, a: Track, b: Track, n: string, p: Patch)
    requires AllShow(q, r, n, p) && k <= |q| && TrackShows(a, b, p)
    ensures TrackShows(FollowTo(q, k, a, n), FollowTo(r, k, b, n), p)
  {
    hide Follow, Shows, TrackShows;
    if k > 0 {
      ShownOwn(q, r, k - 1, a, b, n, p);
      ShowsStep(FollowTo(q, k - 1, a, n), FollowTo(r, k - 1, b, n), q[k - 1], r[k - 1], n, p);
    }
  }

  lemma {:induction false} ShownOthers(q: seq<Item>, r: seq<Item>, k: nat, t: Track, n: string, p: Patch, m: string)
    requires AllShow(q, r, n, p) && k <= |q| && m != n
    ensures FollowTo(q, k, t, m) == FollowTo(r, k, t, m)
  {
    hide MayShow;
    if k > 0 { ShownOthers(q, r, k - 1, t, n, p, m); }
  }

  lemma {:induction false} ShownRuns(q: seq<Item>, r: seq<Item>, k: nat, n: string, p: Patch, st: Store)
    requires AllShow(q, r, n, p) && k <= |q|
    ensures RunTo(q, k, st) == RunTo(r, k, st)
  {
    hide MayShow, ApplyAll;
    if k > 0 { ShownRuns(q, r, k - 1, n, p, st); }
  }

  // What views show changes neither what the queue settles on nor its kind.
  lemma ShownSettles(fs: Fs, shown: Queue, n: string, p: Patch)
    requires QueueShows(fs.queue, shown, n, p) && Safe(fs) && QueueKnown(fs.queue)
    ensures Safe(fs.(queue := shown)) && QueueKnown(shown) && Settled(shown) == Settled(fs.queue)
  {
    hide MayShow, ApplyAll, RunTo, RunJob;
    var q, r, s := fs.queue.waiting, shown.waiting, AfterRunning(fs.queue);
    assert AfterRunning(shown) == s;
    forall k | 0 <= k <= |q|
      ensures RunTo(q, k, s) == RunTo(r, k, s)
    {
      ShownRuns(q, r, k, n, p, s);
    }
    assert forall k :: 0 <= k < |q| ==> Sensible(q[k], RunTo(q, k, s)) == Sensible(r[k], RunTo(r, k, s));
  }

  lemma ShownWorker(w: Worker, shown: Queue, n: string, p: Patch)
    requires QueueShows(w.fs.queue, shown, n, p)
    ensures TrackShows(TrackOf(w, n), TrackOf(Worker(w.fs.(queue := shown), w.disk), n), p)
    ensures forall m :: m != n ==> TrackOf(Worker(w.fs.(queue := shown), w.disk), m) == TrackOf(w, m)
  {
    var q, w' := w.fs.queue, Worker(w.fs.(queue := shown), w.disk);
    var t := OnDisk(w.disk, n);
    assert Refreshed([], [], p);
    hide Follow, Shows;
    if q.running.Some? {
      ShowsStep(t, t, q.running.value, shown.running.value, n, p);
    }
    ShownOwn(q.waiting, shown.waiting, |q.waiting|, Running(w, n), Running(w', n), n, p);
    forall m | m != n
      ensures TrackOf(w', m) == TrackOf(w, m)
    {
      if q.running.Some? {
        ShowsOther(OnDisk(w.disk, m), q.running.value, shown.running.value, n, p, m);
      }
      ShownOthers(q.waiting, shown.waiting, |q.waiting|, Running(w, m), n, p, m);
    }
  }

  lemma ShowsOther(t: Track, before: Item, after: Item, n: string, p: Patch, m: string)
    requires Shows(before, after, n, p) && m != n
    ensures Follow(t, before, m) == Follow(t, after, m)
  {
  }

  // ----- the queue runs

  lemma StartTracks(w: Worker, a: Act, n: string)
    requires a.op == Background(Start) && a.shown == w.fs.queue
    ensures TrackOf(Perform(w, a), n) == TrackOf(w, n)
  {
    hide Follow;
    var q := w.fs.queue;
    if q.running.None? && q.waiting != [] {
      FollowShift(q.waiting, |q.waiting| - 1, OnDisk(w.disk, n), n);
    }
  }

  // The same later work after a first one has run, or with it still to come.
  ghost predicate OneAhead(a: Track, b: Track, f: StoredFile, g: StoredFile, first: Work) {
    a == b || (a.Present? && b.Present? && a.file == f && b.file == g && a.works == [first] + b.works)
  }

  lemma {:induction false} FollowAhead(q: seq<Item>, k: nat, f: StoredFile, g: StoredFile, first: Work, n: string)
    requires k <= |q|
    ensures OneAhead(FollowTo(q, k, Present(f, [first]), n), FollowTo(q, k, Present(g, []), n), f, g, first)
  {
    if k > 0 {
      FollowAhead(q, k - 1, f, g, first, n);
      var a, b := FollowTo(q, k - 1, Present(f, [first]), n), FollowTo(q, k - 1, Present(g, []), n);
      var item := q[k - 1];
      if a != b && Concerns(item, n) && (item.Write? || item.Barrier?) {
        var more := [if item.Write? then Work(item.view, item.patches) else Cut(item.job.length)];
        assert ([first] + b.works) + more == [first] + (b.works + more);
      }
    }
  }

  // The first work has run on an agreeing file, with this result.
  lemma FirstRuns(m: Contents, q: seq<Item>, f: StoredFile, g: StoredFile, first: Work, n: string)
    requires TrackAgrees(m, FollowAll(q, Present(f, [first]), n))
    requires forall ws :: TailClean(f) && Agree(m, f, [first] + ws) ==> Agree(m, g, ws)
    requires TailClean(f) && Fits(first, f.length) ==> TailClean(g) && g.length == LengthOf(first)
    ensures TrackAgrees(m, FollowAll(q, Present(g, []), n))
  {
    hide Agree, FollowTo, TailClean, Fits;
    var a, b := FollowAll(q, Present(f, [first]), n), FollowAll(q, Present(g, []), n);
    FollowAhead(q, |q|, f, g, first, n);
    if a != b {
      ChainedTail(f.length, a.works);
      assert a.works[0] == first && a.works[1..] == b.works;
      assert Agree(m, f, [first] + b.works);
    }
  }

  lemma ChainedTail(n: nat, ws: seq<Work>)
    requires Chained(n, ws) && ws != []
    ensures Fits(ws[0], n) && Chained(LengthOf(ws[0]), ws[1..])
  {
    hide LengthOf, Fits;
    assert Fits(ws[0], LengthBefore(n, ws, 0));
    forall i | 0 <= i < |ws[1..]|
      ensures Fits(ws[1..][i], LengthBefore(LengthOf(ws[0]), ws[1..], i))
    {
      assert Fits(ws[i + 1], LengthBefore(n, ws, i + 1));
    }
  }

  lemma ChainedSnoc(n: nat, ws: seq<Work>, w: Work)
    requires Chained(n, ws) && Fits(w, LengthBefore(n, ws, |ws|))
    ensures Chained(n, ws + [w])
  {
    hide LengthOf, Fits;
    var us := ws + [w];
    forall i | 0 <= i < |us|
      ensures Fits(us[i], LengthBefore(n, us, i))
    {
      assert LengthBefore(n, us, i) == LengthBefore(n, ws, i);
    }
  }

  lemma WriteRuns(m: Contents, q: seq<Item>, f: StoredFile, blocks: Blocks, first: Work, n: string)
    requires first.Work? && Touched(blocks, first.base, first.patches) && Sound(f)
    requires TrackAgrees(m, FollowAll(q, Present(f, [first]), n))
    ensures TrackAgrees(m, FollowAll(q, Present(Flush(f, blocks, LengthOf(first)), []), n))
  {
    var g := Flush(f, blocks, LengthOf(first));
    if TailClean(f) && Fits(first, f.length) {
      FlushedTail(f, blocks, first.base, first.patches);
    }
    hide Agree, Touched, TrackAgrees, TailClean, FollowAll, Sound;
    forall ws | Agree(m, f, [first] + ws)
      ensures Agree(m, g, ws)
    {
      assert ([first] + ws)[1..] == ws;
      RunFirstAgrees(m, f, [first] + ws, blocks);
    }
    FirstRuns(m, q, f, g, first, n);
  }

  lemma ResizingRuns(m: Contents, q: seq<Item>, f: StoredFile, c: nat, n: string)
    requires TrackAgrees(m, FollowAll(q, Present(f, [Cut(c)]), n))
    ensures TrackAgrees(m, FollowAll(q, Present(Truncate(f, c), []), n))
  {
    var g := Truncate(f, c);
    if TailClean(f) {
      TruncatedTail(f, c);
    }
    assert g.length == c;
    hide Agree, TrackAgrees, TailClean, FollowAll, Truncate;
    forall ws | TailClean(f) && Agree(m, f, [Cut(c)] + ws)
      ensures Agree(m, g, ws)
    {
      assert ([Cut(c)] + ws)[1..] == ws;
      CutRuns(m, f, [Cut(c)] + ws);
    }
    FirstRuns(m, q, f, g, Cut(c), n);
  }

  // An item that is no work on this file does to the blocks what following it
  // says.
  lemma FinishOther(disk: Disk, item: Item, blocks: Blocks, n: string)
    requires item.Write? || item.Barrier? ==> !Concerns(item, n) || n !in disk
    ensures OnDisk(RunOnDisk(item, disk, blocks), n) == Follow(OnDisk(disk, n), item, n)
  {
  }

  lemma FinishFile(w: Worker, a: Act, n: string)
    requires Allowed(w, a) && a.op == Background(Finish) && w.fs.queue.running.Some? && FileAgrees(w, n)
    requires n in w.disk ==> Sound(w.disk[n])
    ensures FileAgrees(Perform(w, a), n)
  {
    hide Touched, TrackAgrees, FollowTo, Sound;
    var item, q := w.fs.queue.running.value, w.fs.queue.waiting;
    if n in w.disk && Concerns(item, n) && item.Write? {
      var first := Work(item.view, item.patches);
      assert [] + [first] == [first];
      assert Running(w, n) == Present(w.disk[n], [first]);
      if n in Persistent(w.fs) {
        WriteRuns(w.fs.mem[n], q, w.disk[n], a.blocks, first, n);
      }
    } else if n in w.disk && Concerns(item, n) && item.Barrier? {
      assert [] + [Cut(item.job.length)] == [Cut(item.job.length)];
      assert Running(w, n) == Present(w.disk[n], [Cut(item.job.length)]);
      if n in Persistent(w.fs) {
        ResizingRuns(w.fs.mem[n], q, w.disk[n], item.job.length, n);
      }
    } else {
      FinishOther(w.disk, item, a.blocks, n);
      hide RunOnDisk, Follow, OnDisk;
    }
  }

  lemma FinishDisk(disk: Disk, st: Store, item: Item, blocks: Blocks)
    requires DiskFits(disk, st) && Known(item) && (item.Write? ==> Touched(blocks, item.view, item.patches))
    ensures DiskFits(RunOnDisk(item, disk, blocks), Run(item, st))
  {
    hide ApplyAll, Touched, Resized;
    if item.Write? && item.name in disk {
      FlushedSound(disk[item.name], blocks, Longer(|item.view|, item.patches, |item.patches|), item.view, item.patches);
    } else if item.Barrier? && item.job.file in disk {
      TruncatedSound(disk[item.job.file], item.job.length);
    } else if item.Create? {
      NoFileAgrees();
    }
    hide Sound, Truncate;
  }

  lemma NoFileAgrees()
    ensures Sound(NoFile()) && TrackAgrees([], Present(NoFile(), []))
  {
  }

  // ----- files are opened, deleted, written and resized

  lemma IssueTracks(w: Worker, item: Item, fs': Fs, n: string)
    requires fs'.queue == Step(w.fs.queue, Issue(item))
    ensures !Concerns(item, n) ==> TrackOf(Worker(fs', w.disk), n) == TrackOf(w, n)
    ensures item.Create? || item.Barrier? ==> TrackOf(Worker(fs', w.disk), n) == Follow(TrackOf(w, n), item, n)
  {
    if !Concerns(item, n) {
      EnqueueOthers(w.fs.queue.waiting, item, Running(w, n), n);
    }
    FollowSnoc(w.fs.queue.waiting, item, Running(w, n), n);
    hide Purge, FindWrite, FollowAll, Follow;
  }

  lemma PutJoins(q: seq<Item>, r: Track, n: string, p: Patch, i: nat, m: Contents, t: Track)
    requires FindWrite(q, |q|, n) == Some(i) && TrackAgrees(m, t) && TrackShows(t, FollowAll(q, r, n), p)
    ensures TrackAgrees(Apply(m, p), FollowAll(JoinInto(q, i, [p]), r, n))
  {
    AgreesPresent(m, t);
    JoinOwn(q, i, p, |q|, r, n);
    JoinedTrack(m, t, FollowAll(q, r, n).works, p);
    hide TrackAgrees, Refreshed, Apply, FollowTo, FindWrite, JoinLast;
  }

  lemma PutQueues(q: seq<Item>, r: Track, n: string, p: Patch, v: Contents, m: Contents, t: Track)
    requires TrackAgrees(m, t) && TrackShows(t, FollowAll(q, r, n), p) && MayShow(m, v, p)
    ensures TrackAgrees(Apply(m, p), FollowAll(q + [Write(n, v, [p])], r, n))
  {
    AgreesPresent(m, t);
    FollowSnoc(q, Write(n, v, [p]), r, n);
    FollowWrite(t.file, FollowAll(q, r, n).works, n, v, p);
    QueuedTrack(m, t, FollowAll(q, r, n).works, p, v);
    hide TrackAgrees, Refreshed, Apply, FollowAll, Follow, MayShow;
  }

  // A patch written to a file, its views already showing it.
  lemma PutTracks(w: Worker, n: string, p: Patch, v: Contents, fs': Fs, m: Contents, t: Track)
    requires fs'.queue == Step(w.fs.queue, Issue(Write(n, v, [p]))) && TrackAgrees(m, t)
    requires TrackShows(t, TrackOf(w, n), p) && MayShow(m, v, p)
    ensures TrackAgrees(Apply(m, p), TrackOf(Worker(fs', w.disk), n))
  {
    hide TrackAgrees, TrackShows, MayShow, Apply, Follow, FollowAll, FindWrite, Purge, JoinInto;
    var q, r := w.fs.queue.waiting, Running(w, n);
    var found := FindWrite(q, |q|, n);
    if found.Some? {
      PutJoins(q, r, n, p, found.value, m, t);
    } else {
      PutQueues(q, r, n, p, v, m, t);
    }
  }

  lemma AgreesPresent(m: Contents, t: Track)
    requires TrackAgrees(m, t)
    ensures t.Present?
  {
  }

  lemma JoinedTrack(m: Contents, t: Track, vs: seq<Work>, p: Patch)
    requires TrackAgrees(m, t) && Refreshed(t.works, vs, p) && vs != [] && vs[|vs| - 1].Work?
    ensures TrackAgrees(Apply(m, p), Present(t.file, JoinLast(vs, p)))
  {
    JoinedWriteAgrees(m, t.file, t.works, vs, p);
    ChainedJoin(t.file.length, t.works, vs, p);
    hide Agree, Apply, Chained, MayShow, TailClean;
  }

  lemma QueuedTrack(m: Contents, t: Track, vs: seq<Work>, p: Patch, v: Contents)
    requires TrackAgrees(m, t) && Refreshed(t.works, vs, p) && MayShow(m, v, p)
    ensures TrackAgrees(Apply(m, p), Present(t.file, vs + [Work(v, [p])]))
  {
    QueuedWriteAgrees(m, t.file, t.works, vs, p, v);
    ChainedWrite(m, t.file, t.works, vs, p, v);
    hide Agree, Apply, Chained, MayShow, TailClean;
  }

  lemma FollowWrite(f: StoredFile, ws: seq<Work>, n: string, v: Contents, p: Patch)
    ensures Follow(Present(f, ws), Write(n, v, [p]), n) == Present(f, ws + [Work(v, [p])])
  {
  }

  lemma RefreshedLengths(ws: seq<Work>, vs: seq<Work>, p: Patch)
    requires Refreshed(ws, vs, p)
    ensures |vs| == |ws| && forall i :: 0 <= i < |ws| ==> SameWork(ws[i], vs[i]) && LengthOf(vs[i]) == LengthOf(ws[i])
    ensures forall i :: 0 <= i < |ws| && ws[i].Work? ==> |vs[i].base| == |ws[i].base|
  {
  }

  lemma ChainedSame(n: nat, ws: seq<Work>, vs: seq<Work>, p: Patch)
    requires Chained(n, ws) && Refreshed(ws, vs, p)
    ensures Chained(n, vs) && LengthBefore(n, vs, |vs|) == LengthBefore(n, ws, |ws|)
  {
    RefreshedLengths(ws, vs, p);
    hide LengthOf, Refreshed;
    forall i | 0 <= i < |vs|
      ensures Fits(vs[i], LengthBefore(n, vs, i))
    {
      assert Fits(ws[i], LengthBefore(n, ws, i)) && SameWork(ws[i], vs[i]);
      assert LengthBefore(n, vs, i) == LengthBefore(n, ws, i);
    }
  }

  lemma ChainedJoin(n: nat, ws: seq<Work>, vs: seq<Work>, p: Patch)
    requires Chained(n, ws) && Refreshed(ws, vs, p) && vs != [] && vs[|vs| - 1].Work?
    ensures Chained(n, JoinLast(vs, p))
  {
    ChainedSame(n, ws, vs, p);
    hide LengthOf, Refreshed;
    var us := JoinLast(vs, p);
    forall i | 0 <= i < |us|
      ensures Fits(us[i], LengthBefore(n, us, i))
    {
      assert Fits(vs[i], LengthBefore(n, vs, i));
      assert LengthBefore(n, us, i) == LengthBefore(n, vs, i);
    }
  }

  lemma ChainedWrite(m: Contents, f: StoredFile, ws: seq<Work>, vs: seq<Work>, p: Patch, v: Contents)
    requires Chained(f.length, ws) && Refreshed(ws, vs, p) && |m| == LengthAfter(f, ws) && |v| == |m|
    ensures Chained(f.length, vs + [Work(v, [p])])
  {
    ChainedSame(f.length, ws, vs, p);
    hide LengthOf, Refreshed;
    ChainedSnoc(f.length, vs, Work(v, [p]));
  }

  // A file is resized, its views already showing it.
  lemma CutTracks(m: Contents, t: Track, u: Track, c: nat)
    requires TrackAgrees(m, t) && TrackShows(t, u, Cleared(m, c)) && CutsZeros(m, c)
    ensures u.Present? && TrackAgrees(Resized(m, c), Present(u.file, u.works + [Cut(c)]))
  {
    CutAgrees(m, t.file, t.works, u.works, c);
    ChainedSame(t.file.length, t.works, u.works, Cleared(m, c));
    ChainedSnoc(t.file.length, u.works, Cut(c));
    hide Agree, Resized, Refreshed, TailClean, CutsZeros;
  }

  // ----- every act keeps the agreement

  lemma SameQueue(w: Worker, w': Worker, n: string)
    requires w'.fs.queue == w.fs.queue && w'.disk == w.disk
    ensures TrackOf(w', n) == TrackOf(w, n)
  {
    hide FollowAll, Follow;
  }

  // An operation on another file.
  lemma OthersKept(w: Worker, op: Op, n: string)
    requires !op.Background? && op.name != n && FileAgrees(w, n)
    ensures FileAgrees(Worker(Do(w.fs, op), w.disk), n)
  {
    var w' := Worker(Do(w.fs, op), w.disk);
    var item := Issues(w.fs.mem, w.fs.memoryOnly, op);
    IssuedIsNamed(w.fs.mem, w.fs.memoryOnly, op);
    if item.Some? {
      IssueTracks(w, item.value, w'.fs, n);
    } else {
      SameQueue(w, w', n);
    }
    assert n in Persistent(w'.fs) <==> n in Persistent(w.fs);
    hide TrackOf, Agree, Step, Apply, Resized, Issues, Chained, TailClean;
  }

  lemma OpenOwn(w: Worker, op: Op)
    requires op.Open? && Good(w) && FileAgrees(w, op.name)
    ensures FileAgrees(Worker(Do(w.fs, op), w.disk), op.name)
  {
    var n, w' := op.name, Worker(Do(w.fs, op), w.disk);
    PresentWhenSettled(w, n);
    NoFileAgrees();
    assert n in Settled(w.fs.queue) ==> n in w.fs.mem;
    var item := Issues(w.fs.mem, w.fs.memoryOnly, op);
    if item.Some? {
      IssueTracks(w, item.value, w'.fs, n);
    } else {
      SameQueue(w, w', n);
    }
    hide TrackOf, Agree, Step, Settled, AllSensible, DiskFits, QueueKnown, Chained, TailClean;
  }

  // The file is written to, its views in mid already showing the patch.
  lemma WriteOwn(w: Worker, mid: Worker, op: Op)
    requires op.WriteAt? && FileAgrees(w, op.name) && op.name in w.fs.mem
    requires MayShow(w.fs.mem[op.name], op.view, op.patch)
    requires mid.fs.mem == w.fs.mem && mid.fs.memoryOnly == w.fs.memoryOnly
    requires TrackShows(TrackOf(w, op.name), TrackOf(mid, op.name), op.patch)
    ensures FileAgrees(Worker(Do(mid.fs, op), mid.disk), op.name)
  {
    var WriteAt(n, p, v) := op;
    if n !in w.fs.memoryOnly {
      assert Issues(w.fs.mem, w.fs.memoryOnly, op) == Some(Write(n, v, [p]));
      PutTracks(mid, n, p, v, Do(mid.fs, op), w.fs.mem[n], TrackOf(w, n));
    }
    hide TrackOf, TrackAgrees, Step, Apply, MayShow, TrackShows;
  }

  // The file is resized, its views in mid already showing it.
  lemma ResizeOwn(w: Worker, mid: Worker, op: Op)
    requires op.Resize? && FileAgrees(w, op.name) && op.name in w.fs.mem && CutsZeros(w.fs.mem[op.name], op.length)
    requires mid.fs.mem == w.fs.mem && mid.fs.memoryOnly == w.fs.memoryOnly
    requires TrackShows(TrackOf(w, op.name), TrackOf(mid, op.name), Cleared(w.fs.mem[op.name], op.length))
    ensures FileAgrees(Worker(Do(mid.fs, op), mid.disk), op.name)
  {
    var Resize(n, c) := op;
    if n !in w.fs.memoryOnly {
      var item := Barrier(Resizing(n, c));
      assert Issues(w.fs.mem, w.fs.memoryOnly, op) == Some(item);
      IssueTracks(mid, item, Do(mid.fs, op), n);
      CutTracks(w.fs.mem[n], TrackOf(w, n), TrackOf(mid, n), c);
    }
    hide TrackOf, TrackAgrees, Step, Resized, TrackShows, CutsZeros, Cleared;
  }

  lemma QueueFile(w: Worker, a: Act, n: string)
    requires Allowed(w, a) && a.op.Background? && FileAgrees(w, n) && (n in w.disk ==> Sound(w.disk[n]))
    ensures FileAgrees(Perform(w, a), n)
  {
    var w' := Perform(w, a);
    assert w'.fs.mem == w.fs.mem && w'.fs.memoryOnly == w.fs.memoryOnly;
    if a.op.event.Start? {
      StartTracks(w, a, n);
    } else if a.op.event.Finish? && w.fs.queue.running.Some? {
      FinishFile(w, a, n);
    } else {
      assert w'.fs.queue == w.fs.queue;
      SameQueue(w, w', n);
    }
    hide TrackOf, TrackAgrees, RunOnDisk, Touched, Do;
  }

  // The worker once views show what is about to be written.
  function Shown(w: Worker, shown: Queue): Worker { Worker(w.fs.(queue := shown), w.disk) }

  // A file that agrees goes on agreeing, unless this act writes to it or resizes
  // it through a stale handle, or cuts off more than zeros in its last block.
  lemma ActKeepsFile(w: Worker, a: Act, n: string)
    requires Good(w) && Allowed(w, a) && FileAgrees(w, n)
    requires !IsStale(w.fs.mem, a.op, n) && !Spoils(w.fs.mem, a.op, n)
    ensures FileAgrees(Perform(w, a), n)
  {
    hide CutsZeros;
    var mid := Shown(w, a.shown);
    if a.op.Background? {
      QueueFile(w, a, n);
    } else if a.op.WriteAt? || a.op.Resize? {
      var p := if a.op.WriteAt? then a.op.patch else Cleared(Held(w.fs.mem, a.op.name), a.op.length);
      if a.op.name != n {
        ShownWorker(w, a.shown, a.op.name, p);
        assert TrackOf(mid, n) == TrackOf(w, n);
        OthersKept(mid, a.op, n);
      } else {
        ShownWorker(w, a.shown, n, p);
        if a.op.WriteAt? {
          WriteOwn(w, mid, a.op);
        } else {
          ResizeOwn(w, mid, a.op);
        }
      }
    } else if a.op.name != n {
      OthersKept(w, a.op, n);
    } else if a.op.Open? {
      OpenOwn(w, a.op);
    } else {
      RemoveForgets(w.fs, n);
    }
    hide Good, TrackOf, TrackAgrees, Do, MayShow, Touched, QueueShows, RunOnDisk, TrackShows;
  }

  lemma ShownKeepsGood(w: Worker, a: Act)
    requires Good(w) && Allowed(w, a)
    ensures Good(Shown(w, a.shown)) && Settled(a.shown) == Settled(w.fs.queue)
    ensures a.op.Background? ==> a.shown == w.fs.queue
  {
    hide Safe, QueueKnown, DiskFits, MayShow, Touched, AllShow;
    if a.op.WriteAt? {
      ShownSettles(w.fs, a.shown, a.op.name, a.op.patch);
    } else if a.op.Resize? {
      ShownSettles(w.fs, a.shown, a.op.name, Cleared(Held(w.fs.mem, a.op.name), a.op.length));
    }
  }

  // An issued item joins the queue and leaves the store.
  lemma IssueKnown(q: Queue, item: Item)
    requires QueueKnown(q) && Known(item)
    ensures QueueKnown(Step(q, Issue(item))) && Step(q, Issue(item)).store == q.store
  {
    EnqueueKnown(q.waiting, item);
    hide Enqueue, AllKnown;
  }

  lemma ActQueue(w: Worker, a: Act)
    requires Allowed(w, a) && QueueKnown(a.shown) && DiskFits(w.disk, a.shown.store)
    requires a.op.Background? ==> a.shown == w.fs.queue
    ensures QueueKnown(Perform(w, a).fs.queue) && DiskFits(Perform(w, a).disk, Perform(w, a).fs.queue.store)
  {
    if a.op.Background? {
      QueueStep(w, a);
    } else {
      IssuedIsNamed(w.fs.mem, w.fs.memoryOnly, a.op);
      var item := Issues(w.fs.mem, w.fs.memoryOnly, a.op);
      if item.Some? {
        IssueKnown(a.shown, item.value);
      }
    }
    hide QueueKnown, DiskFits, MayShow, Apply, QueueShows, Step, Touched, RunOnDisk, Issues, Remembered;
  }

  lemma QueueStep(w: Worker, a: Act)
    requires QueueKnown(w.fs.queue) && DiskFits(w.disk, w.fs.queue.store) && Allowed(w, a) && a.op.Background?
    ensures QueueKnown(Perform(w, a).fs.queue) && DiskFits(Perform(w, a).disk, Perform(w, a).fs.queue.store)
  {
    hide DiskFits, Touched, Run, RunOnDisk, Known;
    var q := w.fs.queue;
    if a.op.event.Finish? && q.running.Some? {
      FinishDisk(w.disk, q.store, q.running.value, a.blocks);
    }
  }

  lemma ActKeepsGood(w: Worker, a: Act)
    requires Good(w) && Allowed(w, a)
    ensures Good(Perform(w, a))
  {
    ShownKeepsGood(w, a);
    ActQueue(w, a);
    hide Allowed, DiskFits, QueueKnown, Safe, Do;
    DoKeepsSafe(w.fs.(queue := a.shown), a.op);
  }

  lemma {:induction false} HistoryKeepsGood(w: Worker, acts: seq<Act>)
    requires Good(w) && AllAllowed(w, acts)
    ensures Good(PerformAll(w, acts))
  {
    if acts != [] {
      hide Perform, Allowed, Good;
      HistoryKeepsGood(w, acts[..|acts| - 1]);
      ActKeepsGood(PerformAll(w, acts[..|acts| - 1]), acts[|acts| - 1]);
    }
  }

  // ----- over histories

  lemma OpsBefore(acts: seq<Act>)
    requires acts != []
    ensures Ops(acts)[..|acts| - 1] == Ops(acts[..|acts| - 1])
    ensures Ops(acts)[|acts| - 1] == acts[|acts| - 1].op
  {
  }

  // Memory does not depend on the queue.
  lemma {:induction false} SameMemory(w: Worker, acts: seq<Act>)
    ensures PerformAll(w, acts).fs.mem == DoAll(w.fs, Ops(acts)).mem
    ensures PerformAll(w, acts).fs.memoryOnly == DoAll(w.fs, Ops(acts)).memoryOnly
  {
    if acts != [] {
      SameMemory(w, acts[..|acts| - 1]);
      OpsBefore(acts);
      hide Remembered, Unmirrored, Issues, Step, RunOnDisk, Ops;
    }
  }

  lemma ActStored(w: Worker, a: Act, n: string, astray: bool)
    requires Good(w) && Allowed(w, a) && StoredUnless(w.fs, n, astray)
    ensures StoredUnless(Perform(w, a).fs, n, !Removes(a.op, n) && (astray || IsStale(w.fs.mem, a.op, n)))
  {
    ShownKeepsGood(w, a);
    hide Allowed, DiskFits, QueueKnown, Safe, Do, Settled;
    var mid := w.fs.(queue := a.shown);
    assert StoredUnless(mid, n, astray);
    hide StoredUnless;
    DoKeepsStored(mid, a.op, n, astray);
  }

  lemma {:induction false} HistoryStored(w: Worker, acts: seq<Act>, n: string)
    requires Good(w) && AllAllowed(w, acts) && StoredUnless(w.fs, n, false)
    ensures StoredUnless(PerformAll(w, acts).fs, n, Astray(w.fs, Ops(acts), n))
  {
    if acts != [] {
      var before := acts[..|acts| - 1];
      HistoryStored(w, before, n);
      HistoryKeepsGood(w, before);
      SameMemory(w, before);
      OpsBefore(acts);
      hide Good, Allowed, Perform, StoredUnless, DoAll, Ops;
      ActStored(PerformAll(w, before), acts[|acts| - 1], n, Astray(w.fs, Ops(before), n));
    }
  }

  lemma RemovedAgrees(w: Worker, a: Act, n: string)
    requires Removes(a.op, n)
    ensures FileAgrees(Perform(w, a), n)
  {
    hide TrackAgrees, TrackOf;
  }

  lemma ActAgrees(w: Worker, a: Act, n: string, astray: bool, spoilt: bool)
    requires Good(w) && Allowed(w, a) && (astray || spoilt || FileAgrees(w, n))
    ensures || (!Removes(a.op, n) && (astray || IsStale(w.fs.mem, a.op, n)))
            || (!Removes(a.op, n) && (spoilt || Spoils(w.fs.mem, a.op, n)))
            || FileAgrees(Perform(w, a), n)
  {
    hide Good, Allowed, Perform, FileAgrees, IsStale, Spoils;
    if Removes(a.op, n) {
      RemovedAgrees(w, a, n);
    } else if !astray && !spoilt && !IsStale(w.fs.mem, a.op, n) && !Spoils(w.fs.mem, a.op, n) {
      ActKeepsFile(w, a, n);
    }
  }

  lemma {:induction false} HistoryAgrees(w: Worker, acts: seq<Act>, n: string)
    requires Good(w) && AllAllowed(w, acts) && FileAgrees(w, n)
    ensures !Astray(w.fs, Ops(acts), n) && !Spoilt(w.fs, Ops(acts), n) ==> FileAgrees(PerformAll(w, acts), n)
  {
    if acts != [] {
      var before, a := acts[..|acts| - 1], acts[|acts| - 1];
      HistoryAgrees(w, before, n);
      HistoryKeepsGood(w, before);
      SameMemory(w, before);
      OpsBefore(acts);
      hide Good, Allowed, Perform, FileAgrees, DoAll, Ops, Removes, IsStale, Spoils;
      ActAgrees(PerformAll(w, before), a, n, Astray(w.fs, Ops(before), n), Spoilt(w.fs, Ops(before), n));
    }
  }

  lemma DrainedBlocks(w: Worker, n: string)
    requires Good(w) && w.fs.queue.running.None? && w.fs.queue.waiting == []
    ensures n in w.disk <==> n in Settled(w.fs.queue)
    ensures n in Persistent(w.fs) && FileAgrees(w, n) ==>
              n in w.disk && ReadBack(w.disk[n]) == w.fs.mem[n] && CleanTail(w.disk[n])
  {
    hide Agree, CleanTail, ReadBack, Sound, Chained, TailClean, Safe;
    if n in Persistent(w.fs) && FileAgrees(w, n) {
      assert TrackOf(w, n) == OnDisk(w.disk, n);
      DrainedAgreement(w.fs.mem[n], w.disk[n]);
    }
  }

  // From any worker whose files agree, in particular a loaded one, after any
  // history of operations on any number of files, however the queue runs
  // meanwhile: once it has drained, the blocks hold a file exactly if it is
  // persistent and not astray, and if it was not spoilt either they read back as
  // it is in memory, zero after its end.
  lemma BlocksAreMemory(w: Worker, acts: seq<Act>, n: string)
    requires Good(w) && AllAllowed(w, acts) && FileAgrees(w, n) && StoredUnless(w.fs, n, false)
    ensures var end, astray, spoilt := PerformAll(w, acts), Astray(w.fs, Ops(acts), n), Spoilt(w.fs, Ops(acts), n);
            end.fs.queue.running.None? && end.fs.queue.waiting == [] ==>
              && (n in end.disk <==> n in Persistent(end.fs) && !astray)
              && (n in end.disk && !spoilt ==> ReadBack(end.disk[n]) == end.fs.mem[n] && CleanTail(end.disk[n]))
  {
    HistoryKeepsGood(w, acts);
    HistoryStored(w, acts, n);
    HistoryAgrees(w, acts, n);
    var end := PerformAll(w, acts);
    hide Good, PerformAll, Astray, Spoilt, ReadBack, CleanTail, FileAgrees, Ops;
    if end.fs.queue.running.None? && end.fs.queue.waiting == [] {
      DrainedBlocks(end, n);
    }
    hide Settled;
  }

  // ----- every history can be continued to a drained one

  lemma {:induction false} PerformConcat(w: Worker, a: seq<Act>, b: seq<Act>)
    ensures PerformAll(w, a + b) == PerformAll(PerformAll(w, a), b)
    ensures AllAllowed(w, a) && AllAllowed(PerformAll(w, a), b) ==> AllAllowed(w, a + b)
  {
    hide Perform, Allowed;
    if b == [] {
      assert a + b == a;
    } else {
      PerformConcat(w, a, b[..|b| - 1]);
      assert (a + b)[..|a + b| - 1] == a + b[..|b| - 1];
    }
  }

  lemma PerformNone(w: Worker)
    ensures PerformAll(w, []) == w && AllAllowed(w, [])
  {
  }

  lemma PerformOne(w: Worker, a: Act)
    ensures PerformAll(w, [a]) == Perform(w, a) && (Allowed(w, a) ==> AllAllowed(w, [a]))
  {
    assert [a][..0] == [];
    assert PerformAll(w, []) == w && AllAllowed(w, []);
    hide Perform, Allowed;
  }

  // The queue does its next step, putting the blocks its write touches.
  function QueueAct(w: Worker, e: Event): Act {
    var running := w.fs.queue.running;
    Act(Background(e), w.fs.queue,
        if running.Some? && running.value.Write? then TouchedBlocks(running.value.view, running.value.patches)
        else map[])
  }

  lemma IsQueueAct(w: Worker, e: Event)
    ensures QueueAct(w, e).op == Background(e)
  {
  }

  lemma QueueActs(w: Worker, e: Event)
    requires !e.Issue?
    ensures Allowed(w, QueueAct(w, e))
    ensures var w' := Perform(w, QueueAct(w, e));
            w'.fs.queue == Step(w.fs.queue, e) && w'.fs.mem == w.fs.mem && w'.fs.memoryOnly == w.fs.memoryOnly
  {
    var running := w.fs.queue.running;
    if running.Some? && running.value.Write? {
      TouchedBlocksTouched(running.value.view, running.value.patches);
    }
    hide Touched, TouchedBlocks, Step, RunOnDisk;
  }

  ghost predicate IsRunningOnly(acts: seq<Act>) {
    forall i :: 0 <= i < |acts| ==> acts[i].op.Background? && !acts[i].op.event.Issue?
  }

  // What was known of a file is still known after the queue has run on.
  ghost predicate Keeps(w: Worker, w': Worker, n: string, astray: bool) {
    && Good(w') && w'.fs.mem == w.fs.mem && w'.fs.memoryOnly == w.fs.memoryOnly
    && (StoredUnless(w.fs, n, astray) ==> StoredUnless(w'.fs, n, astray))
    && (FileAgrees(w, n) ==> FileAgrees(w', n))
  }

  lemma QueueActKeeps(w: Worker, e: Event, n: string, astray: bool)
    requires Good(w) && !e.Issue?
    ensures Keeps(w, Perform(w, QueueAct(w, e)), n, astray)
  {
    var a := QueueAct(w, e);
    QueueActs(w, e);
    assert a.op.Background?;
    hide Good, Allowed, Perform, QueueAct, FileAgrees, StoredUnless;
    ActKeepsGood(w, a);
    if StoredUnless(w.fs, n, astray) {
      ActStored(w, a, n, astray);
    }
    if FileAgrees(w, n) {
      ActKeepsFile(w, a, n);
    }
  }

  lemma {:induction false} WorkerCanDrain(w: Worker, n: string, astray: bool) returns (more: seq<Act>)
    requires Good(w)
    ensures AllAllowed(w, more) && IsRunningOnly(more)
    ensures IsDrained(PerformAll(w, more).fs.queue) && Keeps(w, PerformAll(w, more), n, astray)
    decreases |w.fs.queue.waiting|, if w.fs.queue.running.Some? then 1 else 0
  {
    hide Perform, PerformAll, AllAllowed, Allowed, Good, FileAgrees, StoredUnless, QueueAct;
    var q := w.fs.queue;
    if IsDrained(q) {
      more := [];
      PerformNone(w);
    } else {
      var e := if q.running.Some? then Finish else Start;
      var a := QueueAct(w, e);
      var w' := Perform(w, a);
      assert a.op == Background(e) by { IsQueueAct(w, e); }
      QueueActs(w, e);
      QueueActKeeps(w, e, n, astray);
      var rest := WorkerCanDrain(w', n, astray);
      more := [a] + rest;
      PerformOne(w, a);
      PerformConcat(w, [a], rest);
    }
  }

  // After any history the queue can run on until it has drained, and then the
  // blocks hold exactly the persistent files that are not astray, and those that
  // are not spoilt read back as they are in memory.
  lemma EveryHistoryDrains(w: Worker, acts: seq<Act>, n: string) returns (more: seq<Act>)
    requires Good(w) && AllAllowed(w, acts) && FileAgrees(w, n) && StoredUnless(w.fs, n, false)
    ensures AllAllowed(w, acts + more) && IsRunningOnly(more)
    ensures var before, end := PerformAll(w, acts), PerformAll(w, acts + more);
            && IsDrained(end.fs.queue) && end.fs.mem == before.fs.mem && end.fs.memoryOnly == before.fs.memoryOnly
            && (n in end.disk <==> n in Persistent(end.fs) && !Astray(w.fs, Ops(acts), n))
            && (n in end.disk && !Spoilt(w.fs, Ops(acts), n) ==>
                  ReadBack(end.disk[n]) == end.fs.mem[n] && CleanTail(end.disk[n]))
  {
    HistoryKeepsGood(w, acts);
    HistoryStored(w, acts, n);
    HistoryAgrees(w, acts, n);
    more := WorkerCanDrain(PerformAll(w, acts), n, Astray(w.fs, Ops(acts), n));
    PerformConcat(w, acts, more);
    var end := PerformAll(w, acts + more);
    DrainedBlocks(end, n);
    hide Good, PerformAll, AllAllowed, Astray, Spoilt, ReadBack, CleanTail, FileAgrees, Ops, Settled;
  }

  // Loading: memory is read back from the blocks, and nothing is pending.
  function Loaded(disk: Disk): Worker {
    var mem := map n | n in disk :: ReadBack(disk[n]);
    Worker(Fs(mem, {}, Queue(mem, None, [])), disk)
  }

  lemma LoadedAgrees(disk: Disk, n: string)
    requires forall m :: m in disk ==> Sound(disk[m]) && CleanTail(disk[m])
    ensures Good(Loaded(disk)) && FileAgrees(Loaded(disk), n) && StoredUnless(Loaded(disk).fs, n, false)
  {
    hide Agree, CleanTail, TailClean, ReadBack, Sound;
    if n in disk {
      FreshAgreement(disk[n]);
      CleanBeyond(disk[n]);
    }
  }
}
