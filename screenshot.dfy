/** The `Screenshot` location's temporary-file lifecycle. Each capture creates
    a fresh file in the cache directory; a successful capture launches one
    background task that deletes the file after `REMOVE_TEMP_FILE_DELAY`
    milliseconds and returns the file; a failed capture throws and launches
    nothing, so its file stays behind.

    The file store is modelled as a value (`FileStore`) with one function per
    step, and the class `ScreenshotFiles` holds the same state in fields and
    updates it in place, each method proved to follow the function. */
module Screenshot {

  const REMOVE_TEMP_FILE_DELAY: nat := 2000
  const CANNOT_GET_SCREENSHOT := "Cannot get screenshot"

  /** A temporary file. `File.createTempFile` never hands out a name twice;
      the model numbers files in creation order. */
  type FileId = nat

  /** A launched `delay(...); removeTempFile(file)` task that has not run yet. */
  datatype Deletion = Deletion(file: FileId, delayMs: nat)

  /** The files that exist, the deletion tasks still pending, and the number
      the next temporary file will get. */
  datatype FileStore = FileStore(live: set<FileId>, pending: seq<Deletion>, next: nat)

  /** What `Screenshot.response` does: return the file, or throw. */
  datatype Capture = Captured(file: FileId) | Thrown(message: string)

  /** How many pending tasks will delete `f`. */
  function Count(q: seq<Deletion>, f: FileId): (n: nat) {
    if q == [] then 0 else (if q[0].file == f then 1 else 0) + Count(q[1..], f)
  }

  /** The store's invariant: every file was numbered before `next`, every
      pending task deletes an existing file after the fixed delay, and no file
      has two pending deletions. */
  ghost predicate Consistent(s: FileStore) {
    && (forall f :: f in s.live ==> f < s.next)
    && (forall i :: 0 <= i < |s.pending| ==>
          s.pending[i].file in s.live && s.pending[i].delayMs == REMOVE_TEMP_FILE_DELAY)
    && (forall f :: Count(s.pending, f) <= 1)
  }

  /** Files that exist and that no pending task will delete: left behind. */
  ghost function Leaked(s: FileStore): set<FileId> {
    set f | f in s.live && Count(s.pending, f) == 0
  }

  function Empty(): (s: FileStore) {
    FileStore({}, [], 0)
  }

  /** `createTempFile`: a fresh file in the cache directory. */
  function AfterCreateTempFile(s: FileStore): (created: (FileStore, FileId)) {
    (s.(live := s.live + {s.next}, next := s.next + 1), s.next)
  }

  /** `Screenshot.response`, given whether the driver's `takeScreenshot` wrote
      the file. */
  function AfterResponse(s: FileStore, captured: bool): (result: (FileStore, Capture)) {
    var (s1, f) := AfterCreateTempFile(s);
    if captured then (s1.(pending := s1.pending + [Deletion(f, REMOVE_TEMP_FILE_DELAY)]), Captured(f))
    else (s1, Thrown(CANNOT_GET_SCREENSHOT))
  }

  /** `removeTempFile`: `File.delete` succeeds when the file exists and the
      file system lets it go (`denied` stands for every other reason it may
      refuse); a failed delete is only logged. The boolean is what `delete`
      returns. */
  function AfterRemoveTempFile(s: FileStore, f: FileId, denied: bool): (result: (FileStore, bool)) {
    if f in s.live && !denied then (s.(live := s.live - {f}), true) else (s, false)
  }

  /** The pending task at index `i` wakes up and runs; the tasks are not
      ordered with respect to each other, so any of them may be next. */
  function AfterDeletion(s: FileStore, i: nat, denied: bool): (s': FileStore)
    requires i < |s.pending|
  {
    var d := s.pending[i];
    AfterRemoveTempFile(s.(pending := s.pending[..i] + s.pending[i + 1..]), d.file, denied).0
  }

  // ---------------------------------------------------------------------
  // Lemmas about Count

  lemma {:induction false} CountConcat(a: seq<Deletion>, b: seq<Deletion>, f: FileId)
    ensures Count(a + b, f) == Count(a, f) + Count(b, f)
  {
    if a == [] {
      assert a + b == b;
    } else {
      assert (a + b)[1..] == a[1..] + b;
      CountConcat(a[1..], b, f);
    }
  }

  lemma {:induction false} CountAt(q: seq<Deletion>, i: nat)
    requires i < |q|
    ensures Count(q, q[i].file) >= 1
  {
    if i > 0 {
      CountAt(q[1..], i - 1);
    }
  }

  lemma {:induction false} CountAbsent(q: seq<Deletion>, f: FileId)
    requires forall i :: 0 <= i < |q| ==> q[i].file != f
    ensures Count(q, f) == 0
  {
    if q != [] {
      CountAbsent(q[1..], f);
    }
  }

  /** Splitting the queue around index `i`. */
  lemma CountWithout(q: seq<Deletion>, i: nat, f: FileId)
    requires i < |q|
    ensures Count(q, f) == Count(q[..i] + q[i + 1..], f) + (if q[i].file == f then 1 else 0)
  {
    assert q == q[..i] + ([q[i]] + q[i + 1..]);
    CountConcat(q[..i], [q[i]] + q[i + 1..], f);
    CountConcat([q[i]], q[i + 1..], f);
    CountConcat(q[..i], q[i + 1..], f);
  }

  // ---------------------------------------------------------------------
  // One capture

  /** The empty store is consistent and has nothing left behind. */
  lemma EmptyConsistent()
    ensures Consistent(Empty()) && Leaked(Empty()) == {}
  {
  }

  /** A successful capture returns the fresh file, which exists, and schedules
      exactly one deletion of it, after 2000 ms; nothing else changes. */
  lemma CaptureSucceeds(s: FileStore)
    requires Consistent(s)
    ensures var (s', c) := AfterResponse(s, true);
      && c.Captured?
      && c.file !in s.live
      && s'.live == s.live + {c.file}
      && s'.pending == s.pending + [Deletion(c.file, REMOVE_TEMP_FILE_DELAY)]
      && Count(s.pending, c.file) == 0
      && Count(s'.pending, c.file) == 1
      && Leaked(s') == Leaked(s)
      && Consistent(s')
  {
    var (s', c) := AfterResponse(s, true);
    CountAbsent(s.pending, c.file);
    forall f ensures Count(s'.pending, f) == Count(s.pending, f) + (if f == c.file then 1 else 0) {
      CountConcat(s.pending, [Deletion(c.file, REMOVE_TEMP_FILE_DELAY)], f);
    }
  }

  /** A failed capture throws "Cannot get screenshot" and schedules nothing:
      the fresh file it created stays behind. */
  lemma CaptureFails(s: FileStore)
    requires Consistent(s)
    ensures var (s', c) := AfterResponse(s, false);
      && c == Thrown(CANNOT_GET_SCREENSHOT)
      && s'.pending == s.pending
      && s.next !in s.live
      && s'.live == s.live + {s.next}
      && s.next !in Leaked(s)
      && Leaked(s') == Leaked(s) + {s.next}
      && Consistent(s')
  {
    CountAbsent(s.pending, s.next);
  }

  /** Running a pending deletion keeps the store consistent. If the delete
      succeeds, nothing more is left behind; if the file system refuses, the
      file stays and is left behind from then on, and nothing but the task
      queue changes. */
  lemma RunDeletionKeepsConsistent(s: FileStore, i: nat, denied: bool)
    requires Consistent(s) && i < |s.pending|
    ensures var s' := AfterDeletion(s, i, denied);
      && Consistent(s')
      && s'.pending == s.pending[..i] + s.pending[i + 1..]
      && s'.next == s.next
      && s'.live == (if denied then s.live else s.live - {s.pending[i].file})
      && s.pending[i].file !in Leaked(s)
      && (denied ==> Leaked(s') == Leaked(s) + {s.pending[i].file})
      && (!denied ==> Leaked(s') == Leaked(s))
  {
    var d := s.pending[i];
    CountAt(s.pending, i);
    var q := s.pending[..i] + s.pending[i + 1..];
    var s' := AfterDeletion(s, i, denied);
    forall f ensures Count(s.pending, f) == Count(q, f) + (if d.file == f then 1 else 0) {
      CountWithout(s.pending, i, f);
    }
    forall j | 0 <= j < |q| ensures q[j].file in s'.live {
      CountAt(q, j);
      assert q[j].file != d.file;
      assert q[j] == if j < i then s.pending[j] else s.pending[j + 1];
    }
  }

  // ---------------------------------------------------------------------
  // Any interleaving of requests and deletion tasks

  /** One thing that happens to the store: a screenshot request (with the
      driver's `takeScreenshot` answer), or a pending task running. */
  datatype Event =
    | ScreenshotRequest(captured: bool)
    | DeletionRuns(index: nat, denied: bool)

  predicate Enabled(s: FileStore, e: Event) {
    e.DeletionRuns? ==> e.index < |s.pending|
  }

  function Apply(s: FileStore, e: Event): (s': FileStore)
    requires Enabled(s, e)
  {
    match e
    case ScreenshotRequest(captured) => AfterResponse(s, captured).0
    case DeletionRuns(i, denied) => AfterDeletion(s, i, denied)
  }

  /** Every task that runs was pending at that moment. */
  predicate Feasible(s: FileStore, trace: seq<Event>)
    decreases |trace|
  {
    trace == [] || (Enabled(s, trace[0]) && Feasible(Apply(s, trace[0]), trace[1..]))
  }

  function Run(s: FileStore, trace: seq<Event>): (s': FileStore)
    requires Feasible(s, trace)
    decreases |trace|
  {
    if trace == [] then s else Run(Apply(s, trace[0]), trace[1..])
  }

  /** The events that leave a file behind as written: failed captures and
      refused deletes. */
  function LeakingEvents(trace: seq<Event>): (n: nat) {
    if trace == [] then 0
    else (if trace[0] == ScreenshotRequest(false) || (trace[0].DeletionRuns? && trace[0].denied) then 1 else 0)
         + LeakingEvents(trace[1..])
  }

  /** Along any interleaving of requests and deletion tasks, in any order, the
      invariant holds, every file left behind stays left behind, and the number
      of files left behind grows by exactly one per failed capture and one per
      refused delete. */
  lemma {:induction false} LeakedAlongTrace(s: FileStore, trace: seq<Event>)
    requires Consistent(s) && Feasible(s, trace)
    ensures Consistent(Run(s, trace))
    ensures Leaked(s) <= Leaked(Run(s, trace))
    ensures |Leaked(Run(s, trace))| == |Leaked(s)| + LeakingEvents(trace)
    decreases |trace|
  {
    if trace != [] {
      var e := trace[0];
      match e {
        case ScreenshotRequest(captured) =>
          if captured { CaptureSucceeds(s); } else { CaptureFails(s); }
        case DeletionRuns(i, denied) =>
          RunDeletionKeepsConsistent(s, i, denied);
      }
      LeakedAlongTrace(Apply(s, e), trace[1..]);
    }
  }

  /** Running every pending deletion, oldest first, with the file system
      allowing each one. */
  function RunAllDeletions(s: FileStore): (s': FileStore)
    decreases |s.pending|
  {
    if s.pending == [] then s else RunAllDeletions(AfterDeletion(s, 0, false))
  }

  /** Once every scheduled deletion has run, the files that remain are exactly
      the ones left behind. */
  lemma {:induction false} DeletionsLeaveLeaked(s: FileStore)
    requires Consistent(s)
    ensures RunAllDeletions(s).live == Leaked(s)
    ensures RunAllDeletions(s).pending == []
    decreases |s.pending|
  {
    if s.pending != [] {
      var s1 := AfterDeletion(s, 0, false);
      var d := s.pending[0];
      RunDeletionKeepsConsistent(s, 0, false);
      forall f ensures Count(s.pending, f) == Count(s1.pending, f) + (if d.file == f then 1 else 0) {
        CountWithout(s.pending, 0, f);
      }
      DeletionsLeaveLeaked(s1);
    } else {
      assert forall f :: Count(s.pending, f) == 0;
    }
  }

  /** From an empty cache directory, once a run of requests and tasks has no
      deletion left pending, the files that remain are one per failed capture
      plus one per refused delete. */
  lemma FilesLeftBehind(trace: seq<Event>)
    requires Feasible(Empty(), trace) && Run(Empty(), trace).pending == []
    ensures |Run(Empty(), trace).live| == LeakingEvents(trace)
  {
    EmptyConsistent();
    LeakedAlongTrace(Empty(), trace);
    var s := Run(Empty(), trace);
    assert Leaked(s) == s.live;
  }

  // ---------------------------------------------------------------------
  // The file store as the handler updates it in place

  class ScreenshotFiles {
    var live: set<FileId>
    var pending: seq<Deletion>
    var next: nat

    function State(): (s: FileStore)
      reads this
    {
      FileStore(live, pending, next)
    }

    ghost predicate Valid()
      reads this
    {
      Consistent(State())
    }

    /** An empty cache directory. */
    constructor ()
      ensures Valid() && live == {} && pending == []
      ensures State() == Empty()
    {
      live, pending, next := {}, [], 0;
    }

    /** `createTempFile`. */
    method CreateTempFile() returns (f: FileId)
      requires Valid()
      modifies this
      ensures Valid()
      ensures f !in old(live) && Count(pending, f) == 0
      ensures live == old(live) + {f} && pending == old(pending)
      ensures (State(), f) == AfterCreateTempFile(old(State()))
    {
      f := next;
      CountAbsent(pending, f);
      live := live + {f};
      next := next + 1;
    }

    /** `Screenshot.response`: `captured` is what the driver's
        `takeScreenshot(tempFile, scale, quality)` returned. */
    method Respond(captured: bool) returns (c: Capture)
      requires Valid()
      modifies this
      ensures Valid()
      ensures (State(), c) == AfterResponse(old(State()), captured)
      ensures captured ==> c.Captured? && c.file in live && c.file !in old(live)
      ensures captured ==> pending == old(pending) + [Deletion(c.file, REMOVE_TEMP_FILE_DELAY)]
      ensures !captured ==> c == Thrown(CANNOT_GET_SCREENSHOT) && pending == old(pending)
      ensures !captured ==> |live| == |old(live)| + 1
    {
      ghost var s := State();
      var f := CreateTempFile();
      if captured {
        CaptureSucceeds(s);
        pending := pending + [Deletion(f, REMOVE_TEMP_FILE_DELAY)];
        c := Captured(f);
      } else {
        CaptureFails(s);
        c := Thrown(CANNOT_GET_SCREENSHOT);
      }
    }

    /** `removeTempFile`: `deleted` is what `File.delete` returned. It is
        private to the handler and called only by a deletion task, that is,
        from `RunDeletion` once the task has left the queue. */
    method RemoveTempFile(f: FileId, denied: bool) returns (deleted: bool)
      modifies this
      ensures deleted <==> f in old(live) && !denied
      ensures live == if deleted then old(live) - {f} else old(live)
      ensures pending == old(pending) && next == old(next)
    {
      deleted := f in live && !denied;
      if deleted {
        live := live - {f};
      }
    }

    /** The pending deletion task at index `i` runs. */
    method RunDeletion(i: nat, denied: bool)
      requires Valid() && i < |pending|
      modifies this
      ensures Valid()
      ensures State() == AfterDeletion(old(State()), i, denied)
      ensures pending == old(pending[..i] + pending[i + 1..])
    {
      ghost var s := State();
      RunDeletionKeepsConsistent(s, i, denied);
      var d := pending[i];
      pending := pending[..i] + pending[i + 1..];
      var _ := RemoveTempFile(d.file, denied);
    }
  }
}
