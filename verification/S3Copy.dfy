/** The copy from S3 to Cloudreve: target names, chunked uploads and the concurrent copy run. */
module S3Copy {
  import opened Names

  type Bytes = seq<bv8>

  const SIMPLE_UPLOAD_MAX_BYTES: int := 50 * 1024 * 1024

  // ---------------------------------------------------------------------------------------------
  // Chunks
  // ---------------------------------------------------------------------------------------------

  function Flatten(chunks: seq<Bytes>): Bytes {
    if chunks == [] then [] else Flatten(chunks[..|chunks| - 1]) + chunks[|chunks| - 1]
  }

  function CeilDiv(size: nat, chunk: nat): nat
    requires chunk > 0
  {
    (size + chunk - 1) / chunk
  }

  /** The chunks are the first of those that size bytes are cut into. */
  predicate Partition(body: Bytes, size: int, chunk: int, chunks: seq<Bytes>) {
    && 0 < chunk
    && |Flatten(chunks)| <= size && |Flatten(chunks)| <= |body|
    && Flatten(chunks) == body[..|Flatten(chunks)|]
    && (forall i :: 0 <= i < |chunks| ==> 0 < |chunks[i]| <= chunk)
    && (forall i :: 0 <= i < |chunks| && (i < |chunks| - 1 || |Flatten(chunks)| < size) ==> |chunks[i]| == chunk)
  }

  datatype Upload = Done | NoSession | FailedAt(index: nat)

  /**
   * Uploads the body chunk by chunk from one shared reader. accepts says which chunk the server
   * takes; a chunk the reader cannot fill is refused. The chunks the server has taken come back too.
   */
  method ChunkedUpload(body: Bytes, size: int, session: Option<int>, accepts: nat -> bool)
    returns (result: Upload, chunks: seq<Bytes>)
    ensures result.NoSession? <==> session.None?
    ensures session.None? || size <= 0 ==> chunks == []
    ensures session.Some? && size <= 0 ==> result == Done
    ensures session.Some? && size > 0 ==> Partition(body, size, EffectiveChunk(size, session.value), chunks)
    ensures result.Done? && size > 0 ==>
              && size <= |body| && Flatten(chunks) == body[..size]
              && |chunks| == CeilDiv(size, EffectiveChunk(size, session.value))
    ensures session.Some? ==> ChunksFit(session.value, chunks)
    ensures result.FailedAt? ==>
              && result.index == |chunks| && |Flatten(chunks)| < size
              && (accepts(result.index) ==> |body| < size)
    ensures forall i :: 0 <= i < |chunks| ==> accepts(i)
  {
    chunks := [];
    if session.None? { return NoSession, []; }
    var chunk := EffectiveChunk(size, session.value);
    var remaining, index, read := size, 0, 0;
    while remaining > 0
      invariant Progress(body, size, chunk, chunks, remaining) && ChunksFit(session.value, chunks)
      invariant index == |chunks| && read == |Flatten(chunks)|
      invariant forall i :: 0 <= i < |chunks| ==> accepts(i)
    {
      var take := if remaining < chunk then remaining else chunk;
      if !accepts(index) || read + take > |body| { return FailedAt(index), chunks; }
      var next := body[read..read + take];
      ChunkStep(body, size, chunk, chunks, next);
      chunks := chunks + [next];
      ChunkLengths(body, size, session.value, chunks);
      remaining, read, index := remaining - take, read + take, index + 1;
    }
    if size > 0 { ChunkCount(body, size, chunk, chunks); }
    return Done, chunks;
  }

  /** Chunks are as long as the session says, only the last may be shorter; without a length there is one chunk at most. */
  predicate ChunksFit(length: int, chunks: seq<Bytes>) {
    if length <= 0 then |chunks| <= 1
    else forall i :: 0 <= i < |chunks| ==> 0 < |chunks[i]| <= length && (i < |chunks| - 1 ==> |chunks[i]| == length)
  }

  lemma ChunkLengths(body: Bytes, size: int, length: int, chunks: seq<Bytes>)
    requires size > 0 && Partition(body, size, EffectiveChunk(size, length), chunks)
    ensures ChunksFit(length, chunks)
  {
    if |chunks| >= 2 { LastTwo(chunks); }
  }

  lemma LastTwo(chunks: seq<Bytes>)
    requires |chunks| >= 2
    ensures |Flatten(chunks)| >= |chunks[|chunks| - 2]| + |chunks[|chunks| - 1]|
  {
    var front := chunks[..|chunks| - 1];
    assert Flatten(front) == Flatten(front[..|front| - 1]) + front[|front| - 1];
  }

  predicate Progress(body: Bytes, size: int, chunk: int, chunks: seq<Bytes>, remaining: int) {
    if size > 0 then remaining == size - |Flatten(chunks)| && Partition(body, size, chunk, chunks)
    else chunks == [] && remaining == size
  }

  function EffectiveChunk(size: int, sessionChunk: int): (chunk: int)
    ensures size > 0 ==> chunk > 0
  {
    if sessionChunk <= 0 then size else sessionChunk
  }

  lemma ChunkStep(body: Bytes, size: int, chunk: int, chunks: seq<Bytes>, next: Bytes)
    requires Partition(body, size, chunk, chunks) && |Flatten(chunks)| < size
    requires var read := |Flatten(chunks)|; var take := if size - read < chunk then size - read else chunk;
             read + take <= |body| && next == body[read..read + take]
    ensures Partition(body, size, chunk, chunks + [next])
    ensures |Flatten(chunks + [next])| == |Flatten(chunks)| + |next|
  {
    assert (chunks + [next])[..|chunks|] == chunks;
    assert Flatten(chunks + [next]) == Flatten(chunks) + next;
  }

  lemma OneMore(n: int, chunk: int)
    ensures (n + 1) * chunk == n * chunk + chunk
  {
  }

  lemma {:induction false} FullChunks(chunks: seq<Bytes>, chunk: int)
    requires forall i :: 0 <= i < |chunks| ==> |chunks[i]| == chunk
    ensures |Flatten(chunks)| == |chunks| * chunk
  {
    if chunks != [] {
      var n := |chunks| - 1;
      FullChunks(chunks[..n], chunk);
      OneMore(n, chunk);
    }
  }

  lemma ChunkCount(body: Bytes, size: int, chunk: int, chunks: seq<Bytes>)
    requires Partition(body, size, chunk, chunks) && size > 0 && |Flatten(chunks)| == size
    ensures |chunks| == CeilDiv(size, chunk)
  {
    var n := |chunks| - 1;
    FullChunks(chunks[..n], chunk);
    Ceil(size, chunk, n, |chunks[n]|);
  }

  lemma Ceil(size: int, chunk: int, n: nat, last: int)
    requires chunk > 0 && 0 < last <= chunk && size == n * chunk + last
    ensures CeilDiv(size, chunk) == n + 1
  {
    assert size + chunk - 1 == (n + 1) * chunk + (last - 1);
    DivUnique(size + chunk - 1, chunk, n + 1, last - 1);
  }

  lemma DivUnique(a: int, b: int, q: int, r: int)
    requires b > 0 && 0 <= r < b && a == q * b + r
    ensures a / b == q
  {
    var d := a / b - q;
    assert d * b == r - a % b;
    assert d >= 1 ==> d * b >= b;
    assert d <= -1 ==> d * b <= -b;
  }

  /** An object, with the size that the listing gave for it. */
  datatype Object = Object(bytes: Bytes, size: nat)

  /**
   * What an upload of the object stores if it goes through. A simple upload states the listed size
   * as its length, and the client refuses to send a body of another length; length 0 with a body
   * counts as unknown and sends all of it. A chunked upload reads as many bytes as were listed.
   */
  function Sent(o: Object): Option<Bytes> {
    if o.size < SIMPLE_UPLOAD_MAX_BYTES then
      if o.size == 0 || o.size == |o.bytes| then Some(o.bytes) else None
    else if o.size <= |o.bytes| then Some(o.bytes[..o.size])
    else None
  }

  lemma SentExactly(o: Object)
    requires Sent(o).Some?
    ensures Sent(o) == Some(o.bytes) <==> o.size < SIMPLE_UPLOAD_MAX_BYTES || o.size == |o.bytes|
    ensures o.size <= |o.bytes|
  {
    if o.size >= SIMPLE_UPLOAD_MAX_BYTES {
      var part := o.bytes[..o.size];
      assert |part| == o.size;
      if o.size == |o.bytes| { assert part == o.bytes; }
    }
  }

  /** An object of 50 MiB and one byte that was listed at 50 MiB loses its last byte. */
  lemma LongerThanListed()
    ensures var bytes: Bytes := seq(SIMPLE_UPLOAD_MAX_BYTES + 1, _ => 0);
            var sent := Sent(Object(bytes, SIMPLE_UPLOAD_MAX_BYTES));
            sent.Some? && sent.value == bytes[..SIMPLE_UPLOAD_MAX_BYTES] && sent.value != bytes
  {
    var bytes: Bytes := seq(SIMPLE_UPLOAD_MAX_BYTES + 1, _ => 0);
    assert |bytes[..SIMPLE_UPLOAD_MAX_BYTES]| == SIMPLE_UPLOAD_MAX_BYTES < |bytes|;
  }

  /** By either path an upload that goes through stores what the listed size says, and otherwise something failed. */
  method CopyObject(body: Option<Bytes>, size: nat, session: Option<int>, accepts: nat -> bool) returns (stored: Option<Bytes>)
    ensures stored.Some? ==> body.Some? && stored == Sent(Object(body.value, size))
    ensures stored.None? ==>
              || body.None? || Sent(Object(body.value, size)).None?
              || (size >= SIMPLE_UPLOAD_MAX_BYTES && session.None?) || exists i :: !accepts(i)
  {
    if body.None? { return None; }
    if size < SIMPLE_UPLOAD_MAX_BYTES {
      if !accepts(0) { return None; }
      return Sent(Object(body.value, size));
    }
    var result, chunks := ChunkedUpload(body.value, size, session, accepts);
    if !result.Done? { return None; }
    return Some(Flatten(chunks));
  }

  // ---------------------------------------------------------------------------------------------
  // Target names
  // ---------------------------------------------------------------------------------------------

  function TrimPrefix(s: string, prefix: string): string {
    if prefix <= s then s[|prefix|..] else s
  }

  function Target(dir: string, prefix: string, key: string): string {
    dir + "/" + TrimPrefix(TrimPrefix(key, prefix), "/")
  }

  /** Two keys collide exactly when their remainders differ by one slash in front. */
  lemma CollideExactly(dir: string, prefix: string, a: string, b: string)
    requires prefix <= a && prefix <= b && a != b
    ensures var ra, rb := a[|prefix|..], b[|prefix|..];
            Target(dir, prefix, a) == Target(dir, prefix, b) <==>
            (ra == "/" + rb && !("/" <= rb)) || (rb == "/" + ra && !("/" <= ra))
  {
    var ra, rb := a[|prefix|..], b[|prefix|..];
    assert a == prefix + ra && b == prefix + rb;
    var ta, tb := TrimPrefix(ra, "/"), TrimPrefix(rb, "/");
    assert Target(dir, prefix, a)[|dir| + 1..] == ta && Target(dir, prefix, b)[|dir| + 1..] == tb;
    assert "/" <= ra ==> ra == "/" + ta;
    assert "/" <= rb ==> rb == "/" + tb;
  }

  // ---------------------------------------------------------------------------------------------
  // The copy run
  // ---------------------------------------------------------------------------------------------

  datatype Outcome = Uploaded | Skipped | Failed | DryRun

  datatype Task = Waiting | Uploading | Ended(outcome: Outcome)

  datatype Job = Job(dir: string, prefix: string, dry: bool, objects: map<string, Object>, before: map<string, Bytes>)

  datatype Copy = Copy(listed: set<string>, tasks: map<string, Task>, store: map<string, Bytes>,
                       uploaded: nat, skipped: nat, errors: nat)

  /** Tasks run concurrently with each other and with the listing of further pages. */
  datatype Step =
    | ListPage(page: set<string>)
    | Check(key: string, failed: bool)                     // the existence check, or the dry-run exit before it
    | Store(key: string, stored: Bytes)
    | Fail(key: string, partial: Option<Bytes>)            // a failed upload may leave anything at its own target

  predicate Folder(key: string) {
    key != "" && key[|key| - 1] == '/'
  }

  function TargetOf(job: Job, key: string): string {
    Target(job.dir, job.prefix, key)
  }

  function StartCopy(job: Job): Copy {
    Copy({}, map[], job.before, 0, 0, 0)
  }

  predicate Enabled(job: Job, s: Copy, step: Step) {
    match step
    case ListPage(page) => page <= job.objects.Keys && page !! s.listed
    case Check(key, _) => key in s.tasks && s.tasks[key] == Waiting
    case Store(key, stored) =>
      key in s.tasks && s.tasks[key] == Uploading && key in job.objects && Some(stored) == Sent(job.objects[key])
    case Fail(key, _) => key in s.tasks && s.tasks[key] == Uploading
  }

  function Next(job: Job, s: Copy, step: Step): Copy
    requires Enabled(job, s, step)
  {
    match step
    case ListPage(page) =>
      s.(listed := s.listed + page, tasks := s.tasks + map key | key in page && !Folder(key) :: Waiting,
         skipped := s.skipped + |set key | key in page && Folder(key)|)
    case Check(key, failed) =>
      if job.dry then s.(tasks := s.tasks[key := Ended(DryRun)])
      else if !failed && TargetOf(job, key) in s.store then
        s.(tasks := s.tasks[key := Ended(Skipped)], skipped := s.skipped + 1)
      else s.(tasks := s.tasks[key := Uploading])
    case Store(key, stored) =>
      s.(tasks := s.tasks[key := Ended(Uploaded)], store := s.store[TargetOf(job, key) := stored],
         uploaded := s.uploaded + 1)
    case Fail(key, partial) =>
      s.(tasks := s.tasks[key := Ended(Failed)], errors := s.errors + 1,
         store := if partial.Some? then s.store[TargetOf(job, key) := partial.value] else s.store)
  }

  predicate Allowed(job: Job, s: Copy, run: seq<Step>)
    decreases |run|
  {
    run == [] || (Enabled(job, s, run[0]) && Allowed(job, Next(job, s, run[0]), run[1..]))
  }

  function After(job: Job, s: Copy, run: seq<Step>): Copy
    requires Allowed(job, s, run)
    decreases |run|
  {
    if run == [] then s else After(job, Next(job, s, run[0]), run[1..])
  }

  /** Every page was listed and every task has ended. */
  predicate Complete(job: Job, s: Copy) {
    s.listed == job.objects.Keys && forall key :: key in s.tasks ==> s.tasks[key].Ended?
  }

  predicate Alone(job: Job, key: string) {
    && key in job.objects && !Folder(key)
    && (forall k :: k in job.objects && k != key && !Folder(k) ==> TargetOf(job, k) != TargetOf(job, key))
  }

  function EndedWith(s: Copy, o: Outcome): set<string> {
    set key | key in s.tasks && s.tasks[key] == Ended(o)
  }

  function FoldersIn(keys: set<string>): set<string> {
    set key | key in keys && Folder(key)
  }

  /** Each counter is the number of keys that ended that way. */
  ghost predicate Counted(s: Copy) {
    && s.uploaded == |EndedWith(s, Uploaded)|
    && s.skipped == |EndedWith(s, Skipped)| + |FoldersIn(s.listed)|
    && s.errors == |EndedWith(s, Failed)|
  }

  ghost predicate TasksInv(job: Job, s: Copy) {
    && (forall key :: key in s.tasks <==> key in s.listed && !Folder(key))
    && s.listed <= job.objects.Keys
    && (job.dry ==> s.store == job.before)
    && (forall key :: key in s.tasks ==> (job.dry <==> s.tasks[key] == Ended(DryRun)) || s.tasks[key] == Waiting)
  }

  lemma TasksStep(job: Job, s: Copy, step: Step)
    requires TasksInv(job, s) && Enabled(job, s, step)
    ensures TasksInv(job, Next(job, s, step))
  {
  }

  lemma TaskEnds(s: Copy, s': Copy, key: string, o: Outcome, x: Outcome)
    requires key in s.tasks && !s.tasks[key].Ended? && s'.tasks == s.tasks[key := Ended(o)]
    ensures |EndedWith(s', x)| == |EndedWith(s, x)| + if x == o then 1 else 0
  {
    assert EndedWith(s', x) == if x == o then EndedWith(s, x) + {key} else EndedWith(s, x);
  }

  lemma TaskGoesOn(s: Copy, s': Copy, x: Outcome)
    requires forall key :: key in s.tasks ==> key in s'.tasks && (s.tasks[key].Ended? ==> s'.tasks[key] == s.tasks[key])
    requires forall key :: key in s'.tasks && s'.tasks[key].Ended? ==> key in s.tasks && s.tasks[key].Ended?
    ensures EndedWith(s', x) == EndedWith(s, x)
  {
  }

  lemma MoreFolders(listed: set<string>, page: set<string>)
    requires page !! listed
    ensures |FoldersIn(listed + page)| == |FoldersIn(listed)| + |set key | key in page && Folder(key)|
  {
    assert FoldersIn(listed + page) == FoldersIn(listed) + FoldersIn(page);
    assert FoldersIn(listed) !! FoldersIn(page);
  }

  lemma CountedPage(job: Job, s: Copy, page: set<string>)
    requires TasksInv(job, s) && Counted(s) && Enabled(job, s, ListPage(page))
    ensures Counted(Next(job, s, ListPage(page)))
  {
    var s' := Next(job, s, ListPage(page));
    TaskGoesOn(s, s', Uploaded);
    TaskGoesOn(s, s', Skipped);
    TaskGoesOn(s, s', Failed);
    MoreFolders(s.listed, page);
  }

  lemma CountedTask(job: Job, s: Copy, step: Step)
    requires TasksInv(job, s) && Counted(s) && Enabled(job, s, step) && !step.ListPage?
    ensures Counted(Next(job, s, step))
  {
    var s', key := Next(job, s, step), step.key;
    forall x ensures |EndedWith(s', x)| == |EndedWith(s, x)| + if s'.tasks[key] == Ended(x) then 1 else 0 {
      if s'.tasks[key].Ended? { TaskEnds(s, s', key, s'.tasks[key].outcome, x); } else { TaskGoesOn(s, s', x); }
    }
  }

  lemma {:induction false} CountedRun(job: Job, s: Copy, run: seq<Step>)
    requires TasksInv(job, s) && Counted(s) && Allowed(job, s, run)
    ensures TasksInv(job, After(job, s, run)) && Counted(After(job, s, run))
    decreases |run|
  {
    if run != [] {
      if run[0].ListPage? { CountedPage(job, s, run[0].page); } else { CountedTask(job, s, run[0]); }
      TasksStep(job, s, run[0]);
      CountedRun(job, Next(job, s, run[0]), run[1..]);
    }
  }

  lemma TaskEnded(job: Job, s: Copy, key: string)
    requires TasksInv(job, s) && Complete(job, s) && !job.dry && key in job.objects && !Folder(key)
    ensures key in s.tasks && s.tasks[key] in {Ended(Uploaded), Ended(Skipped), Ended(Failed)}
  {
    assert key in s.tasks;
    var o := s.tasks[key].outcome;
    assert s.tasks[key] == Ended(o) && o != DryRun;
    assert o == Uploaded || o == Skipped || o == Failed;
  }

  lemma KeysCounted(job: Job, s: Copy)
    requires TasksInv(job, s) && Complete(job, s) && !job.dry
    ensures job.objects.Keys == EndedWith(s, Uploaded) + EndedWith(s, Skipped) + EndedWith(s, Failed) + FoldersIn(s.listed)
  {
    forall key | key in job.objects && !Folder(key)
      ensures key in EndedWith(s, Uploaded) + EndedWith(s, Skipped) + EndedWith(s, Failed)
    {
      TaskEnded(job, s, key);
    }
  }

  lemma DisjointCards<T>(a: set<T>, b: set<T>, c: set<T>, d: set<T>)
    requires a !! b && a !! c && a !! d && b !! c && b !! d && c !! d
    ensures |a + b + c + d| == |a| + |b| + |c| + |d|
  {
    assert |a + b| == |a| + |b| && |a + b + c| == |a + b| + |c|;
  }

  lemma CountersAtEnd(job: Job, s: Copy)
    requires TasksInv(job, s) && Counted(s) && Complete(job, s) && !job.dry
    ensures s.uploaded + s.skipped + s.errors == |job.objects|
  {
    KeysCounted(job, s);
    DisjointCards(EndedWith(s, Uploaded), EndedWith(s, Skipped), EndedWith(s, Failed), FoldersIn(s.listed));
    assert |job.objects| == |job.objects.Keys|;
  }

  /** After a complete real run every listed key is counted exactly once. */
  lemma CountersCoverTheListing(job: Job, run: seq<Step>, s: Copy)
    requires Allowed(job, StartCopy(job), run) && s == After(job, StartCopy(job), run) && Complete(job, s) && !job.dry
    ensures s.uploaded + s.skipped + s.errors == |job.objects|
  {
    CountedRun(job, StartCopy(job), run);
    CountersAtEnd(job, s);
  }

  /** A dry run writes nothing; it skips the folders and does nothing else. */
  lemma DryCopyWritesNothing(job: Job, run: seq<Step>, s: Copy)
    requires Allowed(job, StartCopy(job), run) && s == After(job, StartCopy(job), run) && job.dry
    ensures s.store == job.before && s.uploaded == s.errors == 0 && s.skipped == |FoldersIn(s.listed)|
  {
    CountedRun(job, StartCopy(job), run);
    assert EndedWith(s, Uploaded) == EndedWith(s, Skipped) == EndedWith(s, Failed) == {};
  }

  lemma NoErrors(s: Copy, key: string)
    requires Counted(s) && s.errors == 0 && key in s.tasks
    ensures s.tasks[key] != Ended(Failed)
  {
    assert key !in EndedWith(s, Failed);
  }

  /** The target of a key of its own is empty until its upload ends, and then holds what was sent. */
  ghost predicate KeyInv(job: Job, s: Copy, key: string)
    requires key in job.objects
  {
    var target := TargetOf(job, key);
    if key !in s.tasks || !s.tasks[key].Ended? then target !in s.store
    else match s.tasks[key].outcome
      case Uploaded => target in s.store && Some(s.store[target]) == Sent(job.objects[key])
      case Skipped => false
      case Failed => true
      case DryRun => true
  }

  lemma CopyStep(job: Job, s: Copy, step: Step, key: string)
    requires TasksInv(job, s) && Enabled(job, s, step) && Alone(job, key) && KeyInv(job, s, key)
    ensures KeyInv(job, Next(job, s, step), key)
  {
  }

  lemma {:induction false} CopyRun(job: Job, s: Copy, run: seq<Step>, key: string)
    requires TasksInv(job, s) && Allowed(job, s, run) && Alone(job, key) && KeyInv(job, s, key)
    ensures KeyInv(job, After(job, s, run), key)
    decreases |run|
  {
    if run != [] {
      TasksStep(job, s, run[0]);
      CopyStep(job, s, run[0], key);
      CopyRun(job, Next(job, s, run[0]), run[1..], key);
    }
  }

  lemma CopyEnds(job: Job, s: Copy, key: string)
    requires TasksInv(job, s) && Counted(s) && Complete(job, s) && !job.dry && s.errors == 0
    requires key in job.objects && !Folder(key)
    ensures key in s.tasks && s.tasks[key] in {Ended(Uploaded), Ended(Skipped)}
  {
    TaskEnded(job, s, key);
    NoErrors(s, key);
  }

  /**
   * After a complete run without errors, a key with a target of its own, absent before, is there:
   * byte by byte if and only if it was listed below 50 MiB or at its size, and otherwise cut to the
   * listed size.
   */
  lemma FaithfulCopy(job: Job, run: seq<Step>, s: Copy, key: string)
    requires Allowed(job, StartCopy(job), run) && s == After(job, StartCopy(job), run) && Complete(job, s)
    requires !job.dry && s.errors == 0
    requires Alone(job, key) && TargetOf(job, key) !in job.before
    ensures var o, there := job.objects[key], Lookup(s.store, TargetOf(job, key));
            && there.Some? && there == Sent(o) && o.size <= |o.bytes|
            && (there == Some(o.bytes) <==> o.size < 52_428_800 || o.size == |o.bytes|)
  {
    CountedRun(job, StartCopy(job), run);
    CopyRun(job, StartCopy(job), run, key);
    CopyEnds(job, s, key);
    SentExactly(job.objects[key]);
  }

  // ---------------------------------------------------------------------------------------------
  // Files that were there before
  // ---------------------------------------------------------------------------------------------

  /** Every existence check for a key with this target was answered. */
  predicate Answered(job: Job, run: seq<Step>, t: string) {
    forall i :: 0 <= i < |run| ==> run[i].Check? && TargetOf(job, run[i].key) == t ==> !run[i].failed
  }

  /** The target holds what it held before; keys that map to it wait or were skipped, or nothing is written anyway. */
  ghost predicate Untouched(job: Job, s: Copy, t: string)
    requires t in job.before
  {
    && t in s.store && s.store[t] == job.before[t]
    && (forall key :: key in s.tasks && TargetOf(job, key) == t ==> s.tasks[key] in {Waiting, Ended(Skipped), Ended(DryRun)})
  }

  lemma UntouchedStep(job: Job, s: Copy, step: Step, t: string)
    requires Enabled(job, s, step) && t in job.before && Untouched(job, s, t)
    requires step.Check? && TargetOf(job, step.key) == t ==> !step.failed
    ensures Untouched(job, Next(job, s, step), t)
  {
  }

  lemma {:induction false} UntouchedRun(job: Job, s: Copy, run: seq<Step>, t: string)
    requires Allowed(job, s, run) && t in job.before && Untouched(job, s, t) && Answered(job, run, t)
    ensures Untouched(job, After(job, s, run), t)
    decreases |run|
  {
    if run != [] {
      UntouchedStep(job, s, run[0], t);
      assert forall i :: 0 <= i < |run[1..]| ==> run[1..][i] == run[i + 1];
      UntouchedRun(job, Next(job, s, run[0]), run[1..], t);
    }
  }

  /**
   * In every interleaving, a file that was there before keeps its bytes as long as the existence
   * checks for it are answered, and in a complete real run every key that maps to it is skipped.
   */
  lemma ExistingFilesAreKept(job: Job, run: seq<Step>, s: Copy, t: string)
    requires Allowed(job, StartCopy(job), run) && s == After(job, StartCopy(job), run)
    requires t in job.before && Answered(job, run, t)
    ensures t in s.store && s.store[t] == job.before[t]
    ensures Complete(job, s) && !job.dry ==>
              forall key :: key in job.objects && !Folder(key) && TargetOf(job, key) == t ==>
                key in s.tasks && s.tasks[key] == Ended(Skipped)
  {
    UntouchedRun(job, StartCopy(job), run, t);
    CountedRun(job, StartCopy(job), run);
    if Complete(job, s) && !job.dry {
      forall key | key in job.objects && !Folder(key) && TargetOf(job, key) == t
        ensures key in s.tasks && s.tasks[key] == Ended(Skipped)
      {
        TaskEnded(job, s, key);
      }
    }
  }

  lemma Prepended(job: Job, s: Copy, step: Step, rest: seq<Step>) returns (run: seq<Step>)
    requires Enabled(job, s, step) && Allowed(job, Next(job, s, step), rest)
    ensures Allowed(job, s, run) && After(job, s, run) == After(job, Next(job, s, step), rest)
  {
    run := [step] + rest;
    assert run[1..] == rest;
  }

  /** Without an answer the file is uploaded anyway: any existing file can be replaced by the object that maps to it. */
  lemma FailedCheckOverwrites(job: Job, key: string) returns (run: seq<Step>)
    requires !job.dry && key in job.objects && !Folder(key) && Sent(job.objects[key]).Some?
    ensures Allowed(job, StartCopy(job), run)
    ensures Lookup(After(job, StartCopy(job), run).store, TargetOf(job, key)) == Sent(job.objects[key])
  {
    var s0 := StartCopy(job);
    var s1 := Next(job, s0, ListPage({key}));
    var s2 := Next(job, s1, Check(key, true));
    run := Prepended(job, s2, Store(key, Sent(job.objects[key]).value), []);
    run := Prepended(job, s1, Check(key, true), run);
    run := Prepended(job, s0, ListPage({key}), run);
  }

  // ---------------------------------------------------------------------------------------------
  // Targets in general
  // ---------------------------------------------------------------------------------------------

  /** t holds what it held before, or what an upload of a key that maps to it sent. */
  ghost predicate Explained(job: Job, t: string, there: Bytes) {
    || Lookup(job.before, t) == Some(there)
    || exists k :: k in job.objects && !Folder(k) && TargetOf(job, k) == t && Sent(job.objects[k]) == Some(there)
  }

  /** Targets are explained while nothing has failed, and the targets of keys uploaded or skipped are filled. */
  ghost predicate StoreInv(job: Job, s: Copy) {
    && job.before.Keys <= s.store.Keys
    && (s.errors == 0 ==> forall t :: t in s.store ==> Explained(job, t, s.store[t]))
    && (forall k :: k in s.tasks && s.tasks[k] in {Ended(Uploaded), Ended(Skipped)} ==> TargetOf(job, k) in s.store)
  }

  lemma StoreStep(job: Job, s: Copy, step: Step)
    requires TasksInv(job, s) && Enabled(job, s, step) && StoreInv(job, s)
    ensures StoreInv(job, Next(job, s, step))
  {
    if step.Store? {
      assert Explained(job, TargetOf(job, step.key), step.stored);
    }
  }

  lemma {:induction false} StoreRun(job: Job, s: Copy, run: seq<Step>)
    requires TasksInv(job, s) && StoreInv(job, s) && Allowed(job, s, run)
    ensures StoreInv(job, After(job, s, run))
    decreases |run|
  {
    if run != [] {
      TasksStep(job, s, run[0]);
      StoreStep(job, s, run[0]);
      StoreRun(job, Next(job, s, run[0]), run[1..]);
    }
  }

  /** After such a run every key's target is filled and explained, shared targets included. */
  lemma EveryTargetFilled(job: Job, run: seq<Step>, s: Copy, key: string)
    requires Allowed(job, StartCopy(job), run) && s == After(job, StartCopy(job), run) && Complete(job, s)
    requires !job.dry && s.errors == 0 && key in job.objects && !Folder(key)
    ensures TargetOf(job, key) in s.store && Explained(job, TargetOf(job, key), s.store[TargetOf(job, key)])
  {
    CountedRun(job, StartCopy(job), run);
    StoreRun(job, StartCopy(job), run);
    CopyEnds(job, s, key);
  }

  /** Among listed keys, a key has its target to itself exactly when no other differs from it by that one slash. */
  lemma AloneExactly(job: Job, key: string)
    requires key in job.objects && !Folder(key)
    requires forall k :: k in job.objects ==> job.prefix <= k
    ensures Alone(job, key) <==> forall k :: k in job.objects && k != key && !Folder(k) ==>
              var r, rk := key[|job.prefix|..], k[|job.prefix|..];
              !(r == "/" + rk && !("/" <= rk)) && !(rk == "/" + r && !("/" <= r))
  {
    forall k | k in job.objects && k != key && !Folder(k)
      ensures var r, rk := key[|job.prefix|..], k[|job.prefix|..];
              TargetOf(job, k) == TargetOf(job, key) <==>
              (r == "/" + rk && !("/" <= rk)) || (rk == "/" + r && !("/" <= r))
    {
      CollideExactly(job.dir, job.prefix, k, key);
    }
  }

  lemma Trimmed(prefix: string, rest: string)
    ensures TrimPrefix(prefix + rest, prefix) == rest
  {
  }

  /** What follows the prefix, without one slash in front, goes below the target directory. */
  lemma TargetIs(dir: string, prefix: string, rest: string)
    ensures Target(dir, prefix, prefix + "/" + rest) == dir + "/" + rest
    ensures (rest == "" || rest[0] != '/') ==> Target(dir, prefix, prefix + rest) == dir + "/" + rest
  {
    assert prefix + "/" + rest == prefix + ("/" + rest);
    Trimmed(prefix, "/" + rest);
    Trimmed(prefix, rest);
    Trimmed("/", rest);
  }

  /** Folders are the keys that end in a slash. */
  lemma FolderIs(key: string)
    ensures Folder(key) <==> exists stem :: key == stem + "/"
  {
    if Folder(key) { assert key == key[..|key| - 1] + "/"; }
  }

  /** Under the prefix p the keys pa and p/a are both copied to a. */
  lemma TwoKeysOneTarget(dir: string)
    ensures Target(dir, "p", "pa") == Target(dir, "p", "p/a") == dir + "/" + "a"
  {
    assert "pa" == "p" + "a" && "p/a" == "p" + "/a" && "/a" == "/" + "a" && "a"[0] != '/';
    Trimmed("p", "a");
    Trimmed("p", "/a");
    Trimmed("/", "a");
  }
}
