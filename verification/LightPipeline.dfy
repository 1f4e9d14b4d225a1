/**
 * The way of a light change from the device to an open page, as a step system: notification queue,
 * status reader, broadcaster, stream and page.
 */
module LightPipeline {
  import opened Names
  import B = Broadcast

  const LIGHT_CHANGED_BUFFER := 32

  type Light = string
  type PageId = nat

  datatype Output = Output(on: bool, brightness: int)

  datatype LightStatus = LightStatus(id: Light, output: Output)

  /** The goroutine that reads changed lights and publishes their status. */
  datatype Worker = Idle | Reading(id: Light) | Holding(status: LightStatus) | Stopped

  /**
   * An open page: updates on the stream to it, and its rows. While got is Some the snapshot is still
   * being read and no row has been sent; a row is None when its status could not be fetched.
   */
  datatype Page = Page(pipe: seq<LightStatus>, got: Option<map<Light, Option<LightStatus>>>, rows: map<Light, Option<LightStatus>>)

  type Hub = B.Hub<PageId, LightStatus>

  datatype Sys = Sys(device: map<Light, Output>, inflight: multiset<Light>, queue: seq<Light>, worker: Worker,
                     hub: Hub, pages: map<PageId, Page>)

  datatype Step =
    | Change(l: Light, output: Output)        // the device switches and sends a notification
    | Announce(l: Light)                      // the device sends its full status, or a notification again
    | Notify(l: Light)                        // the notification arrives: queued, or dropped if the queue is full
    | Dequeue
    | Read(ok: bool)
    | Publish
    | Stop
    | Open(p: PageId)                         // the watch is subscribed, and its header sent
    | Forward(p: PageId)                      // the watch moves an update from its channel to the stream
    | SnapRead(p: PageId, l: Light, ok: bool)
    | SnapSend(p: PageId)
    | Update(p: PageId)                       // the page gets the next update of the stream
    | Leave(p: PageId)

  function StatusOf(s: Sys, l: Light): LightStatus
    requires l in s.device
  {
    LightStatus(l, s.device[l])
  }

  predicate Enabled(s: Sys, step: Step) {
    match step
    case Change(l, _) => l in s.device
    case Announce(l) => l in s.device
    case Notify(l) => l in s.inflight
    case Dequeue => s.worker.Idle? && s.queue != []
    case Read(_) => s.worker.Reading? && s.worker.id in s.device
    case Publish => s.worker.Holding?
    case Stop => s.worker.Idle?
    case Open(p) => p !in s.pages && p !in s.hub.chans
    case Forward(p) => p in s.pages && p in s.hub.chans && s.hub.chans[p].buf != []
    case SnapRead(p, l, _) => p in s.pages && s.pages[p].got.Some? && l in s.device && l !in s.pages[p].got.value
    case SnapSend(p) => p in s.pages && s.pages[p].got.Some? && s.pages[p].got.value.Keys == s.device.Keys
    case Update(p) => p in s.pages && s.pages[p].got.None? && s.pages[p].pipe != []
    case Leave(p) => p in s.pages && p in s.hub.chans
  }

  function Next(s: Sys, step: Step): Sys
    requires Enabled(s, step)
  {
    match step
    case Change(l, output) => s.(device := s.device[l := output], inflight := s.inflight + multiset{l})
    case Announce(l) => s.(inflight := s.inflight + multiset{l})
    case Notify(l) =>
      s.(inflight := s.inflight - multiset{l},
         queue := if |s.queue| < LIGHT_CHANGED_BUFFER then s.queue + [l] else s.queue)
    case Dequeue => s.(worker := Reading(s.queue[0]), queue := s.queue[1..])
    case Read(ok) => s.(worker := if ok then Holding(StatusOf(s, s.worker.id)) else Idle)
    case Publish => s.(worker := Idle, hub := B.Do(s.hub, B.Publish(s.worker.status)))
    case Stop => s.(worker := Stopped, hub := B.Do(s.hub, B.Close))
    case Open(p) => s.(hub := B.Do(s.hub, B.Subscribe(p)), pages := s.pages[p := Page([], Some(map[]), map[])])
    case Forward(p) =>
      s.(hub := B.Do(s.hub, B.Receive(p)),
         pages := s.pages[p := s.pages[p].(pipe := s.pages[p].pipe + [s.hub.chans[p].buf[0]])])
    case SnapRead(p, l, ok) =>
      s.(pages := s.pages[p := s.pages[p].(got := Some(s.pages[p].got.value[l := if ok then Some(StatusOf(s, l)) else None]))])
    case SnapSend(p) => s.(pages := s.pages[p := s.pages[p].(got := None, rows := s.pages[p].got.value)])
    case Update(p) =>
      var page := s.pages[p];
      s.(pages := s.pages[p := page.(pipe := page.pipe[1..], rows := page.rows[page.pipe[0].id := Some(page.pipe[0])])])
    case Leave(p) => s.(hub := B.Do(s.hub, B.Unsubscribe(p)))
  }

  /** Status reads succeed, and a notification is dropped only while its light is still queued. */
  predicate Lossless(s: Sys, step: Step) {
    match step
    case Notify(l) => |s.queue| < LIGHT_CHANGED_BUFFER || l in s.queue
    case Read(ok) => ok
    case SnapRead(_, _, ok) => ok
    case _ => true
  }

  predicate Allowed(s: Sys, run: seq<Step>)
    decreases |run|
  {
    run == [] || (Enabled(s, run[0]) && Allowed(Next(s, run[0]), run[1..]))
  }

  function After(s: Sys, run: seq<Step>): Sys
    requires Allowed(s, run)
    decreases |run|
  {
    if run == [] then s else After(Next(s, run[0]), run[1..])
  }

  predicate LosslessRun(s: Sys, run: seq<Step>)
    requires Allowed(s, run)
    decreases |run|
  {
    run == [] || (Lossless(s, run[0]) && LosslessRun(Next(s, run[0]), run[1..]))
  }

  function Start(device: map<Light, Output>): Sys {
    Sys(device, multiset{}, [], Idle, B.Fresh(), map[])
  }

  // ---------------------------------------------------------------------------------------------
  // What is known about the page's row for a light
  // ---------------------------------------------------------------------------------------------

  predicate Registered(s: Sys, p: PageId) {
    p in s.hub.subs && p in s.hub.chans && p in s.pages
  }

  /** Some read of the light is still to come. */
  predicate Pending(s: Sys, l: Light) {
    l in s.inflight || l in s.queue || s.worker == Reading(l)
  }

  function Held(s: Sys): seq<LightStatus> {
    if s.worker.Holding? then [s.worker.status] else []
  }

  /** The updates page p is going to get, oldest first. */
  function Coming(s: Sys, p: PageId): seq<LightStatus>
    requires Registered(s, p)
  {
    s.pages[p].pipe + s.hub.chans[p].buf + Held(s)
  }

  function Last(updates: seq<LightStatus>, l: Light): Option<LightStatus> {
    if updates == [] then None
    else if updates[|updates| - 1].id == l then Some(updates[|updates| - 1])
    else Last(updates[..|updates| - 1], l)
  }

  /** The row page p has for the light or, during the snapshot, is going to send; None if not yet read. */
  function Row(page: Page, l: Light): Option<Option<LightStatus>> {
    if page.got.Some? then Lookup(page.got.value, l) else Lookup(page.rows, l)
  }

  /** What page p will show for the light when it has drained its stream. */
  predicate Settled(s: Sys, p: PageId, l: Light)
    requires Registered(s, p) && l in s.device
  {
    match Last(Coming(s, p), l)
    case Some(v) => v == StatusOf(s, l)
    case None =>
      (s.pages[p].got.Some? && l !in s.pages[p].got.value) || Row(s.pages[p], l) == Some(Some(StatusOf(s, l)))
  }

  /** The page's row for l is on its way to the device's state. */
  predicate Covered(s: Sys, p: PageId, l: Light)
    requires Registered(s, p) && l in s.device
  {
    Pending(s, l) || Settled(s, p, l)
  }

  predicate Quiescent(s: Sys, p: PageId) {
    && Registered(s, p) && s.inflight == multiset{} && s.queue == [] && s.worker.Idle?
    && s.pages[p].got.None? && s.pages[p].pipe == [] && s.hub.chans[p].buf == []
  }

  /** The page shows the light's id with its full output. */
  predicate RowCurrent(s: Sys, p: PageId, l: Light) {
    p in s.pages && l in s.device && Lookup(s.pages[p].rows, l) == Some(Some(LightStatus(l, s.device[l])))
  }

  ghost predicate KnownQueued(s: Sys) {
    && (forall l :: l in s.inflight || l in s.queue ==> l in s.device)
    && (s.worker.Reading? ==> s.worker.id in s.device)
  }

  ghost predicate KnownRead(s: Sys) {
    forall p, l :: p in s.pages && s.pages[p].got.Some? && l in s.pages[p].got.value ==> l in s.device
  }

  /** Known lights only. */
  ghost predicate Known(s: Sys) {
    KnownQueued(s) && KnownRead(s)
  }

  ghost predicate Sane(s: Sys) {
    && Known(s)
    && B.Inv(s.hub)
    && (s.worker.Stopped? ==> s.hub.closed)
    && (forall p :: p in s.hub.subs ==> p in s.pages)
  }

  lemma QueuedStep(s: Sys, step: Step)
    requires KnownQueued(s) && Enabled(s, step)
    ensures KnownQueued(Next(s, step)) && Next(s, step).device.Keys == s.device.Keys
  {
  }

  lemma ReadStep(s: Sys, step: Step)
    requires KnownRead(s) && Enabled(s, step) && Next(s, step).device.Keys == s.device.Keys
    ensures KnownRead(Next(s, step))
  {
  }

  lemma KnownStep(s: Sys, step: Step)
    requires Known(s) && Enabled(s, step)
    ensures Known(Next(s, step)) && Next(s, step).device.Keys == s.device.Keys
  {
    QueuedStep(s, step);
    ReadStep(s, step);
  }

  lemma HubStep(s: Sys, step: Step)
    requires B.Inv(s.hub) && Enabled(s, step)
    ensures B.Inv(Next(s, step).hub)
  {
    match step
    case Publish => B.StepKeeps(s.hub, B.Publish(s.worker.status));
    case Stop => B.StepKeeps(s.hub, B.Close);
    case Open(p) => B.StepKeeps(s.hub, B.Subscribe(p));
    case Forward(p) => B.StepKeeps(s.hub, B.Receive(p));
    case Leave(p) => B.StepKeeps(s.hub, B.Unsubscribe(p));
    case _ =>
  }

  lemma SaneStep(s: Sys, step: Step)
    requires Sane(s) && Enabled(s, step)
    ensures Sane(Next(s, step))
  {
    KnownStep(s, step);
    HubStep(s, step);
  }

  // ---------------------------------------------------------------------------------------------
  // One step
  // ---------------------------------------------------------------------------------------------

  lemma LastAppend(updates: seq<LightStatus>, v: LightStatus, l: Light)
    ensures Last(updates + [v], l) == if v.id == l then Some(v) else Last(updates, l)
  {
    assert (updates + [v])[..|updates|] == updates;
  }

  lemma {:induction false} LastDropFirst(updates: seq<LightStatus>, l: Light)
    requires updates != []
    ensures Last(updates, l) ==
      if Last(updates[1..], l).Some? then Last(updates[1..], l)
      else if updates[0].id == l then Some(updates[0]) else None
  {
    if |updates| > 1 {
      assert updates[..|updates| - 1][1..] == updates[1..][..|updates| - 2];
      LastDropFirst(updates[..|updates| - 1], l);
    } else {
      assert updates[..0] == [] == updates[1..];
    }
  }

  /** A step of the pipeline itself: no light changes, and nothing is announced anew. */
  predicate Inner(step: Step) {
    !step.Change? && !step.Announce?
  }

  /** A step that leaves page p and the reader alone. */
  predicate Elsewhere(step: Step, p: PageId) {
    match step
    case Open(_) => true
    case Leave(_) => true
    case Forward(q) => q != p
    case SnapRead(q, _, _) => q != p
    case SnapSend(q) => q != p
    case Update(q) => q != p
    case _ => false
  }

  lemma ElsewhereStep(s: Sys, step: Step, p: PageId, l: Light)
    requires Enabled(s, step) && Elsewhere(step, p) && l in s.device
    requires Registered(s, p) && Registered(Next(s, step), p)
    ensures Covered(Next(s, step), p, l) <==> Covered(s, p, l)
  {
    assert Coming(Next(s, step), p) == Coming(s, p);
  }

  lemma SourceStep(s: Sys, step: Step, p: PageId, l: Light)
    requires Enabled(s, step) && Lossless(s, step) && l in s.device
    requires step.Change? || step.Announce? || step.Notify? || step.Dequeue?
    requires Registered(s, p)
    ensures Registered(Next(s, step), p)
    ensures Covered(s, p, l) ==> Covered(Next(s, step), p, l)
    ensures Inner(step) ==> (Covered(s, p, l) <==> Covered(Next(s, step), p, l))
  {
    assert Coming(Next(s, step), p) == Coming(s, p);
    if step.Dequeue? {
      assert s.queue == [s.queue[0]] + s.queue[1..];
    }
  }

  lemma ReaderStep(s: Sys, step: Step, p: PageId, l: Light)
    requires Enabled(s, step) && Lossless(s, step) && l in s.device
    requires step.Read? || step.Publish?
    requires Registered(s, p) && Registered(Next(s, step), p) && B.Inv(s.hub)
    ensures Covered(s, p, l) <==> Covered(Next(s, step), p, l)
  {
    var s' := Next(s, step);
    if step.Read? {
      assert Coming(s, p) == s.pages[p].pipe + s.hub.chans[p].buf;
      assert Coming(s', p) == Coming(s, p) + [s'.worker.status];
      LastAppend(Coming(s, p), s'.worker.status, l);
    } else {
      assert s'.hub.chans[p].buf == s.hub.chans[p].buf + [s.worker.status];
      assert Coming(s', p) == Coming(s, p);
    }
  }

  lemma PageStep(s: Sys, step: Step, p: PageId, l: Light)
    requires Enabled(s, step) && Lossless(s, step) && l in s.device
    requires step == Forward(p) || step == SnapSend(p) || step == Update(p) || (step.SnapRead? && step.p == p)
    requires Registered(s, p)
    ensures Registered(Next(s, step), p)
    ensures Covered(s, p, l) <==> Covered(Next(s, step), p, l)
  {
    if step.Update? { UpdateStep(s, p, l); } else { StreamStep(s, step, p, l); }
  }

  lemma UpdateStep(s: Sys, p: PageId, l: Light)
    requires Enabled(s, Update(p)) && Registered(s, p) && l in s.device
    ensures Registered(Next(s, Update(p)), p)
    ensures Covered(s, p, l) <==> Covered(Next(s, Update(p)), p, l)
  {
    assert Coming(Next(s, Update(p)), p) == Coming(s, p)[1..];
    LastDropFirst(Coming(s, p), l);
  }

  lemma StreamStep(s: Sys, step: Step, p: PageId, l: Light)
    requires Enabled(s, step) && Lossless(s, step) && l in s.device && Registered(s, p)
    requires step == Forward(p) || step == SnapSend(p) || (step.SnapRead? && step.p == p)
    ensures Registered(Next(s, step), p)
    ensures Covered(s, p, l) <==> Covered(Next(s, step), p, l)
  {
    assert Coming(Next(s, step), p) == Coming(s, p);
  }

  /** A lossless step keeps a registered page covered, and an inner one cannot make it so. */
  lemma CoveredStep(s: Sys, step: Step, p: PageId, l: Light)
    requires B.Inv(s.hub) && Enabled(s, step) && Lossless(s, step) && l in s.device
    requires Registered(s, p) && Registered(Next(s, step), p)
    ensures Covered(s, p, l) ==> Covered(Next(s, step), p, l)
    ensures Inner(step) ==> (Covered(s, p, l) <==> Covered(Next(s, step), p, l))
  {
    if step.Change? || step.Announce? || step.Notify? || step.Dequeue? {
      SourceStep(s, step, p, l);
    } else if step.Read? || step.Publish? {
      ReaderStep(s, step, p, l);
    } else if Elsewhere(step, p) {
      ElsewhereStep(s, step, p, l);
    } else if !step.Stop? {
      PageStep(s, step, p, l);
    }
  }

  // ---------------------------------------------------------------------------------------------
  // Whole runs
  // ---------------------------------------------------------------------------------------------

  lemma {:induction false} NeverReturns(s: Sys, p: PageId, run: seq<Step>)
    requires Allowed(s, run) && p in s.pages && p !in s.hub.subs
    ensures !Registered(After(s, run), p)
    decreases |run|
  {
    if run != [] { NeverReturns(Next(s, run[0]), p, run[1..]); }
  }

  lemma {:induction false} CoveredRun(s: Sys, run: seq<Step>, p: PageId, l: Light)
    requires Sane(s) && Allowed(s, run) && LosslessRun(s, run) && l in s.device
    requires Registered(s, p) && Registered(After(s, run), p)
    ensures l in After(s, run).device
    ensures Covered(s, p, l) ==> Covered(After(s, run), p, l)
    ensures (forall step :: step in run ==> Inner(step)) ==> (Covered(s, p, l) <==> Covered(After(s, run), p, l))
    decreases |run|
  {
    if run != [] {
      var s' := Next(s, run[0]);
      SaneStep(s, run[0]);
      if !Registered(s', p) { NeverReturns(s', p, run[1..]); }
      CoveredStep(s, run[0], p, l);
      CoveredRun(s', run[1..], p, l);
    }
  }

  lemma QuiescentRow(s: Sys, p: PageId, l: Light)
    requires Quiescent(s, p) && l in s.device
    ensures Covered(s, p, l) <==> RowCurrent(s, p, l)
  {
  }
}
