/** When an open page ends up showing the state of every light, and when it does not. */
module LightConvergence {
  import opened Names
  import opened LightPipeline
  import opened LightHistory

  // ---------------------------------------------------------------------------------------------
  // Every registered page can be drained
  // ---------------------------------------------------------------------------------------------

  function Rank(w: Worker): nat {
    match w
    case Reading(_) => 2
    case Holding(_) => 1
    case _ => 0
  }

  ghost function Unread(s: Sys, p: PageId): set<Light>
    requires p in s.pages
  {
    if s.pages[p].got.Some? then s.device.Keys - s.pages[p].got.value.Keys else {}
  }

  function SnapRank(s: Sys, p: PageId): nat
    requires p in s.pages
  {
    if s.pages[p].got.Some? then 1 else 0
  }

  /** The next step towards quiescence: the page first, then the reader, then the queue. */
  ghost function DrainStep(s: Sys, p: PageId): Step
    requires Registered(s, p) && !Quiescent(s, p) && !s.worker.Stopped?
  {
    if Unread(s, p) != {} then (var l :| l in Unread(s, p); SnapRead(p, l, true))
    else if s.pages[p].got.Some? then SnapSend(p)
    else if s.pages[p].pipe != [] then Update(p)
    else if s.hub.chans[p].buf != [] then Forward(p)
    else if s.worker.Holding? then Publish
    else if s.worker.Reading? then Read(true)
    else if s.queue != [] then Dequeue
    else (var l :| l in s.inflight; Notify(l))
  }

  lemma DrainStepWorks(s: Sys, p: PageId)
    requires Sane(s) && Registered(s, p) && !Quiescent(s, p)
    ensures var step := DrainStep(s, p);
            && Enabled(s, step) && Lossless(s, step) && Inner(step)
            && Registered(Next(s, step), p)
  {
    if Unread(s, p) == {} && s.pages[p].got.Some? {
      forall l ensures l in s.pages[p].got.value <==> l in s.device {
        assert l !in Unread(s, p);
      }
    }
  }

  lemma DrainProgress(s: Sys, p: PageId)
    requires Registered(s, p) && !Quiescent(s, p) && !s.worker.Stopped?
    requires Enabled(s, DrainStep(s, p)) && Registered(Next(s, DrainStep(s, p)), p)
    ensures var s' := Next(s, DrainStep(s, p));
            (|s.inflight|, |s.queue|, Rank(s.worker), |s.hub.chans[p].buf|, |s.pages[p].pipe|, |Unread(s, p)|, SnapRank(s, p)
             decreases to
             |s'.inflight|, |s'.queue|, Rank(s'.worker), |s'.hub.chans[p].buf|, |s'.pages[p].pipe|, |Unread(s', p)|,
             SnapRank(s', p))
  {
    var step := DrainStep(s, p);
    if step.SnapRead? {
      assert Unread(Next(s, step), p) == Unread(s, p) - {step.l};
    }
  }

  lemma {:induction false} Drain(s: Sys, p: PageId) returns (run: seq<Step>)
    requires Sane(s) && Registered(s, p)
    ensures Allowed(s, run) && LosslessRun(s, run) && Quiescent(After(s, run), p)
    ensures forall step :: step in run ==> Inner(step)
    decreases |s.inflight|, |s.queue|, Rank(s.worker), |s.hub.chans[p].buf|, |s.pages[p].pipe|, |Unread(s, p)|, SnapRank(s, p)
  {
    if Quiescent(s, p) { return []; }
    var step := DrainStep(s, p);
    DrainStepWorks(s, p);
    SaneStep(s, step);
    DrainProgress(s, p);
    var s' := Next(s, step);
    var rest := Drain(s', p);
    run := [step] + rest;
    Prepend(s, step, rest);
  }

  lemma Prepend(s: Sys, step: Step, rest: seq<Step>)
    requires Enabled(s, step) && Allowed(Next(s, step), rest)
    ensures Allowed(s, [step] + rest) && After(s, [step] + rest) == After(Next(s, step), rest)
    ensures Lossless(s, step) && LosslessRun(Next(s, step), rest) ==> LosslessRun(s, [step] + rest)
  {
    assert ([step] + rest)[1..] == rest;
  }

  // ---------------------------------------------------------------------------------------------
  // The exact condition
  // ---------------------------------------------------------------------------------------------

  /** However the pipeline goes on without loss, a drained page has the light's current row. */
  ghost predicate Converges(s: Sys, p: PageId, l: Light) {
    forall run :: Allowed(s, run) && LosslessRun(s, run) && Quiescent(After(s, run), p) ==> RowCurrent(After(s, run), p, l)
  }

  /** Being covered is not only enough for a page to converge on a light, it is necessary. */
  lemma ConvergesExactlyWhenCovered(s: Sys, p: PageId, l: Light)
    requires Sane(s) && Registered(s, p) && l in s.device
    ensures Converges(s, p, l) <==> Covered(s, p, l)
  {
    if Covered(s, p, l) {
      forall run | Allowed(s, run) && LosslessRun(s, run) && Quiescent(After(s, run), p)
        ensures RowCurrent(After(s, run), p, l)
      {
        CoveredRun(s, run, p, l);
        QuiescentRow(After(s, run), p, l);
      }
    } else {
      var run := Drain(s, p);
      CoveredRun(s, run, p, l);
      QuiescentRow(After(s, run), p, l);
    }
  }

  /** A notification dropped at a full queue is made up for in exactly these states. */
  lemma DropConverges(s: Sys, p: PageId, l: Light)
    requires Sane(s) && Registered(s, p) && l in s.device
    requires l in s.inflight && |s.queue| >= LIGHT_CHANGED_BUFFER
    ensures Converges(Next(s, Notify(l)), p, l) <==>
            l in s.queue || s.inflight[l] > 1 || s.worker == Reading(l) || Settled(s, p, l)
  {
    var s' := Next(s, Notify(l));
    SaneStep(s, Notify(l));
    ConvergesExactlyWhenCovered(s', p, l);
    assert Coming(s', p) == Coming(s, p);
  }

  /** A failed status read is made up for in exactly these states. */
  lemma FailedReadConverges(s: Sys, p: PageId)
    requires Sane(s) && Registered(s, p) && s.worker.Reading?
    ensures var l := s.worker.id;
            Converges(Next(s, Read(false)), p, l) <==> l in s.queue || l in s.inflight || Settled(s, p, l)
  {
    var s' := Next(s, Read(false));
    SaneStep(s, Read(false));
    ConvergesExactlyWhenCovered(s', p, s.worker.id);
    assert Coming(s', p) == Coming(s, p);
  }

  // ---------------------------------------------------------------------------------------------
  // Convergence from the start
  // ---------------------------------------------------------------------------------------------

  /** What the reader holds is current, or will be read again. */
  predicate HeldCurrent(s: Sys) {
    s.worker.Holding? ==>
      var v := s.worker.status;
      v.id in s.device && (Pending(s, v.id) || v == StatusOf(s, v.id))
  }

  ghost predicate AllCovered(s: Sys) {
    Sane(s) && HeldCurrent(s) && forall p, l :: Registered(s, p) && l in s.device ==> Covered(s, p, l)
  }

  /** A page subscribes before it reads anything, so it starts out covered. */
  lemma OpenCovers(s: Sys, p: PageId, l: Light)
    requires Sane(s) && HeldCurrent(s) && Enabled(s, Open(p)) && l in s.device
    requires Registered(Next(s, Open(p)), p)
    ensures Covered(Next(s, Open(p)), p, l)
  {
    var s' := Next(s, Open(p));
    assert Coming(s', p) == Held(s);
    if s.worker.Holding? { LastAppend([], s.worker.status, l); }
    assert [] + Held(s) == Held(s);
  }

  lemma AllCoveredStep(s: Sys, step: Step)
    requires AllCovered(s) && Enabled(s, step) && Lossless(s, step)
    ensures AllCovered(Next(s, step))
  {
    var s' := Next(s, step);
    SaneStep(s, step);
    KnownStep(s, step);
    HeldStep(s, step);
    forall p, l | Registered(s', p) && l in s'.device ensures Covered(s', p, l) { NextCovered(s, step, p, l); }
  }

  lemma HeldStep(s: Sys, step: Step)
    requires Known(s) && HeldCurrent(s) && Enabled(s, step) && Lossless(s, step)
    ensures HeldCurrent(Next(s, step))
  {
  }

  lemma NextCovered(s: Sys, step: Step, p: PageId, l: Light)
    requires AllCovered(s) && Enabled(s, step) && Lossless(s, step) && Registered(Next(s, step), p) && l in s.device
    ensures Covered(Next(s, step), p, l)
  {
    if Registered(s, p) {
      CoveredStep(s, step, p, l);
    } else {
      assert step == Open(p);
      OpenCovers(s, p, l);
    }
  }

  lemma {:induction false} AllCoveredRun(s: Sys, run: seq<Step>)
    requires AllCovered(s) && Allowed(s, run) && LosslessRun(s, run)
    ensures AllCovered(After(s, run))
    decreases |run|
  {
    if run != [] {
      AllCoveredStep(s, run[0]);
      AllCoveredRun(Next(s, run[0]), run[1..]);
    }
  }

  /**
   * Convergence: in every lossless run, a drained page that is still open shows every light with the
   * output that its last change gave it.
   */
  lemma Convergence(device: map<Light, Output>, run: seq<Step>, p: PageId, l: Light)
    requires Allowed(Start(device), run) && LosslessRun(Start(device), run)
    requires Quiescent(After(Start(device), run), p) && l in device
    ensures Lookup(After(Start(device), run).pages[p].rows, l) == Some(Some(LightStatus(l, LastOutput(device[l], run, l))))
  {
    AllCoveredRun(Start(device), run);
    DeviceFollowsChanges(Start(device), run, l);
    QuiescentRow(After(Start(device), run), p, l);
  }

  // ---------------------------------------------------------------------------------------------
  // A drop that loses a change
  // ---------------------------------------------------------------------------------------------

  const FIRST := "plug103"
  const SECOND := "plug104"
  const OFF := Output(false, 0)
  const ON := Output(true, 0)

  predicate ReadsSucceed(run: seq<Step>) {
    forall step :: step in run ==> (step.Read? ==> step.ok) && (step.SnapRead? ==> step.ok)
  }

  /** Page 0 is up to date, and only the first light is queued. */
  ghost predicate Ready(s: Sys) {
    && Sane(s) && Registered(s, 0) && s.device == map[FIRST := OFF, SECOND := OFF]
    && s.inflight == multiset{} && s.worker == Idle && (forall l :: l in s.queue ==> l == FIRST)
    && s.pages[0] == Page([], None, map[FIRST := Some(LightStatus(FIRST, OFF)), SECOND := Some(LightStatus(SECOND, OFF))])
    && s.hub.chans[0].buf == []
  }

  /** A run with successful reads after which page 0 is at rest with a stale row. */
  ghost predicate Loses(s: Sys, run: seq<Step>) {
    && Allowed(s, run) && ReadsSucceed(run)
    && Quiescent(After(s, run), 0) && SECOND in After(s, run).device && !RowCurrent(After(s, run), 0, SECOND)
  }

  lemma LosesLater(s: Sys, step: Step, rest: seq<Step>) returns (run: seq<Step>)
    requires Enabled(s, step) && ReadsSucceed([step]) && Loses(Next(s, step), rest)
    ensures Loses(s, run)
  {
    run := [step] + rest;
    Prepend(s, step, rest);
    assert step in [step];
  }

  lemma LosesWhenFull(s: Sys) returns (run: seq<Step>)
    requires Sane(s) && Registered(s, 0) && SECOND in s.device && !Covered(s, 0, SECOND)
    ensures Loses(s, run)
  {
    run := Drain(s, 0);
    DrainReads(s, run);
    CoveredRun(s, run, 0, SECOND);
    QuiescentRow(After(s, run), 0, SECOND);
  }

  lemma {:induction false} LosesFrom(s: Sys, room: nat) returns (run: seq<Step>)
    requires Ready(s) && |s.queue| + room == LIGHT_CHANGED_BUFFER
    ensures Loses(s, run)
    decreases room
  {
    var step := if room > 0 then Announce(FIRST) else Change(SECOND, ON);
    var l := if room > 0 then FIRST else SECOND;
    var s1 := Next(s, step);
    var s2 := Next(s1, Notify(l));
    SaneStep(s, step);
    SaneStep(s1, Notify(l));
    assert s2.inflight == multiset{};
    if room > 0 {
      run := LosesFrom(s2, room - 1);
    } else {
      assert !Covered(s2, 0, SECOND) by { assert Coming(s2, 0) == []; }
      run := LosesWhenFull(s2);
    }
    run := LosesLater(s1, Notify(l), run);
    run := LosesLater(s, step, run);
  }

  lemma {:induction false} DrainReads(s: Sys, run: seq<Step>)
    requires Allowed(s, run) && LosslessRun(s, run)
    ensures ReadsSucceed(run)
    decreases |run|
  {
    if run != [] {
      DrainReads(Next(s, run[0]), run[1..]);
      assert run == [run[0]] + run[1..];
    }
  }

  lemma ReadyAtLast(s0: Sys, s1: Sys, s2: Sys, s3: Sys, s4: Sys)
    requires s0 == Start(map[FIRST := OFF, SECOND := OFF])
    requires Enabled(s0, Open(0)) && s1 == Next(s0, Open(0))
    requires Enabled(s1, SnapRead(0, FIRST, true)) && s2 == Next(s1, SnapRead(0, FIRST, true))
    requires Enabled(s2, SnapRead(0, SECOND, true)) && s3 == Next(s2, SnapRead(0, SECOND, true))
    requires Enabled(s3, SnapSend(0)) && s4 == Next(s3, SnapSend(0))
    ensures Ready(s4)
  {
    SaneStep(s0, Open(0));
    SaneStep(s1, SnapRead(0, FIRST, true));
    SaneStep(s2, SnapRead(0, SECOND, true));
    SaneStep(s3, SnapSend(0));
  }

  lemma LosesOnceOpen(s0: Sys, s1: Sys) returns (run: seq<Step>)
    requires s0 == Start(map[FIRST := OFF, SECOND := OFF]) && Enabled(s0, Open(0)) && s1 == Next(s0, Open(0))
    ensures Loses(s1, run)
  {
    var s2 := Next(s1, SnapRead(0, FIRST, true));
    var s3 := Next(s2, SnapRead(0, SECOND, true));
    var s4 := Next(s3, SnapSend(0));
    ReadyAtLast(s0, s1, s2, s3, s4);
    run := LosesFrom(s4, LIGHT_CHANGED_BUFFER);
    run := LosesLater(s3, SnapSend(0), run);
    run := LosesLater(s2, SnapRead(0, SECOND, true), run);
    run := LosesLater(s1, SnapRead(0, FIRST, true), run);
  }

  /** Without the condition on drops convergence fails: a full queue of one light loses another's change. */
  lemma DropLosesAChange() returns (device: map<Light, Output>, run: seq<Step>)
    ensures Allowed(Start(device), run) && ReadsSucceed(run)
    ensures Quiescent(After(Start(device), run), 0) && SECOND in device && !RowCurrent(After(Start(device), run), 0, SECOND)
  {
    device := map[FIRST := OFF, SECOND := OFF];
    var s := Start(device);
    run := LosesOnceOpen(s, Next(s, Open(0)));
    run := LosesLater(s, Open(0), run);
  }
}
