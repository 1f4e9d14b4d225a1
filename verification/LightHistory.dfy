/** What the state of the pipeline is in terms of the steps that led to it. */
module LightHistory {
  import opened Names
  import opened LightPipeline

  /** The output that the last change of the light gave it. */
  function LastOutput(output: Output, run: seq<Step>, l: Light): Output
    decreases |run|
  {
    if run == [] then output
    else LastOutput(if run[0].Change? && run[0].l == l then run[0].output else output, run[1..], l)
  }

  /** A light is what its last change made it, and no other step changes it. */
  lemma {:induction false} DeviceFollowsChanges(s: Sys, run: seq<Step>, l: Light)
    requires Allowed(s, run)
    ensures l in After(s, run).device <==> l in s.device
    ensures l in s.device ==> After(s, run).device[l] == LastOutput(s.device[l], run, l)
    decreases |run|
  {
    if run != [] { DeviceFollowsChanges(Next(s, run[0]), run[1..], l); }
  }

  // ---------------------------------------------------------------------------------------------
  // The notification queue
  // ---------------------------------------------------------------------------------------------

  /** The notifications that found room in the queue, in the order in which they arrived. */
  function Queued(s: Sys, run: seq<Step>): seq<Light>
    requires Allowed(s, run)
    decreases |run|
  {
    if run == [] then []
    else (if run[0].Notify? && |s.queue| < 32 then [run[0].l] else []) + Queued(Next(s, run[0]), run[1..])
  }

  /** The lights that the reader started to read, in order. */
  function Taken(s: Sys, run: seq<Step>): seq<Light>
    requires Allowed(s, run)
    decreases |run|
  {
    if run == [] then []
    else
      var s' := Next(s, run[0]);
      (if run[0].Dequeue? && s'.worker.Reading? then [s'.worker.id] else []) + Taken(s', run[1..])
  }

  lemma QueueStep(s: Sys, step: Step)
    requires Enabled(s, step)
    ensures var s' := Next(s, step);
            s.queue + (if step.Notify? && |s.queue| < 32 then [step.l] else []) ==
            (if step.Dequeue? && s'.worker.Reading? then [s'.worker.id] else []) + s'.queue
    ensures |s.queue| <= 32 ==> |Next(s, step).queue| <= 32
  {
  }

  lemma Swap(q: seq<Light>, arrived: seq<Light>, more: seq<Light>, taken: seq<Light>, q': seq<Light>,
             later: seq<Light>, end: seq<Light>)
    requires q + arrived == taken + q' && q' + more == later + end
    ensures q + (arrived + more) == taken + later + end
  {
    assert q + (arrived + more) == (q + arrived) + more;
    assert taken + q' + more == taken + (q' + more);
    assert taken + later + end == taken + (later + end);
  }

  /** Of at most 32 pending notifications, the reader takes the oldest; none is taken twice or left out. */
  lemma {:induction false} QueueIsFirstInFirstOut(s: Sys, run: seq<Step>)
    requires Allowed(s, run)
    ensures s.queue + Queued(s, run) == Taken(s, run) + After(s, run).queue
    ensures |s.queue| <= 32 ==> |After(s, run).queue| <= 32
    decreases |run|
  {
    if run == [] {
      assert s.queue + [] == [] + s.queue;
    } else {
      var step, s', rest := run[0], Next(s, run[0]), run[1..];
      QueueStep(s, step);
      QueueIsFirstInFirstOut(s', rest);
      Swap(s.queue, if step.Notify? && |s.queue| < 32 then [step.l] else [], Queued(s', rest),
           if step.Dequeue? && s'.worker.Reading? then [s'.worker.id] else [], s'.queue, Taken(s', rest), After(s', rest).queue);
    }
  }

  // ---------------------------------------------------------------------------------------------
  // What is published
  // ---------------------------------------------------------------------------------------------

  /** The full status of each light at the moment it was read with success, in order. */
  function StatusesRead(s: Sys, run: seq<Step>): seq<LightStatus>
    requires Allowed(s, run)
    decreases |run|
  {
    if run == [] then []
    else (if run[0] == Read(true) then [LightStatus(s.worker.id, s.device[s.worker.id])] else [])
         + StatusesRead(Next(s, run[0]), run[1..])
  }

  lemma PublishStep(s: Sys, step: Step)
    requires Enabled(s, step)
    ensures var s' := Next(s, step);
            s'.hub.log + Held(s') ==
            s.hub.log + Held(s) + if step == Read(true) then [LightStatus(s.worker.id, s.device[s.worker.id])] else []
  {
  }

  lemma Chain(a: seq<LightStatus>, b: seq<LightStatus>, c: seq<LightStatus>)
    ensures a + b + c == a + (b + c)
  {
  }

  /** Every status read is published once, in the order of the reads; the one in the reader's hands comes last. */
  lemma {:induction false} EveryReadIsPublished(s: Sys, run: seq<Step>)
    requires Allowed(s, run)
    ensures After(s, run).hub.log + Held(After(s, run)) == s.hub.log + Held(s) + StatusesRead(s, run)
    decreases |run|
  {
    if run != [] {
      var s', rest := Next(s, run[0]), run[1..];
      PublishStep(s, run[0]);
      EveryReadIsPublished(s', rest);
      Chain(s.hub.log + Held(s), if run[0] == Read(true) then [LightStatus(s.worker.id, s.device[s.worker.id])] else [],
            StatusesRead(s', rest));
    }
  }

  // ---------------------------------------------------------------------------------------------
  // The end
  // ---------------------------------------------------------------------------------------------

  /** A page that has left never gets an update again. */
  lemma LeftForGood(s: Sys, p: PageId, run: seq<Step>)
    requires Enabled(s, Leave(p)) && Allowed(Next(s, Leave(p)), run)
    ensures !Registered(After(Next(s, Leave(p)), run), p)
  {
    NeverReturns(Next(s, Leave(p)), p, run);
  }

  lemma {:induction false} StaysStopped(s: Sys, run: seq<Step>)
    requires Allowed(s, run) && s.worker.Stopped? && s.hub.closed && s.hub.subs == {}
    ensures var s' := After(s, run); s'.worker.Stopped? && s'.hub.closed && s'.hub.subs == {} && s'.hub.log == s.hub.log
    decreases |run|
  {
    if run != [] { StaysStopped(Next(s, run[0]), run[1..]); }
  }

  /** Once the reader has stopped, nothing is published and no page is registered, whoever opens one. */
  lemma StoppedForGood(s: Sys, run: seq<Step>, p: PageId)
    requires Enabled(s, Stop) && Allowed(Next(s, Stop), run)
    ensures var s' := After(Next(s, Stop), run); !Registered(s', p) && s'.hub.log == s.hub.log
  {
    StaysStopped(Next(s, Stop), run);
  }
}
