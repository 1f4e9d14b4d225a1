/** Requests over MQTT: concurrent calls, each waiting for the reply on a topic of its own. */
module MqttReplies {
  import opened Names

  datatype Packet = Packet(topic: string, payload: string)

  /** The topic a call subscribes to; ids are decimal numbers, so they have no slash. */
  function ReplyTopic(device: string, client: string, id: string): string {
    device + "/" + client + "/" + id + "/rpc"
  }

  /** Two calls share a reply topic exactly when they are calls to one device under one id. */
  lemma ReplyTopicsDistinct(device: string, id: string, device': string, id': string, client: string)
    requires '/' !in id && '/' !in id'
    ensures ReplyTopic(device, client, id) == ReplyTopic(device', client, id') <==> device == device' && id == id'
  {
    if ReplyTopic(device, client, id) == ReplyTopic(device', client, id') {
      var a, b := device + "/" + client, device' + "/" + client;
      assert (a + "/" + id + "/rpc")[..|a + "/" + id|] == a + "/" + id;
      assert (b + "/" + id' + "/rpc")[..|b + "/" + id'|] == b + "/" + id';
      LastSegment(a, b, id, id');
      assert a[..|device|] == device && b[..|device'|] == device';
    }
  }

  // ---------------------------------------------------------------------------------------------
  // The calls in flight
  // ---------------------------------------------------------------------------------------------

  /** Leaving: the result is decided and the deferred clean-up is running. None is an error. */
  datatype Phase = Subscribing | Publishing | Awaiting | Leaving(result: Option<Packet>) | Returned(result: Option<Packet>)

  /** since is when the call's handler was added. */
  datatype Call = Call(device: string, since: nat, phase: Phase)

  /** A registered callback: the topic it compares with and the one-element channel it sends to. */
  datatype Handler = Handler(topic: string, slot: Option<Packet>)

  datatype Sys = Sys(client: string, calls: map<string, Call>, handlers: map<string, Handler>, log: seq<Packet>)

  datatype Step =
    | Begin(id: string, device: string)
    | Subscribed(id: string, ok: bool)
    | Published(id: string, ok: bool)
    | Take(id: string)
    | TimeOut(id: string)
    | Return(id: string)                      // the deferred removal of the handler
    | Deliver(packet: Packet)                 // also a reply delivered again

  function Reply(s: Sys, id: string): string
    requires id in s.calls
  {
    ReplyTopic(s.calls[id].device, s.client, id)
  }

  predicate Enabled(s: Sys, step: Step) {
    match step
    case Begin(id, _) => id !in s.calls && '/' !in id
    case Subscribed(id, _) => id in s.calls && s.calls[id].phase == Subscribing
    case Published(id, _) => id in s.calls && s.calls[id].phase == Publishing
    case Take(id) => id in s.calls && s.calls[id].phase == Awaiting && id in s.handlers && s.handlers[id].slot.Some?
    case TimeOut(id) => id in s.calls && s.calls[id].phase == Awaiting
    case Return(id) => id in s.calls && s.calls[id].phase.Leaving?
    case Deliver(_) => true
  }

  /** A handler ignores other topics, and a send to a full channel is given up. */
  function Offered(h: Handler, packet: Packet): Handler {
    if packet.topic == h.topic && h.slot.None? then h.(slot := Some(packet)) else h
  }

  function Moved(s: Sys, id: string, phase: Phase): Sys
    requires id in s.calls
  {
    s.(calls := s.calls[id := s.calls[id].(phase := phase)])
  }

  function Next(s: Sys, step: Step): Sys
    requires Enabled(s, step)
  {
    match step
    case Begin(id, device) =>
      s.(calls := s.calls[id := Call(device, |s.log|, Subscribing)],
         handlers := s.handlers[id := Handler(ReplyTopic(device, s.client, id), None)])
    case Subscribed(id, ok) => Moved(s, id, if ok then Publishing else Leaving(None))
    case Published(id, ok) => Moved(s, id, if ok then Awaiting else Leaving(None))
    case Take(id) =>
      Moved(s, id, Leaving(s.handlers[id].slot)).(handlers := s.handlers[id := s.handlers[id].(slot := None)])
    case TimeOut(id) => Moved(s, id, Leaving(None))
    case Return(id) => Moved(s, id, Returned(s.calls[id].phase.result)).(handlers := s.handlers - {id})
    case Deliver(packet) =>
      s.(handlers := map id | id in s.handlers :: Offered(s.handlers[id], packet), log := s.log + [packet])
  }

  /**
   * The receive loop passes a packet to every handler in turn, in any order, and gets through:
   * no send waits for anyone.
   */
  method PassOn(s: Sys, packet: Packet) returns (s': Sys)
    ensures s' == Next(s, Deliver(packet))
  {
    var handlers, todo := s.handlers, s.handlers.Keys;
    while todo != {}
      invariant todo <= s.handlers.Keys && handlers.Keys == s.handlers.Keys
      invariant forall id :: id in handlers ==>
                  handlers[id] == if id in todo then s.handlers[id] else Offered(s.handlers[id], packet)
    {
      var id :| id in todo;
      var h := handlers[id];
      if h.topic == packet.topic {
        handlers := handlers[id := h.(slot := TrySend(h.slot, packet))];
      }
      todo := todo - {id};
    }
    s' := s.(handlers := handlers, log := s.log + [packet]);
  }

  /** A send into a channel of one that never waits. */
  function TrySend(slot: Option<Packet>, packet: Packet): Option<Packet> {
    if slot.None? then Some(packet) else slot
  }

  /** A packet whose channel is full, such as a reply delivered again, changes no handler and no call. */
  lemma RedeliveryChangesNothing(s: Sys, packet: Packet)
    requires forall id :: id in s.handlers && s.handlers[id].topic == packet.topic ==> s.handlers[id].slot.Some?
    ensures Next(s, Deliver(packet)) == s.(log := s.log + [packet])
  {
    assert (map id | id in s.handlers :: Offered(s.handlers[id], packet)) == s.handlers;
  }

  predicate Allowed(s: Sys, run: seq<Step>)
    decreases |run|
  {
    run == [] || (Enabled(s, run[0]) && Allowed(Next(s, run[0]), run[1..]))
  }

  function After(s: Sys, run: seq<Step>): Sys
    requires Allowed(s, run)
    decreases |run|
  {
    if run == [] then s else After(Next(s, run[0]), run[1..])
  }

  // ---------------------------------------------------------------------------------------------
  // Correlation
  // ---------------------------------------------------------------------------------------------

  /** The first packet on a topic. */
  function First(log: seq<Packet>, topic: string): Option<Packet> {
    if log == [] then None
    else if log[0].topic == topic then Some(log[0])
    else First(log[1..], topic)
  }

  lemma {:induction false} FirstAppend(log: seq<Packet>, packet: Packet, topic: string)
    ensures First(log + [packet], topic) ==
            if First(log, topic).None? && packet.topic == topic then Some(packet) else First(log, topic)
    ensures First(log, topic).Some? ==> First(log, topic).value.topic == topic
  {
    if log == [] {
      assert (log + [packet])[1..] == [];
    } else {
      assert (log + [packet])[1..] == log[1..] + [packet];
      FirstAppend(log[1..], packet, topic);
    }
  }

  /**
   * A call has a handler until it returns. The handler's channel holds the first packet on the
   * call's topic since then, if any, until the call takes it; that packet is what the call returns.
   */
  ghost predicate CallInv(s: Sys, id: string)
    requires id in s.calls
  {
    var c := s.calls[id];
    && '/' !in id && c.since <= |s.log|
    && (id in s.handlers <==> !c.phase.Returned?)
    && (id in s.handlers ==> s.handlers[id].topic == Reply(s, id))
    && var first := First(s.log[c.since..], Reply(s, id));
       match c.phase
       case Leaving(r) => r.Some? ==> r == first
       case Returned(r) => r.Some? ==> r == first
       case _ => id in s.handlers && s.handlers[id].slot == first
  }

  ghost predicate Inv(s: Sys) {
    s.handlers.Keys <= s.calls.Keys && forall id :: id in s.calls ==> CallInv(s, id)
  }

  lemma DeliverKeeps(s: Sys, packet: Packet, id: string)
    requires id in s.calls && CallInv(s, id)
    ensures CallInv(Next(s, Deliver(packet)), id)
  {
    var c := s.calls[id];
    assert (s.log + [packet])[c.since..] == s.log[c.since..] + [packet];
    FirstAppend(s.log[c.since..], packet, Reply(s, id));
  }

  /** Every step keeps the invariant of every call. */
  lemma CallStep(s: Sys, step: Step)
    requires Enabled(s, step) && Inv(s)
    ensures Inv(Next(s, step))
  {
    var s' := Next(s, step);
    forall id | id in s'.calls ensures CallInv(s', id) {
      if id in s.calls {
        assert CallInv(s, id);
        if step.Deliver? { DeliverKeeps(s, step.packet, id); }
      } else {
        assert s.log[|s.log|..] == [];
      }
    }
  }

  lemma {:induction false} CallsRun(s: Sys, run: seq<Step>)
    requires Allowed(s, run) && Inv(s)
    ensures Inv(After(s, run))
    decreases |run|
  {
    if run != [] {
      CallStep(s, run[0]);
      CallsRun(Next(s, run[0]), run[1..]);
    }
  }

  function Start(client: string): Sys {
    Sys(client, map[], map[], [])
  }

  /** In every reachable state the handlers are exactly those of the calls that have not returned. */
  lemma HandlersAreCallsInFlight(client: string, run: seq<Step>, s: Sys, id: string)
    requires Allowed(Start(client), run) && s == After(Start(client), run)
    ensures id in s.handlers <==> id in s.calls && !s.calls[id].phase.Returned?
  {
    CallsRun(Start(client), run);
  }

  /**
   * In every run a call that returns a packet returns the first one delivered on its own topic
   * since its handler was added, which is on no other call's topic.
   */
  lemma RepliesCorrelate(client: string, run: seq<Step>, s: Sys, id: string, packet: Packet)
    requires Allowed(Start(client), run) && s == After(Start(client), run)
    requires id in s.calls && s.calls[id].phase == Returned(Some(packet))
    ensures s.calls[id].since <= |s.log|
    ensures First(s.log[s.calls[id].since..], Reply(s, id)) == Some(packet) && packet.topic == Reply(s, id)
    ensures forall other :: other in s.calls && other != id ==> packet.topic != Reply(s, other)
  {
    CallsRun(Start(client), run);
    assert CallInv(s, id);
    FirstAppend(s.log[s.calls[id].since..], packet, Reply(s, id));
    forall other | other in s.calls && other != id ensures packet.topic != Reply(s, other) {
      assert CallInv(s, other);
      ReplyTopicsDistinct(s.calls[id].device, id, s.calls[other].device, other, s.client);
    }
  }

  // ---------------------------------------------------------------------------------------------
  // What a call returns, in terms of the steps it took
  // ---------------------------------------------------------------------------------------------

  /** A request was refused, or the deadline passed. */
  predicate Failed(past: seq<Step>, id: string) {
    Subscribed(id, false) in past || Published(id, false) in past || TimeOut(id) in past
  }

  predicate Went(past: seq<Step>, id: string) {
    Subscribed(id, true) in past && Published(id, true) in past
  }

  /** A call subscribes, publishes and waits, in this order, and ends by taking the reply or by one failure. */
  ghost predicate Story(s: Sys, past: seq<Step>, id: string) {
    if id !in s.calls then !Failed(past, id) && Take(id) !in past && Subscribed(id, true) !in past && Published(id, true) !in past
    else match s.calls[id].phase
      case Subscribing => !Failed(past, id) && Take(id) !in past && Published(id, true) !in past
      case Publishing => !Failed(past, id) && Take(id) !in past && Subscribed(id, true) in past
      case Awaiting => !Failed(past, id) && Take(id) !in past && Went(past, id)
      case Leaving(r) => Ended(past, id, r)
      case Returned(r) => Ended(past, id, r) && Return(id) in past
  }

  predicate Ended(past: seq<Step>, id: string, r: Option<Packet>) {
    && (r.Some? <==> Take(id) in past) && (r.None? <==> Failed(past, id))
    && (Take(id) in past || TimeOut(id) in past ==> Went(past, id))
  }

  lemma InNext(past: seq<Step>, step: Step, x: Step)
    ensures x in past + [step] <==> x in past || x == step
  {
  }

  lemma StoryStep(s: Sys, past: seq<Step>, step: Step, id: string)
    requires Enabled(s, step) && Story(s, past, id)
    ensures Story(Next(s, step), past + [step], id)
  {
    InNext(past, step, Subscribed(id, true));
    InNext(past, step, Subscribed(id, false));
    InNext(past, step, Published(id, true));
    InNext(past, step, Published(id, false));
    InNext(past, step, Take(id));
    InNext(past, step, TimeOut(id));
    InNext(past, step, Return(id));
  }

  lemma {:induction false} StoryRun(s: Sys, past: seq<Step>, run: seq<Step>, id: string)
    requires Allowed(s, run) && Story(s, past, id)
    ensures Story(After(s, run), past + run, id)
    decreases |run|
  {
    if run == [] {
      assert past + run == past;
    } else {
      StoryStep(s, past, run[0], id);
      StoryRun(Next(s, run[0]), past + [run[0]], run[1..], id);
      assert past + [run[0]] + run[1..] == past + run;
    }
  }

  /**
   * In every run a call that has returned gives back the first packet on its own topic if and only
   * if it took one from its channel, after its subscribe and its publish went through, and an error
   * if and only if one of the two was refused or its deadline passed.
   */
  lemma ReturnsTheReplyExactlyWhenTaken(client: string, run: seq<Step>, s: Sys, id: string)
    requires Allowed(Start(client), run) && s == After(Start(client), run)
    requires id in s.calls && s.calls[id].phase.Returned?
    ensures s.calls[id].since <= |s.log|
    ensures var result, reply := s.calls[id].phase.result, First(s.log[s.calls[id].since..], Reply(s, id));
            && (Take(id) in run <==> result.Some?) && (result.Some? ==> result == reply)
            && (result == None <==> Subscribed(id, false) in run || Published(id, false) in run || TimeOut(id) in run)
            && (Take(id) in run ==> Subscribed(id, true) in run && Published(id, true) in run)
  {
    StoryRun(Start(client), [], run, id);
    assert [] + run == run;
    CallsRun(Start(client), run);
    assert CallInv(s, id);
  }

  // ---------------------------------------------------------------------------------------------
  // No packet is taken twice
  // ---------------------------------------------------------------------------------------------

  function Waiting(s: Sys, id: string): nat {
    if id in s.handlers && s.handlers[id].slot.Some? then 1 else 0
  }

  /** How many deliveries found the call's channel empty. */
  function Entered(s: Sys, run: seq<Step>, id: string): nat
    requires Allowed(s, run)
    decreases |run|
  {
    if run == [] then 0
    else
      (if run[0].Deliver? && id in s.handlers && run[0].packet.topic == s.handlers[id].topic && Waiting(s, id) == 0 then 1 else 0)
      + Entered(Next(s, run[0]), run[1..], id)
  }

  function Takes(run: seq<Step>, id: string): nat {
    if run == [] then 0 else (if run[0] == Take(id) then 1 else 0) + Takes(run[1..], id)
  }

  lemma {:induction false} RemovedForGood(s: Sys, run: seq<Step>, id: string)
    requires Allowed(s, run) && id in s.calls && id !in s.handlers
    ensures id !in After(s, run).handlers
    decreases |run|
  {
    if run != [] { RemovedForGood(Next(s, run[0]), run[1..], id); }
  }

  lemma ChannelStep(s: Sys, step: Step, id: string)
    requires Enabled(s, step) && id in s.calls && id in s.handlers && id in Next(s, step).handlers
    ensures Waiting(s, id) + (if step.Deliver? && step.packet.topic == s.handlers[id].topic && Waiting(s, id) == 0 then 1 else 0)
            == (if step == Take(id) then 1 else 0) + Waiting(Next(s, step), id)
  {
  }

  /** As long as a call has its handler, every packet that entered its channel was taken once or is still there. */
  lemma {:induction false} EveryPacketIsTakenOnce(s: Sys, run: seq<Step>, id: string)
    requires Allowed(s, run) && id in s.calls && id in s.handlers && id in After(s, run).handlers
    ensures Waiting(s, id) + Entered(s, run, id) == Takes(run, id) + Waiting(After(s, run), id)
    decreases |run|
  {
    if run != [] {
      var s' := Next(s, run[0]);
      if id !in s'.handlers { RemovedForGood(s', run[1..], id); }
      ChannelStep(s, run[0], id);
      EveryPacketIsTakenOnce(s', run[1..], id);
    }
  }

  /** A delivery reaches the channel of at most one call. */
  lemma DeliveryReachesOneCall(s: Sys, packet: Packet, a: string, b: string)
    requires Inv(s) && a in s.handlers && b in s.handlers
    requires Offered(s.handlers[a], packet) != s.handlers[a] && Offered(s.handlers[b], packet) != s.handlers[b]
    ensures a == b
  {
    assert CallInv(s, a) && CallInv(s, b);
    ReplyTopicsDistinct(s.calls[a].device, a, s.calls[b].device, b, s.client);
  }
}
