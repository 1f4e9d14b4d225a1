/** The broadcaster as the service runs it: objects updated in place, in any iteration order. */
module Broadcaster {
  import opened Names
  import opened Broadcast

  /** A buffered channel. Sending on or closing a closed channel panics, hence the preconditions. */
  class Channel<V> {
    var buf: seq<V>
    var open: bool
    ghost var received: seq<V>
    ghost var start: nat
    ghost var end: End

    ghost function State(): Chan<V>
      reads this
    {
      Chan(buf, open, received, start, end)
    }

    constructor (ghost at: nat)
      ensures State() == Opened(false, at)
    {
      buf, open, received, start, end := [], true, [], at, Live;
    }

    method TrySend(v: V) returns (sent: bool)
      requires open
      modifies this
      ensures sent == !old(Full(State()))
      ensures State() == if sent then old(State()).(buf := old(buf) + [v]) else old(State())
    {
      sent := |buf| < SUBSCRIBER_BUFFER;
      if sent { buf := buf + [v]; }
    }

    method TakeFirst() returns (v: V)
      requires buf != []
      modifies this
      ensures v == old(buf[0]) && State() == Taken(old(State()))
    {
      v := buf[0];
      buf, received := buf[1..], received + [buf[0]];
    }

    method Close(ghost why: End)
      requires open
      modifies this
      ensures State() == old(State()).(open := false, end := why)
    {
      open, end := false, why;
    }
  }

  class LightBroadcaster<V> {
    var subscribers: set<Channel<V>>
    var closed: bool
    ghost var log: seq<V>
    ghost var made: set<Channel<V>>

    ghost function Model(): Hub<Channel<V>, V>
      reads this, made
    {
      Hub(map c | c in made :: c.State(), subscribers, closed, log)
    }

    ghost predicate Valid()
      reads this, made
    {
      Inv(Model())
    }

    constructor ()
      ensures Valid() && Model() == Fresh() && fresh(made)
    {
      subscribers, closed, log, made := {}, false, [], {};
    }

    method Subscribe() returns (updates: Channel<V>)
      requires Valid()
      modifies this
      ensures Valid() && fresh(updates) && made == old(made) + {updates}
      ensures Model() == Do(old(Model()), Op.Subscribe(updates))
    {
      updates := new Channel<V>(|log|);
      if closed {
        updates.Close(Shutdown(|log|));
      } else {
        subscribers := subscribers + {updates};
      }
      made := made + {updates};
      StepKeeps(old(Model()), Op.Subscribe(updates));
      SameHub(Model(), Do(old(Model()), Op.Subscribe(updates)));
    }

    method Unsubscribe(updates: Channel<V>)
      requires Valid() && updates in made
      modifies this, updates
      ensures Valid() && made == old(made)
      ensures Model() == Do(old(Model()), Op.Unsubscribe(updates))
    {
      if updates in subscribers {
        updates.end := Unsubscribed(|log|);
      }
      subscribers := subscribers - {updates};
      StepKeeps(old(Model()), Op.Unsubscribe(updates));
      SameHub(Model(), Do(old(Model()), Op.Unsubscribe(updates)));
    }

    /** The map is ranged over in an arbitrary order, and subscribers that are full are dropped meanwhile. */
    method FanOut(status: V)
      requires subscribers <= made && forall c :: c in subscribers ==> c.open
      modifies this`subscribers, made
      ensures forall c :: c in made ==>
        c.State() == if c in old(subscribers) then Offered(old(c.State()), status, |log|) else old(c.State())
      ensures forall c :: c in subscribers <==> c in old(subscribers) && !old(Full(c.State()))
    {
      var todo := subscribers;
      while todo != {}
        invariant todo <= old(subscribers)
        invariant forall c :: c in made ==>
          c.State() == if c in old(subscribers) - todo then Offered(old(c.State()), status, |log|) else old(c.State())
        invariant forall c :: c in subscribers <==> c in old(subscribers) && (c in todo || !old(Full(c.State())))
      {
        var updates :| updates in todo;
        todo := todo - {updates};
        var sent := updates.TrySend(status);
        if !sent {
          subscribers := subscribers - {updates};
          updates.Close(Overflowed(|log|));
        }
      }
    }

    method Publish(status: V)
      requires Valid()
      modifies this, made
      ensures Valid() && made == old(made)
      ensures Model() == Do(old(Model()), Op.Publish(status))
    {
      forall c | c in subscribers ensures c in made && c.open { assert c.State() == Model().chans[c]; }
      FanOut(status);
      log := log + [status];
      StepKeeps(old(Model()), Op.Publish(status));
      SameHub(Model(), Do(old(Model()), Op.Publish(status)));
    }

    method EndAll()
      requires subscribers <= made && forall c :: c in subscribers ==> c.open
      modifies this`subscribers, made
      ensures subscribers == {}
      ensures forall c :: c in made ==>
        c.State() == if c in old(subscribers) then old(c.State()).(open := false, end := Shutdown(|log|)) else old(c.State())
    {
      while subscribers != {}
        invariant subscribers <= old(subscribers)
        invariant forall c :: c in made ==>
          c.State() == if c in old(subscribers) - subscribers
                       then old(c.State()).(open := false, end := Shutdown(|log|)) else old(c.State())
        decreases |subscribers|
      {
        var updates :| updates in subscribers;
        subscribers := subscribers - {updates};
        updates.Close(Shutdown(|log|));
      }
    }

    method Close()
      requires Valid()
      modifies this, made
      ensures Valid() && made == old(made)
      ensures Model() == Do(old(Model()), Op.Close)
    {
      forall c | c in subscribers ensures c in made && c.open { assert c.State() == Model().chans[c]; }
      closed := true;
      EndAll();
      StepKeeps(old(Model()), Op.Close);
      SameHub(Model(), Do(old(Model()), Op.Close));
    }

    method Take(updates: Channel<V>) returns (status: V)
      requires Valid() && updates in made && updates.buf != []
      modifies updates
      ensures Valid() && made == old(made) && status == old(updates.buf[0])
      ensures Model() == Do(old(Model()), Op.Receive(updates))
    {
      status := updates.TakeFirst();
      StepKeeps(old(Model()), Op.Receive(updates));
      SameHub(Model(), Do(old(Model()), Op.Receive(updates)));
    }

    /** A receiver takes the oldest buffered update, also from a closed channel. */
    method Receive(updates: Channel<V>) returns (status: Option<V>)
      requires Valid() && updates in made
      modifies updates
      ensures Valid() && made == old(made)
      ensures status == if old(updates.buf) == [] then None else Some(old(updates.buf[0]))
      ensures Model() == if old(updates.buf) == [] then old(Model()) else Do(old(Model()), Op.Receive(updates))
    {
      if updates.buf == [] { return None; }
      var first := Take(updates);
      status := Some(first);
    }
  }
}
