/** The fan-out of light updates to bounded subscriber channels. */
module Broadcast {
  import opened Names

  const SUBSCRIBER_BUFFER := 16

  /** Why a subscription no longer follows the log, and how long the log was when it stopped. */
  datatype End = Live | Unsubscribed(at: nat) | Overflowed(at: nat) | Shutdown(at: nat)

  /** One subscriber's channel, with its history: what was received, and where in the log it began. */
  datatype Chan<V> = Chan(buf: seq<V>, open: bool, received: seq<V>, start: nat, end: End)

  datatype Hub<K, V> = Hub(chans: map<K, Chan<V>>, subs: set<K>, closed: bool, log: seq<V>)

  datatype Op<K, V> = Subscribe(k: K) | Unsubscribe(k: K) | Publish(v: V) | Close | Receive(k: K)

  // ---------------------------------------------------------------------------------------------
  // The operations on values
  // ---------------------------------------------------------------------------------------------

  function Opened<V>(closed: bool, at: nat): Chan<V> {
    if closed then Chan([], false, [], at, Shutdown(at)) else Chan([], true, [], at, Live)
  }

  predicate Full<V>(c: Chan<V>) {
    |c.buf| >= SUBSCRIBER_BUFFER
  }

  function Offered<V>(c: Chan<V>, v: V, at: nat): Chan<V> {
    if Full(c) then c.(open := false, end := Overflowed(at)) else c.(buf := c.buf + [v])
  }

  function Taken<V>(c: Chan<V>): Chan<V>
    requires c.buf != []
  {
    c.(buf := c.buf[1..], received := c.received + [c.buf[0]])
  }

  predicate Enabled<K, V>(h: Hub<K, V>, op: Op<K, V>) {
    match op
    case Subscribe(k) => k !in h.chans
    case Unsubscribe(k) => k in h.chans
    case Publish(_) => true
    case Close => true
    case Receive(k) => k in h.chans && h.chans[k].buf != []
  }

  function Do<K, V>(h: Hub<K, V>, op: Op<K, V>): Hub<K, V>
    requires Enabled(h, op)
  {
    match op
    case Subscribe(k) =>
      h.(chans := h.chans[k := Opened(h.closed, |h.log|)], subs := if h.closed then h.subs else h.subs + {k})
    case Unsubscribe(k) =>
      if k in h.subs then
        h.(chans := h.chans[k := h.chans[k].(end := Unsubscribed(|h.log|))], subs := h.subs - {k})
      else h
    case Publish(v) =>
      Hub((map k | k in h.chans :: if k in h.subs then Offered(h.chans[k], v, |h.log|) else h.chans[k]),
          (set k | k in h.subs && k in h.chans && !Full(h.chans[k])), h.closed, h.log + [v])
    case Close =>
      Hub((map k | k in h.chans :: if k in h.subs then h.chans[k].(open := false, end := Shutdown(|h.log|)) else h.chans[k]),
          {}, true, h.log)
    case Receive(k) => h.(chans := h.chans[k := Taken(h.chans[k])])
  }

  predicate Allowed<K, V>(h: Hub<K, V>, ops: seq<Op<K, V>>)
    decreases |ops|
  {
    ops == [] || (Enabled(h, ops[0]) && Allowed(Do(h, ops[0]), ops[1..]))
  }

  function Run<K, V>(h: Hub<K, V>, ops: seq<Op<K, V>>): Hub<K, V>
    requires Allowed(h, ops)
    decreases |ops|
  {
    if ops == [] then h else Run(Do(h, ops[0]), ops[1..])
  }

  function Fresh<K, V>(): Hub<K, V> {
    Hub(map[], {}, false, [])
  }

  // ---------------------------------------------------------------------------------------------
  // What every reachable state keeps
  // ---------------------------------------------------------------------------------------------

  function Reach<V>(c: Chan<V>, log: seq<V>): nat {
    if c.end.Live? then |log| else c.end.at
  }

  /** What was received and what is still buffered is one contiguous run of the log. */
  predicate GapFree<V(==)>(c: Chan<V>, log: seq<V>) {
    && c.start <= Reach(c, log) <= |log|
    && c.received + c.buf == log[c.start..Reach(c, log)]
    && (c.end.Overflowed? ==> c.end.at < |log| && c.end.at - c.start >= 16)
  }

  predicate ChanInv<V(==)>(c: Chan<V>, registered: bool, log: seq<V>) {
    && |c.buf| <= 16
    && (registered <==> c.end.Live?)
    && (c.open <==> c.end.Live? || c.end.Unsubscribed?)
    && GapFree(c, log)
  }

  ghost predicate Inv<K, V>(h: Hub<K, V>) {
    && h.subs <= h.chans.Keys
    && (h.closed ==> h.subs == {})
    && forall k :: k in h.chans ==> ChanInv(h.chans[k], k in h.subs, h.log)
  }

  lemma OfferKeeps<V>(c: Chan<V>, v: V, log: seq<V>)
    requires ChanInv(c, true, log)
    ensures ChanInv(Offered(c, v, |log|), !Full(c), log + [v])
    ensures Full(c) ==> |c.buf| == SUBSCRIBER_BUFFER
  {
    assert (log + [v])[c.start..|log|] == log[c.start..|log|];
    assert (log + [v])[c.start..|log| + 1] == log[c.start..|log|] + [v];
    assert c.received + (c.buf + [v]) == c.received + c.buf + [v];
    assert |c.received + c.buf| == |log| - c.start;
  }

  lemma IdleKeeps<V>(c: Chan<V>, v: V, log: seq<V>)
    requires ChanInv(c, false, log)
    ensures ChanInv(c, false, log + [v])
  {
    assert (log + [v])[c.start..c.end.at] == log[c.start..c.end.at];
  }

  lemma TakeKeeps<V>(c: Chan<V>, registered: bool, log: seq<V>)
    requires ChanInv(c, registered, log) && c.buf != []
    ensures ChanInv(Taken(c), registered, log)
  {
    assert c.received + [c.buf[0]] + c.buf[1..] == c.received + c.buf;
  }

  lemma StepKeeps<K, V>(h: Hub<K, V>, op: Op<K, V>)
    requires Inv(h) && Enabled(h, op)
    ensures Inv(Do(h, op))
  {
    var h' := Do(h, op);
    forall k | k in h'.chans ensures ChanInv(h'.chans[k], k in h'.subs, h'.log) {
      if op.Publish? {
        if k in h.subs { OfferKeeps(h.chans[k], op.v, h.log); } else { IdleKeeps(h.chans[k], op.v, h.log); }
      } else if op.Receive? && k == op.k {
        TakeKeeps(h.chans[k], k in h.subs, h.log);
      }
    }
  }

  /** Gap-free delivery and channel safety, for every interleaving of operations. */
  lemma {:induction false} RunKeeps<K, V>(h: Hub<K, V>, ops: seq<Op<K, V>>)
    requires Inv(h) && Allowed(h, ops)
    ensures Inv(Run(h, ops))
    decreases |ops|
  {
    if ops != [] {
      StepKeeps(h, ops[0]);
      RunKeeps(Do(h, ops[0]), ops[1..]);
    }
  }

  // ---------------------------------------------------------------------------------------------
  // When a subscription ends
  // ---------------------------------------------------------------------------------------------

  /** What the operation makes of a live subscription: only these three end it. */
  function EndAt<K(==), V>(h: Hub<K, V>, op: Op<K, V>, k: K): End
    requires k in h.chans
  {
    match op
    case Unsubscribe(other) => if other == k then Unsubscribed(|h.log|) else Live
    case Publish(_) => if |h.chans[k].buf| == 16 then Overflowed(|h.log|) else Live
    case Close => Shutdown(|h.log|)
    case _ => Live
  }

  /** The hub before operation j of a run. */
  function At<K, V>(h: Hub<K, V>, ops: seq<Op<K, V>>, j: nat): Hub<K, V>
    requires Allowed(h, ops) && j <= |ops|
    decreases |ops|
  {
    if j == 0 then h else At(Do(h, ops[0]), ops[1..], j - 1)
  }

  lemma StepEnds<K, V>(h: Hub<K, V>, op: Op<K, V>, k: K)
    requires Inv(h) && Enabled(h, op) && k in h.subs
    ensures k in Do(h, op).chans && Do(h, op).chans[k].end == EndAt(h, op, k)
    ensures k in Do(h, op).subs <==> EndAt(h, op, k).Live?
  {
    assert ChanInv(h.chans[k], true, h.log);
  }

  lemma EndedStep<K, V>(h: Hub<K, V>, op: Op<K, V>, k: K)
    requires Enabled(h, op) && k in h.chans && k !in h.subs
    ensures k in Do(h, op).chans && k !in Do(h, op).subs && Do(h, op).chans[k].end == h.chans[k].end
  {
  }

  /** A subscription that has ended stays as it ended. */
  lemma {:induction false} EndStays<K, V>(h: Hub<K, V>, ops: seq<Op<K, V>>, k: K)
    requires Allowed(h, ops) && k in h.chans && k !in h.subs
    ensures k in Run(h, ops).chans && k !in Run(h, ops).subs && Run(h, ops).chans[k].end == h.chans[k].end
    decreases |ops|
  {
    if ops != [] {
      EndedStep(h, ops[0], k);
      EndStays(Do(h, ops[0]), ops[1..], k);
    }
  }

  ghost predicate LiveBefore<K(!new), V(!new)>(h: Hub<K, V>, ops: seq<Op<K, V>>, k: K, j: nat)
    requires Allowed(h, ops) && j <= |ops|
  {
    forall i :: 0 <= i < j ==> k in At(h, ops, i).chans && EndAt(At(h, ops, i), ops[i], k).Live?
  }

  lemma LiveOneMore<K(!new), V(!new)>(h: Hub<K, V>, ops: seq<Op<K, V>>, k: K, j: nat)
    requires ops != [] && Allowed(h, ops) && j < |ops|
    requires k in h.chans && EndAt(h, ops[0], k).Live? && LiveBefore(Do(h, ops[0]), ops[1..], k, j)
    ensures LiveBefore(h, ops, k, j + 1)
  {
    forall i | 0 <= i < j + 1 ensures k in At(h, ops, i).chans && EndAt(At(h, ops, i), ops[i], k).Live? {
      if i > 0 { assert At(h, ops, i) == At(Do(h, ops[0]), ops[1..], i - 1) && ops[i] == ops[1..][i - 1]; }
    }
  }

  lemma AtOneMore<K, V>(h: Hub<K, V>, ops: seq<Op<K, V>>, i: nat)
    requires ops != [] && Allowed(h, ops) && i < |ops|
    ensures At(h, ops, i + 1) == At(Do(h, ops[0]), ops[1..], i)
    ensures i + 1 < |ops| ==> ops[i + 1] == ops[1..][i]
    ensures Run(h, ops) == Run(Do(h, ops[0]), ops[1..])
  {
  }

  /** j is the first operation that ends k's subscription, and the recorded end is what it made of it. */
  ghost predicate IsEnd<K(!new), V(!new)>(h: Hub<K, V>, ops: seq<Op<K, V>>, k: K, j: nat)
    requires Allowed(h, ops)
  {
    && j <= |ops| && LiveBefore(h, ops, k, j) && k in Run(h, ops).chans
    && (Run(h, ops).chans[k].end.Live? <==> j == |ops|)
    && (j < |ops| ==> k in At(h, ops, j).chans && Run(h, ops).chans[k].end == EndAt(At(h, ops, j), ops[j], k))
  }

  lemma EndsLater<K(!new), V(!new)>(h: Hub<K, V>, ops: seq<Op<K, V>>, k: K, i: nat)
    requires ops != [] && Allowed(h, ops) && k in h.chans && EndAt(h, ops[0], k).Live?
    requires IsEnd(Do(h, ops[0]), ops[1..], k, i)
    ensures IsEnd(h, ops, k, i + 1)
  {
    LiveOneMore(h, ops, k, i);
    AtOneMore(h, ops, i);
  }

  lemma EndsNow<K(!new), V(!new)>(h: Hub<K, V>, ops: seq<Op<K, V>>, k: K)
    requires ops != [] && Allowed(h, ops) && Inv(h) && k in h.subs && !EndAt(h, ops[0], k).Live?
    ensures IsEnd(h, ops, k, 0)
  {
    StepEnds(h, ops[0], k);
    EndStays(Do(h, ops[0]), ops[1..], k);
  }

  /**
   * Over every run from a registered subscriber on: the subscription ends at its own unsubscribe, at
   * a close, or at a publish that finds 16 updates pending, whichever comes first, with the length
   * the log had then; if none comes it is live.
   */
  lemma {:induction false} EndsExactlyAt<K(!new), V(!new)>(h: Hub<K, V>, ops: seq<Op<K, V>>, k: K) returns (j: nat)
    requires Inv(h) && Allowed(h, ops) && k in h.subs
    ensures IsEnd(h, ops, k, j)
    decreases |ops|
  {
    if ops == [] {
      assert ChanInv(h.chans[k], true, h.log);
      j := 0;
    } else if EndAt(h, ops[0], k).Live? {
      StepEnds(h, ops[0], k);
      StepKeeps(h, ops[0]);
      var i := EndsExactlyAt(Do(h, ops[0]), ops[1..], k);
      EndsLater(h, ops, k, i);
      j := i + 1;
    } else {
      EndsNow(h, ops, k);
      j := 0;
    }
  }

  // ---------------------------------------------------------------------------------------------
  // What subscribers get
  // ---------------------------------------------------------------------------------------------

  function Published<K, V>(ops: seq<Op<K, V>>): seq<V> {
    if ops == [] then [] else (if ops[0].Publish? then [ops[0].v] else []) + Published(ops[1..])
  }

  function Receipts<K(==), V>(ops: seq<Op<K, V>>, k: K): nat {
    if ops == [] then 0 else (if ops[0].Receive? && ops[0].k == k then 1 else 0) + Receipts(ops[1..], k)
  }

  /** The log is what was published, in order, and each receipt takes one update out of the channel. */
  lemma {:induction false} RunHistory<K, V>(h: Hub<K, V>, ops: seq<Op<K, V>>, k: K)
    requires Allowed(h, ops)
    ensures Run(h, ops).log == h.log + Published(ops)
    ensures k in h.chans ==>
              k in Run(h, ops).chans && Run(h, ops).chans[k].start == h.chans[k].start
              && |Run(h, ops).chans[k].received| == |h.chans[k].received| + Receipts(ops, k)
    decreases |ops|
  {
    if ops != [] {
      StepHistory(h, ops[0], k);
      RunHistory(Do(h, ops[0]), ops[1..], k);
      if ops[0].Publish? { Regroup(h.log, ops[0].v, Published(ops[1..])); }
    }
  }

  lemma StepHistory<K, V>(h: Hub<K, V>, op: Op<K, V>, k: K)
    requires Enabled(h, op)
    ensures Do(h, op).log == h.log + if op.Publish? then [op.v] else []
    ensures k in h.chans ==>
              k in Do(h, op).chans && Do(h, op).chans[k].start == h.chans[k].start
              && |Do(h, op).chans[k].received| == |h.chans[k].received| + if op.Receive? && op.k == k then 1 else 0
  {
  }

  lemma Regroup<V>(log: seq<V>, v: V, more: seq<V>)
    ensures log + [v] + more == log + ([v] + more)
  {
  }

  /**
   * A subscriber receives what is published after it subscribed, in order and without a gap: its
   * receipts so far are the first that many updates, and while it is live the rest is in its channel.
   */
  lemma SubscriberGetsWhatIsPublished<K, V>(h: Hub<K, V>, k: K, ops: seq<Op<K, V>>)
    requires Inv(h) && Enabled(h, Subscribe(k)) && Allowed(Do(h, Subscribe(k)), ops)
    ensures k in Run(Do(h, Subscribe(k)), ops).chans && Receipts(ops, k) <= |Published(ops)|
    ensures var c := Run(Do(h, Subscribe(k)), ops).chans[k];
            && c.received == Published(ops)[..Receipts(ops, k)]
            && (c.end.Live? ==> c.buf == Published(ops)[Receipts(ops, k)..])
  {
    var h0 := Do(h, Subscribe(k));
    StepKeeps(h, Subscribe(k));
    RunKeeps(h0, ops);
    RunHistory(h0, ops, k);
    var h' := Run(h0, ops);
    GapFreeParts(h'.chans[k], h.log, Published(ops));
  }

  lemma GapFreeParts<V>(c: Chan<V>, log: seq<V>, more: seq<V>)
    requires GapFree(c, log + more) && c.start == |log|
    ensures |c.received| <= |more| && c.received == more[..|c.received|]
    ensures c.end.Live? ==> c.buf == more[|c.received|..]
  {
    var n, reach := |c.received|, Reach(c, log + more) - |log|;
    assert (log + more)[c.start..Reach(c, log + more)] == more[..reach];
    assert c.received + c.buf == more[..reach];
    assert (c.received + c.buf)[..n] == c.received && (c.received + c.buf)[n..] == c.buf;
    assert more[..reach][..n] == more[..n];
  }

  // ---------------------------------------------------------------------------------------------
  // No subscriber affects another
  // ---------------------------------------------------------------------------------------------

  /** The operations that concern subscriber k. */
  function For<K(==), V>(k: K, ops: seq<Op<K, V>>): seq<Op<K, V>> {
    if ops == [] then []
    else (if ops[0].Publish? || ops[0].Close? || ops[0].k == k then [ops[0]] else []) + For(k, ops[1..])
  }

  /** a and b look the same to k. */
  predicate Alike<K, V(==)>(k: K, a: Hub<K, V>, b: Hub<K, V>) {
    a.log == b.log && a.closed == b.closed && (k in a.subs <==> k in b.subs) && Lookup(a.chans, k) == Lookup(b.chans, k)
  }

  /** Taking every other subscriber out of a run leaves subscriber k's channel exactly as it was. */
  lemma {:induction false} OthersDoNotMatter<K, V>(k: K, a: Hub<K, V>, b: Hub<K, V>, ops: seq<Op<K, V>>)
    requires Alike(k, a, b) && Allowed(a, ops)
    ensures Allowed(b, For(k, ops)) && Alike(k, Run(a, ops), Run(b, For(k, ops)))
    decreases |ops|
  {
    if ops != [] {
      var a' := Do(a, ops[0]);
      if ops[0].Publish? || ops[0].Close? || ops[0].k == k {
        assert For(k, ops)[0] == ops[0] && For(k, ops)[1..] == For(k, ops[1..]);
        OthersDoNotMatter(k, a', Do(b, ops[0]), ops[1..]);
      } else {
        assert For(k, ops) == For(k, ops[1..]);
        assert Lookup(a'.chans, k) == Lookup(a.chans, k);
        OthersDoNotMatter(k, a', b, ops[1..]);
      }
    }
  }

  lemma SameHub<K, V>(a: Hub<K, V>, b: Hub<K, V>)
    requires a.chans.Keys == b.chans.Keys && forall k :: k in a.chans ==> a.chans[k] == b.chans[k]
    requires forall k :: k in a.subs <==> k in b.subs
    requires a.closed == b.closed && a.log == b.log
    ensures a == b
  {
    assert a.chans == b.chans && a.subs == b.subs;
  }
}
