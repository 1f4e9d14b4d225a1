/** Button packets are handled once: an expiring cache of packet ids against the full history of deliveries. */
module ButtonDedup {

  /** 10 s in nanoseconds, the default expiration of the cache. */
  const WINDOW: int := 10_000_000_000

  type Cache = map<int, int>

  /** A lookup hits while the entry's expiration has not passed. */
  predicate Hit(items: Cache, pid: int, now: int) {
    pid in items && now <= items[pid]
  }

  /** The clean-up removes entries whose expiration has passed. */
  function Purged(items: Cache, now: int): Cache {
    map pid | pid in items && now <= items[pid] :: items[pid]
  }

  /**
   * What happens to the cache, with the clock reading of each. A delivery looks its id up and then
   * stores it again; the cache cleans itself up at any moment, also between the two.
   */
  datatype Op = Lookup(pid: int, at: int) | Store(pid: int, at: int) | CleanUp(at: int)

  /**
   * A lookup reads the clock while it holds the cache, so after everything before it. A store and a
   * clean-up read the clock before they get hold of the cache, so a clean-up may come late, and a
   * store may come late against clean-ups. Lookups and stores are in order among themselves because
   * both are made under the lock.
   */
  predicate Before(a: Op, b: Op) {
    b.Lookup? || (!a.CleanUp? && !b.CleanUp?) ==> a.at <= b.at
  }

  predicate Fits(log: seq<Op>, op: Op) {
    forall i :: 0 <= i < |log| ==> Before(log[i], op)
  }

  predicate Clocked(ops: seq<Op>) {
    forall j :: 0 <= j < |ops| ==> Fits(ops[..j], ops[j])
  }

  function Do(items: Cache, op: Op): Cache {
    match op
    case Lookup(_, _) => items
    case Store(pid, at) => items[pid := at + WINDOW]
    case CleanUp(at) => Purged(items, at)
  }

  /** What the cache answers to each operation of a run; only a lookup can hit. */
  function Answers(items: Cache, ops: seq<Op>): (answers: seq<bool>)
    ensures |answers| == |ops|
    decreases |ops|
  {
    if ops == [] then [] else [ops[0].Lookup? && Hit(items, ops[0].pid, ops[0].at)] + Answers(Do(items, ops[0]), ops[1..])
  }

  predicate StoredWithin(op: Op, pid: int, now: int) {
    op.Store? && op.pid == pid && now <= op.at + 10_000_000_000
  }

  /** The log has this id within the last 10 s. */
  predicate Recent(log: seq<Op>, pid: int, now: int) {
    exists i :: 0 <= i < |log| && StoredWithin(log[i], pid, now)
  }

  /** The cache answers every further lookup as the log would. */
  ghost predicate Agree(items: Cache, log: seq<Op>) {
    forall pid, t :: Fits(log, Lookup(pid, t)) ==> (Hit(items, pid, t) <==> Recent(log, pid, t))
  }

  lemma RecentAppend(log: seq<Op>, op: Op, pid: int, t: int)
    ensures Recent(log + [op], pid, t) <==> Recent(log, pid, t) || StoredWithin(op, pid, t)
  {
    if Recent(log, pid, t) {
      var i :| 0 <= i < |log| && StoredWithin(log[i], pid, t);
      assert (log + [op])[i] == log[i];
    }
    assert (log + [op])[|log|] == op;
  }

  lemma FitsAppend(log: seq<Op>, op: Op, next: Op)
    ensures Fits(log + [op], next) <==> Fits(log, next) && Before(op, next)
  {
    var log' := log + [op];
    assert log'[|log|] == op;
    assert forall i :: 0 <= i < |log| ==> log'[i] == log[i];
  }

  /** Every operation keeps the cache and the log in agreement. */
  lemma StepAgrees(items: Cache, log: seq<Op>, op: Op)
    requires Agree(items, log) && Fits(log, op)
    ensures Agree(Do(items, op), log + [op])
  {
    var items' := Do(items, op);
    forall pid, t | Fits(log + [op], Lookup(pid, t)) ensures Hit(items', pid, t) <==> Recent(log + [op], pid, t) {
      FitsAppend(log, op, Lookup(pid, t));
      RecentAppend(log, op, pid, t);
      assert Hit(items, pid, t) <==> Recent(log, pid, t);
      if op.Store? && op.pid == pid && Recent(log, pid, t) {
        var i :| 0 <= i < |log| && StoredWithin(log[i], pid, t);
        assert Before(log[i], op);
      }
    }
  }

  lemma {:induction false} RefinesFrom(items: Cache, log: seq<Op>, ops: seq<Op>, j: nat)
    requires Clocked(log + ops) && Agree(items, log) && j < |ops|
    ensures Answers(items, ops)[j] <==> ops[j].Lookup? && Recent(log + ops[..j], ops[j].pid, ops[j].at)
    decreases |ops|
  {
    var op, rest := ops[0], ops[1..];
    NextFits(log, ops, j);
    if j == 0 {
      assert op.Lookup? ==> op == Lookup(op.pid, op.at);
    } else {
      StepAgrees(items, log, op);
      RefinesFrom(Do(items, op), log + [op], rest, j - 1);
    }
  }

  lemma NextFits(log: seq<Op>, ops: seq<Op>, j: nat)
    requires Clocked(log + ops) && j < |ops|
    ensures Fits(log, ops[0]) && log + [ops[0]] + ops[1..] == log + ops && log + ops[..0] == log
    ensures j > 0 ==> log + [ops[0]] + ops[1..][..j - 1] == log + ops[..j]
  {
    var all := log + ops;
    assert Fits(all[..|log|], all[|log|]);
    assert all[..|log|] == log && all[|log|] == ops[0];
  }

  /** Over every run, with clean-ups at any moment, the cache answers as the whole history of stores would. */
  lemma RefinesHistory(ops: seq<Op>, j: nat)
    requires Clocked(ops) && j < |ops|
    ensures Answers(map[], ops)[j] <==> ops[j].Lookup? && Recent(ops[..j], ops[j].pid, ops[j].at)
  {
    assert [] + ops == ops && [] + ops[..j] == ops[..j];
    RefinesFrom(map[], [], ops, j);
  }

  // ---------------------------------------------------------------------------------------------
  // The lock around a delivery
  // ---------------------------------------------------------------------------------------------

  datatype Holder = Free | Held(pid: int)

  /** One delivery at a time looks up and stores; clean-ups do not ask for the lock. */
  predicate Locked(holder: Holder, ops: seq<Op>)
    decreases |ops|
  {
    ops == [] ||
    match ops[0]
    case Lookup(pid, _) => holder == Free && Locked(Held(pid), ops[1..])
    case Store(pid, _) => holder == Held(pid) && Locked(Free, ops[1..])
    case CleanUp(_) => Locked(holder, ops[1..])
  }

  /** Before the next lookup the delivery that has the lock stores its id. */
  lemma {:induction false} StoreComesFirst(pid: int, ops: seq<Op>, j: nat) returns (k: nat)
    requires Locked(Held(pid), ops) && j < |ops| && ops[j].Lookup?
    ensures k < j && ops[k].Store? && ops[k].pid == pid
    decreases |ops|
  {
    if ops[0].Store? {
      k := 0;
    } else {
      var k' := StoreComesFirst(pid, ops[1..], j - 1);
      k := k' + 1;
    }
  }

  lemma {:induction false} StoreBetween(holder: Holder, ops: seq<Op>, i: nat, j: nat) returns (k: nat)
    requires Locked(holder, ops) && i < j < |ops| && ops[i].Lookup? && ops[j].Lookup?
    ensures i < k < j && ops[k].Store? && ops[k].pid == ops[i].pid
    decreases |ops|
  {
    if i == 0 {
      var k' := StoreComesFirst(ops[0].pid, ops[1..], j - 1);
      k := k' + 1;
    } else {
      var next := match ops[0] case Lookup(pid, _) => Held(pid) case Store(_, _) => Free case CleanUp(_) => holder;
      var k' := StoreBetween(next, ops[1..], i - 1, j - 1);
      k := k' + 1;
    }
  }

  /**
   * With the lock, a delivery let through comes more than a window after the lookup and after the
   * store of every earlier one of its id, handled or not.
   */
  lemma LetThroughAfterAGap(ops: seq<Op>, i: nat, j: nat) returns (k: nat)
    requires Clocked(ops) && Locked(Free, ops)
    requires i < j < |ops| && ops[i].Lookup? && ops[j].Lookup? && ops[i].pid == ops[j].pid
    requires !Answers(map[], ops)[j]
    ensures i < k < j && ops[k].Store? && ops[k].pid == ops[i].pid && ops[j].at - ops[k].at > 10_000_000_000
    ensures ops[j].at - ops[i].at > 10_000_000_000
  {
    k := StoreBetween(Free, ops, i, j);
    RefinesHistory(ops, j);
    assert ops[..j][k] == ops[k];
    assert Fits(ops[..k], ops[k]) && ops[..k][i] == ops[i];
    assert Before(ops[i], ops[k]);
  }

  /** Without it, two deliveries of one id can both be let through at the same moment. */
  lemma LockIsNeeded(pid: int, t: int)
    ensures var ops := [Lookup(pid, t), Lookup(pid, t), Store(pid, t), Store(pid, t)];
            Clocked(ops) && !Answers(map[], ops)[0] && !Answers(map[], ops)[1]
  {
    var ops := [Lookup(pid, t), Lookup(pid, t), Store(pid, t), Store(pid, t)];
    assert ops[1..][0] == Lookup(pid, t) && Do(map[], ops[0]) == map[];
    assert Answers(map[], ops)[1] == Answers(map[], ops[1..])[0];
  }

  // ---------------------------------------------------------------------------------------------
  // The shared cache as the service holds it
  // ---------------------------------------------------------------------------------------------

  class SeenPids {
    var items: Cache
    ghost var log: seq<Op>

    ghost predicate Valid()
      reads this
    {
      Agree(items, log)
    }

    constructor ()
      ensures Valid() && log == []
    {
      items, log := map[], [];
    }

    method Get(pid: int, at: int) returns (ok: bool)
      requires Valid() && Fits(log, Lookup(pid, at))
      modifies this
      ensures Valid() && log == old(log) + [Lookup(pid, at)]
      ensures ok == old(Recent(log, pid, at))
    {
      ok := Hit(items, pid, at);
      StepAgrees(items, log, Lookup(pid, at));
      log := log + [Lookup(pid, at)];
    }

    method Set(pid: int, at: int)
      requires Valid() && Fits(log, Store(pid, at))
      modifies this
      ensures Valid() && log == old(log) + [Store(pid, at)]
    {
      StepAgrees(items, log, Store(pid, at));
      items := items[pid := at + WINDOW];
      log := log + [Store(pid, at)];
    }

    method DeleteExpired(at: int)
      requires Valid()
      modifies this
      ensures Valid() && log == old(log) + [CleanUp(at)]
    {
      StepAgrees(items, log, CleanUp(at));
      items := Purged(items, at);
      log := log + [CleanUp(at)];
    }

    /** A delivery under the lock, with the clean-ups that fall between its lookup and its store. */
    method PidSeen(pid: int, got: int, cleanUps: seq<int>, stored: int) returns (seen: bool)
      requires Valid() && Fits(log, Lookup(pid, got)) && Fits(log, Store(pid, stored)) && got <= stored
      modifies this
      ensures Valid()
      ensures log == old(log) + [Lookup(pid, got)] + seq(|cleanUps|, i requires 0 <= i < |cleanUps| => CleanUp(cleanUps[i])) + [Store(pid, stored)]
      ensures seen == old(Recent(log, pid, got))
    {
      FitsAppend(log, Lookup(pid, got), Store(pid, stored));
      seen := Get(pid, got);
      ghost var looked := log;
      var i := 0;
      while i < |cleanUps|
        invariant i <= |cleanUps| && Valid() && Fits(log, Store(pid, stored))
        invariant log == looked + seq(i, k requires 0 <= k < i => CleanUp(cleanUps[k]))
      {
        FitsAppend(log, CleanUp(cleanUps[i]), Store(pid, stored));
        DeleteExpired(cleanUps[i]);
        i := i + 1;
      }
      Set(pid, stored);
    }
  }
}
