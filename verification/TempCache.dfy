/** The temperature caches shared by all open pages. */
module TempCache {
  import opened Names

  const TEMP_UNKNOWN := "--°C"

  /** The last fetch: what it gave, and when it was recorded. */
  datatype Cached = Cached(value: string, at: int)

  /** A call: when it looks, what a fetch would give then (None is a failure), and when it would be recorded. */
  datatype Call = Call(now: int, result: Option<string>, recorded: int)

  function Fetched(c: Call): string {
    if c.result.Some? then c.result.value else TEMP_UNKNOWN
  }

  predicate Stale(cached: Option<Cached>, now: int, period: int) {
    cached.None? || now - cached.value.at >= period
  }

  function Update(cached: Option<Cached>, c: Call, period: int): Option<Cached> {
    if Stale(cached, c.now, period) then Some(Cached(Fetched(c), c.recorded)) else cached
  }

  /** The cache after a run of calls. */
  function After(calls: seq<Call>, period: int): Option<Cached> {
    if calls == [] then None
    else Update(After(calls[..|calls| - 1], period), calls[|calls| - 1], period)
  }

  /** Call j of the run goes to the server. */
  predicate Fetches(calls: seq<Call>, j: nat, period: int)
    requires j < |calls|
  {
    Stale(After(calls[..j], period), calls[j].now, period)
  }

  function AnswerTo(calls: seq<Call>, j: nat, period: int): string
    requires j < |calls|
  {
    Update(After(calls[..j], period), calls[j], period).value.value
  }

  /** The mutex makes the calls one after the other. */
  predicate InOrder(calls: seq<Call>) {
    && (forall i :: 0 <= i < |calls| ==> calls[i].now <= calls[i].recorded)
    && (forall i, j :: 0 <= i < j < |calls| ==> calls[i].recorded <= calls[j].now)
  }

  /** The cache as the service holds it. */
  class CachedTemp {
    var cached: Option<Cached>
    const period: int
    ghost var calls: seq<Call>

    ghost predicate Valid()
      reads this
    {
      cached == After(calls, period)
    }

    constructor (period: int)
      ensures Valid() && calls == [] && this.period == period
    {
      cached, calls, this.period := None, [], period;
    }

    method Temperature(c: Call) returns (temp: string)
      requires Valid()
      modifies this
      ensures Valid() && calls == old(calls) + [c]
      ensures temp == AnswerTo(calls, |calls| - 1, period)
    {
      ghost var before := calls;
      calls := calls + [c];
      assert calls[..|calls| - 1] == before;
      if cached.Some? && c.now - cached.value.at < period {
        return cached.value.value;
      }
      temp := TEMP_UNKNOWN;
      if c.result.Some? { temp := c.result.value; }
      cached := Some(Cached(temp, c.recorded));
    }
  }

  // ---------------------------------------------------------------------------------------------
  // Where answers come from
  // ---------------------------------------------------------------------------------------------

  lemma FetchesInPrefix(calls: seq<Call>, n: nat, k: nat, period: int)
    requires k < n <= |calls|
    ensures Fetches(calls[..n], k, period) <==> Fetches(calls, k, period)
  {
    assert calls[..n][..k] == calls[..k];
  }

  lemma {:induction false} HoldsTheLastFetch(calls: seq<Call>, period: int) returns (i: nat)
    requires calls != []
    ensures i < |calls| && Fetches(calls, i, period)
    ensures After(calls, period) == Some(Cached(Fetched(calls[i]), calls[i].recorded))
    ensures forall k :: i < k < |calls| ==> !Fetches(calls, k, period)
  {
    var n := |calls| - 1;
    if Fetches(calls, n, period) { return n; }
    assert calls[..n] != [];
    i := HoldsTheLastFetch(calls[..n], period);
    FetchesInPrefix(calls, n, i, period);
    forall k | i < k < |calls| ensures !Fetches(calls, k, period) {
      if k < n { FetchesInPrefix(calls, n, k, period); }
    }
  }

  /** Every answer is that of a fetch by the call itself, or of the last fetch, recorded less than a period before. */
  lemma AnswersAreRecent(calls: seq<Call>, j: nat, period: int) returns (i: nat)
    requires j < |calls|
    ensures i <= j && Fetches(calls, i, period)
    ensures AnswerTo(calls, j, period) == if calls[i].result.Some? then calls[i].result.value else "--°C"
    ensures forall k :: i < k <= j ==> !Fetches(calls, k, period)
    ensures i < j ==> calls[j].now - calls[i].recorded < period
  {
    if Fetches(calls, j, period) { return j; }
    assert calls[..j] != [];
    i := HoldsTheLastFetch(calls[..j], period);
    FetchesInPrefix(calls, j, i, period);
    forall k | i < k < j ensures !Fetches(calls, k, period) { FetchesInPrefix(calls, j, k, period); }
  }

  // ---------------------------------------------------------------------------------------------
  // How often the server is asked
  // ---------------------------------------------------------------------------------------------

  lemma FetchesAreSpaced(calls: seq<Call>, i: nat, j: nat, period: int)
    requires InOrder(calls) && i < j < |calls| && Fetches(calls, i, period) && Fetches(calls, j, period)
    ensures calls[j].now >= calls[i].recorded + period
  {
    var before := calls[..j];
    var last := HoldsTheLastFetch(before, period);
    FetchesInPrefix(calls, j, i, period);
    assert i <= last;
    assert calls[i].recorded <= calls[last].recorded;
  }

  /** The fetches of the run that start within [from, to]. */
  function Count(calls: seq<Call>, period: int, from: int, to: int): nat {
    if calls == [] then 0
    else
      var n := |calls| - 1;
      Count(calls[..n], period, from, to) +
      if Fetches(calls, n, period) && from <= calls[n].now <= to then 1 else 0
  }

  lemma OneMore(c: int, period: int, x: int, y: int)
    requires (c - 1) * period <= x && x + period <= y
    ensures c * period <= y
  {
    assert c * period == (c - 1) * period + period;
  }

  lemma {:induction false} LastCounted(calls: seq<Call>, period: int, from: int, to: int) returns (i: nat)
    requires InOrder(calls) && period > 0 && Count(calls, period, from, to) > 0
    ensures i < |calls| && Fetches(calls, i, period) && from <= calls[i].now <= to
    ensures (Count(calls, period, from, to) - 1) * period <= calls[i].now - from
  {
    var n := |calls| - 1;
    var c := Count(calls[..n], period, from, to);
    if c > 0 {
      i := LastCounted(calls[..n], period, from, to);
      assert calls[..n][..i] == calls[..i];
      if Fetches(calls, n, period) && from <= calls[n].now <= to {
        FetchesAreSpaced(calls, i, n, period);
        OneMore(c, period, calls[i].now - from, calls[n].now - from);
        i := n;
      }
    } else {
      i := n;
    }
  }

  /** However many pages are open, a stretch of time has at most one fetch more than it has whole periods. */
  lemma FetchesAreRare(calls: seq<Call>, period: int, from: int, length: nat)
    requires InOrder(calls) && period > 0
    ensures Count(calls, period, from, from + length) <= length / period + 1
  {
    if Count(calls, period, from, from + length) > 0 {
      var i := LastCounted(calls, period, from, from + length);
      Quotient(Count(calls, period, from, from + length) - 1, period, length);
    }
  }

  lemma Quotient(q: int, b: int, a: int)
    requires b > 0 && q * b <= a
    ensures q <= a / b
  {
    var d := q - a / b;
    assert q * b == a / b * b + d * b && a == a / b * b + a % b;
    assert d >= 1 ==> d * b >= b;
  }

  // ---------------------------------------------------------------------------------------------
  // Two caches
  // ---------------------------------------------------------------------------------------------

  datatype Which = Aquarium | Room

  /** The calls of a run that go to one of the caches. */
  function To(which: Which, run: seq<(Which, Call)>): seq<Call> {
    if run == [] then []
    else
      var n := |run| - 1;
      To(which, run[..n]) + if run[n].0 == which then [run[n].1] else []
  }

  lemma ToOneMore(which: Which, run: seq<(Which, Call)>, j: nat)
    requires j < |run|
    ensures To(which, run[..j + 1]) == To(which, run[..j]) + if run[j].0 == which then [run[j].1] else []
  {
    assert run[..j + 1][..j] == run[..j];
  }

  /** What the j-th call of a run is answered, from the calls to its own cache alone. */
  function OwnAnswer(run: seq<(Which, Call)>, j: nat, period: int): string
    requires j < |run|
  {
    var mine := To(run[j].0, run[..j]) + [run[j].1];
    AnswerTo(mine, |mine| - 1, period)
  }

  /** The two caches of the service. */
  class Scaffold {
    const aquarium: CachedTemp
    const room: CachedTemp

    ghost predicate Valid()
      reads this, aquarium, room
    {
      aquarium != room && aquarium.Valid() && room.Valid()
    }

    /** What each cache has been asked is the part of the run that is for it. */
    ghost predicate Served(run: seq<(Which, Call)>)
      reads this, aquarium, room
    {
      Valid() && aquarium.calls == To(Aquarium, run) && room.calls == To(Room, run)
    }

    constructor (period: int)
      ensures Served([]) && fresh(aquarium) && fresh(room)
      ensures aquarium.period == period && room.period == period
    {
      aquarium := new CachedTemp(period);
      room := new CachedTemp(period);
    }

    method Ask(which: Which, c: Call, ghost run: seq<(Which, Call)>) returns (temp: string)
      requires Served(run) && aquarium.period == room.period
      modifies aquarium, room
      ensures Served(run + [(which, c)])
      ensures temp == OwnAnswer(run + [(which, c)], |run|, room.period)
    {
      ghost var run' := run + [(which, c)];
      assert run'[..|run|] == run && run'[..|run| + 1] == run';
      ToOneMore(Aquarium, run', |run|);
      ToOneMore(Room, run', |run|);
      match which
      case Aquarium => temp := aquarium.Temperature(c);
      case Room => temp := room.Temperature(c);
    }

    /** However the calls to the two are interleaved, each is answered as by a cache that is alone. */
    method Serve(run: seq<(Which, Call)>) returns (temps: seq<string>)
      requires Served([]) && aquarium.period == room.period
      modifies aquarium, room
      ensures Served(run) && |temps| == |run|
      ensures forall j :: 0 <= j < |run| ==> temps[j] == OwnAnswer(run, j, room.period)
    {
      temps := [];
      assert run[..0] == [];
      for i := 0 to |run|
        invariant Served(run[..i]) && |temps| == i
        invariant forall j :: 0 <= j < i ==> temps[j] == OwnAnswer(run, j, room.period)
      {
        var temp := Ask(run[i].0, run[i].1, run[..i]);
        assert run[..i] + [(run[i].0, run[i].1)] == run[..i + 1];
        assert run[..i + 1][..i] == run[..i] && run[..i + 1][i] == run[i];
        temps := temps + [temp];
      }
      assert run[..|run|] == run;
    }
  }
}
