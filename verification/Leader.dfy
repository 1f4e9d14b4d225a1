/** The leader flag of each replica against the lock service that elects the leader. */
module Leader {
  import opened Names

  type Replica = nat

  /** Where the election loop of a replica is. Exited loops keep their flag, whatever it was. */
  datatype Place = Trying | Grabbed | Leading | Clearing | Exited

  /** lost: the Lost channel of the replica's current lock has fired. */
  datatype State = State(place: Place, flag: bool, cancelled: bool, lost: bool)

  datatype Sys = Sys(replicas: map<Replica, State>, holder: Option<Replica>)

  datatype Step =
    | Grant(r: Replica)            // Grab returns with the lock
    | GrabFails(r: Replica)
    | StoreTrue(r: Replica)
    | Revoke                       // the lock service takes the lock away and Lost fires
    | ObserveLost(r: Replica)
    | StoreFalse(r: Replica)
    | Cancel(r: Replica)
    | Exit(r: Replica)             // the loop sees the cancellation; it releases the lock if it leads

  predicate Enabled(s: Sys, step: Step) {
    match step
    case Grant(r) => r in s.replicas && s.replicas[r].place == Trying && s.holder == None
    case GrabFails(r) => r in s.replicas && s.replicas[r].place == Trying
    case StoreTrue(r) => r in s.replicas && s.replicas[r].place == Grabbed
    case Revoke => s.holder.Some? && s.holder.value in s.replicas
    case ObserveLost(r) => r in s.replicas && s.replicas[r].place == Leading && s.replicas[r].lost
    case StoreFalse(r) => r in s.replicas && s.replicas[r].place == Clearing
    case Cancel(r) => r in s.replicas
    case Exit(r) => r in s.replicas && s.replicas[r].cancelled && s.replicas[r].place in {Trying, Leading}
  }

  function Set(s: Sys, r: Replica, st: State): Sys {
    s.(replicas := s.replicas[r := st])
  }

  function Next(s: Sys, step: Step): Sys
    requires Enabled(s, step)
  {
    match step
    case Grant(r) => Set(s, r, s.replicas[r].(place := Grabbed, lost := false)).(holder := Some(r))
    case GrabFails(r) => s
    case StoreTrue(r) => Set(s, r, s.replicas[r].(place := Leading, flag := true))
    case Revoke => Set(s, s.holder.value, s.replicas[s.holder.value].(lost := true)).(holder := None)
    case ObserveLost(r) => Set(s, r, s.replicas[r].(place := Clearing))
    case StoreFalse(r) => Set(s, r, s.replicas[r].(place := Trying, flag := false))
    case Cancel(r) => Set(s, r, s.replicas[r].(cancelled := true))
    case Exit(r) =>
      Set(s, r, s.replicas[r].(place := Exited)).(holder := if s.holder == Some(r) then None else s.holder)
  }

  predicate Allowed(s: Sys, run: seq<Step>)
    decreases |run|
  {
    run == [] || (Enabled(s, run[0]) && Allowed(Next(s, run[0]), run[1..]))
  }

  function After(s: Sys, run: seq<Step>): Sys
    requires Allowed(s, run)
    decreases |run|
  {
    if run == [] then s else After(Next(s, run[0]), run[1..])
  }

  function Start(replicas: set<Replica>): Sys {
    Sys(map r | r in replicas :: State(Trying, false, false, false), None)
  }

  /** The flag is up exactly from the store after a grab to the store after the loss was observed. */
  predicate ReplicaInv(s: Sys, r: Replica)
    requires r in s.replicas
  {
    var st := s.replicas[r];
    && (st.place != Exited ==> (st.flag <==> st.place in {Leading, Clearing}))
    && (st.place == Exited ==> st.cancelled)
    && (st.place == Clearing ==> st.lost)
    && (st.place in {Grabbed, Leading} && !st.lost ==> s.holder == Some(r))
    && (s.holder == Some(r) ==> st.place in {Grabbed, Leading} && !st.lost)
  }

  ghost predicate Inv(s: Sys) {
    && (forall r :: r in s.replicas ==> ReplicaInv(s, r))
    && (s.holder.Some? ==> s.holder.value in s.replicas)
  }

  lemma InvStep(s: Sys, step: Step)
    requires Inv(s) && Enabled(s, step)
    ensures Inv(Next(s, step))
  {
  }

  lemma {:induction false} InvRun(s: Sys, run: seq<Step>)
    requires Inv(s) && Allowed(s, run)
    ensures Inv(After(s, run))
    decreases |run|
  {
    if run != [] {
      InvStep(s, run[0]);
      InvRun(Next(s, run[0]), run[1..]);
    }
  }

  /** A button packet gets through at replica r. */
  predicate Passes(s: Sys, r: Replica) {
    r in s.replicas && s.replicas[r].flag
  }

  /** r's loop has not exited and the Lost channel of its lock has not fired. */
  predicate Live(s: Sys, r: Replica) {
    r in s.replicas && !s.replicas[r].lost && s.replicas[r].place != Exited
  }

  /** In every reachable state, an open gate is the lock holder's if and only if its replica is live. */
  lemma GateIsTheHoldersExactly(replicas: set<Replica>, run: seq<Step>, s: Sys, r: Replica)
    requires Allowed(Start(replicas), run) && s == After(Start(replicas), run) && Passes(s, r)
    ensures s.holder == Some(r) <==> Live(s, r)
  {
    InvRun(Start(replicas), run);
    assert ReplicaInv(s, r);
  }

  /** Of two replicas with open gates at most one is live, and no other can hold the lock. */
  lemma AtMostOneLeader(replicas: set<Replica>, run: seq<Step>, s: Sys, a: Replica, b: Replica)
    requires Allowed(Start(replicas), run) && s == After(Start(replicas), run)
    requires Passes(s, a) && Passes(s, b) && a != b
    ensures !Live(s, a) || !Live(s, b)
    ensures Live(s, a) ==> s.holder == Some(a)
    ensures s.holder == Some(a) ==> !Live(s, b)
  {
    GateIsTheHoldersExactly(replicas, run, s, a);
    GateIsTheHoldersExactly(replicas, run, s, b);
  }

  /**
   * What the steps so far say of a replica: from a grab on it is Grabbed, Leading or Clearing until
   * it stores false, its flag goes up only in between, and only an exit after a cancellation ends it.
   */
  ghost predicate History(s: Sys, past: seq<Step>, r: Replica) {
    r in s.replicas ==>
      && (s.replicas[r].place in {Grabbed, Leading, Clearing} || s.replicas[r].flag ==> exists i :: GrantStands(past, r, i))
      && (s.replicas[r].flag ==> exists i :: RaiseStands(past, r, i))
      && (forall i :: RaiseStands(past, r, i) ==> s.replicas[r].flag)
      && (s.replicas[r].place == Exited <==> Exit(r) in past)
      && (s.replicas[r].cancelled <==> Cancel(r) in past)
  }

  /** The replica was granted the lock at i and has not stored false since. */
  predicate GrantStands(past: seq<Step>, r: Replica, i: int) {
    0 <= i < |past| && past[i] == Grant(r) && forall j :: i < j < |past| ==> past[j] != StoreFalse(r)
  }

  predicate RaiseStands(past: seq<Step>, r: Replica, i: int) {
    0 <= i < |past| && past[i] == StoreTrue(r) && forall j :: i < j < |past| ==> past[j] != StoreFalse(r)
  }

  lemma StandsNext(past: seq<Step>, step: Step, r: Replica, i: int)
    ensures GrantStands(past, r, i) && step != StoreFalse(r) ==> GrantStands(past + [step], r, i)
    ensures RaiseStands(past, r, i) && step != StoreFalse(r) ==> RaiseStands(past + [step], r, i)
    ensures RaiseStands(past + [step], r, i) ==>
              if i == |past| then step == StoreTrue(r) else RaiseStands(past, r, i) && step != StoreFalse(r)
  {
    var past' := past + [step];
    assert past'[|past|] == step;
    assert forall j :: 0 <= j < |past| ==> past'[j] == past[j];
  }

  lemma HistoryStep(s: Sys, past: seq<Step>, step: Step, r: Replica)
    requires Inv(s) && History(s, past, r) && Enabled(s, step)
    ensures History(Next(s, step), past + [step], r)
  {
    var s', past' := Next(s, step), past + [step];
    if r in s.replicas {
      forall i ensures RaiseStands(past', r, i) ==> s'.replicas[r].flag { StandsNext(past, step, r, i); }
      assert forall x :: x in past' <==> x in past || x == step;
      if step == Grant(r) { assert GrantStands(past', r, |past|); }
      if step == StoreTrue(r) { assert RaiseStands(past', r, |past|); }
      if i :| GrantStands(past, r, i) { StandsNext(past, step, r, i); }
      if i :| RaiseStands(past, r, i) { StandsNext(past, step, r, i); }
    }
  }

  lemma {:induction false} HistoryRun(s: Sys, past: seq<Step>, run: seq<Step>, r: Replica)
    requires Inv(s) && History(s, past, r) && Allowed(s, run)
    ensures History(After(s, run), past + run, r)
    decreases |run|
  {
    if run == [] {
      assert past + run == past;
    } else {
      HistoryStep(s, past, run[0], r);
      InvStep(s, run[0]);
      HistoryRun(Next(s, run[0]), past + [run[0]], run[1..], r);
      assert past + [run[0]] + run[1..] == past + run;
    }
  }

  /**
   * In every run from the start, a gate is open if and only if it was raised and not lowered since,
   * and then the replica was granted the lock and has not stored false since: after an observed
   * loss the gate stays closed until the next grant.
   */
  lemma GateNeedsAGrant(replicas: set<Replica>, run: seq<Step>, s: Sys, r: Replica)
    requires Allowed(Start(replicas), run) && s == After(Start(replicas), run) && r in s.replicas
    ensures Passes(s, r) <==> exists i :: RaiseStands(run, r, i)
    ensures Passes(s, r) ==> exists i :: GrantStands(run, r, i)
    ensures Live(s, r) <==> Exit(r) !in run && !s.replicas[r].lost
  {
    HistoryRun(Start(replicas), [], run, r);
    assert [] + run == run;
  }

  lemma Prepend(s: Sys, step: Step, rest: seq<Step>) returns (run: seq<Step>)
    requires Enabled(s, step) && Allowed(Next(s, step), rest)
    ensures Allowed(s, run) && After(s, run) == After(Next(s, step), rest)
  {
    run := [step] + rest;
    assert run[1..] == rest;
  }

  /** The condition on losses is needed: with a loss not yet observed, any two running replicas can have open gates. */
  lemma UnobservedLossOpensTwoGates(replicas: set<Replica>, a: Replica, b: Replica) returns (run: seq<Step>)
    requires a in replicas && b in replicas && a != b
    ensures Allowed(Start(replicas), run)
    ensures var s := After(Start(replicas), run);
            Passes(s, a) && !s.replicas[a].cancelled && !Live(s, a) && Passes(s, b) && Live(s, b)
  {
    var s0 := Start(replicas);
    var s1 := Next(s0, Grant(a));
    var s2 := Next(s1, StoreTrue(a));
    var s3 := Next(s2, Revoke);
    var s4 := Next(s3, Grant(b));
    run := Prepend(s4, StoreTrue(b), []);
    run := Prepend(s3, Grant(b), run);
    run := Prepend(s2, Revoke, run);
    run := Prepend(s1, StoreTrue(a), run);
    run := Prepend(s0, Grant(a), run);
  }

  /** The condition on the loop is needed: a cancelled leader's gate stays open after its loop has exited. */
  lemma CancelledLeaderKeepsItsGate(replicas: set<Replica>, a: Replica, b: Replica) returns (run: seq<Step>)
    requires a in replicas && b in replicas && a != b
    ensures Allowed(Start(replicas), run)
    ensures var s := After(Start(replicas), run);
            Passes(s, a) && !s.replicas[a].lost && !Live(s, a) && Passes(s, b) && Live(s, b)
  {
    var s0 := Start(replicas);
    var s1 := Next(s0, Grant(a));
    var s2 := Next(s1, StoreTrue(a));
    var s3 := Next(s2, Cancel(a));
    var s4 := Next(s3, Exit(a));
    var s5 := Next(s4, Grant(b));
    run := Prepend(s5, StoreTrue(b), []);
    run := Prepend(s4, Grant(b), run);
    run := Prepend(s3, Exit(a), run);
    run := Prepend(s2, Cancel(a), run);
    run := Prepend(s1, StoreTrue(a), run);
    run := Prepend(s0, Grant(a), run);
  }
}
