/**
Progress: in a fair infinite behaviour a submission is handed to the publish function if and only if it is
not overridden, by a Submit of its instance while its timer is armed or by a Stop before its callback took
the lock. When publish calls return, so does every Stop.

At each moment of a behaviour the debouncer makes one move or, while the rest of the process moves, none.
*/
module DebouncerLiveness {
  import opened Wrappers
  import opened Debouncer
  import opened DebouncerSafety

  ghost predicate Moves(s: State, a: Option<Action>, s': State) {
    match a
    case None => s' == s
    case Some(x) => Enabled(s, x) && s' == Next(s, x)
  }

  ghost predicate IsBehaviour(run: nat -> State, act: nat -> Option<Action>) {
    Inv(run(0)) && forall k: nat :: Moves(run(k), act(k), run(k + 1))
  }

  /** The runtime or the scheduler has something to do for timer t. */
  ghost predicate Ready(s: State, t: nat) {
    Due(s, t) || At(s, t, Expired) || At(s, t, Entered)
  }

  ghost predicate ServedBy(run: nat -> State, t: nat, k: nat, m: nat) {
    m >= k && t < |run(k).pool| && t < |run(m).pool| && run(m).pool[t].phase != run(k).pool[t].phase
  }

  ghost predicate Reached(run: nat -> State, time: nat) {
    exists m: nat :: run(m).now >= time
  }

  /** Time passes, and no timer stays due, no callback stays started, and no publish call stays uncalled for ever. */
  ghost predicate Fair(run: nat -> State) {
    && (forall time: nat :: Reached(run, time))
    && (forall k: nat, t: nat | Ready(run(k), t) :: exists m: nat :: ServedBy(run, t, k, m))
  }

  /** The event of timer t was, or can still be, handed to the publish function. */
  ghost predicate Hopeful(s: State, t: nat) {
    && Alive(s, t)
    && (s.stopped ==> !s.pool[t].phase.Armed? && !s.pool[t].phase.Expired?)
  }

  /** The move takes that hope away: it stops the armed timer, or the debouncer before the callback's lock. */
  ghost predicate Overrides(s: State, t: nat, a: Option<Action>) {
    && t < |s.pool| && a.Some?
    && match a.value
       case Submit(id, _) => !s.stopped && s.pool[t].phase.Armed? && id in s.timers && s.timers[id] == t
       case StopLock => s.pool[t].phase.Armed? || s.pool[t].phase.Expired?
       case _ => false
  }

  function Rank(phase: Phase): nat {
    match phase
    case Armed(_) => 0
    case Expired => 1
    case Entered => 2
    case Publishing => 3
    case Published => 4
    case Cancelled => 5
    case Discarded => 5
  }

  // ---- One move ----

  lemma MoveKeepsInv(s: State, a: Option<Action>, s': State)
    requires Inv(s) && Moves(s, a, s')
    ensures Inv(s') && s.now <= s'.now && |s.pool| <= |s'.pool|
  {
    if a.Some? {
      StepKeepsInv(s, a.value);
    }
  }

  lemma HopefulMove(s: State, a: Option<Action>, s': State, t: nat)
    requires Inv(s) && Moves(s, a, s') && Hopeful(s, t) && !Overrides(s, t, a)
    ensures Forward(s, s', t)
  {
    if a.Some? {
      match a.value {
        case Submit(_, _) =>
        case StopLock => assert !s.pool[t].phase.Armed?;
        case Lock(u) => assert u == t ==> !s.stopped;
        case _ =>
      }
    }
  }

  lemma OverriddenMove(s: State, a: Option<Action>, s': State, t: nat)
    requires Moves(s, a, s') && Overrides(s, t, a)
    ensures t < |s'.pool| && !Hopeful(s', t)
  {
  }

  lemma HopelessMove(s: State, a: Option<Action>, s': State, t: nat)
    requires Moves(s, a, s') && t < |s.pool| && !Hopeful(s, t)
    ensures t < |s'.pool| && !Hopeful(s', t)
  {
    if a.Some? {
      match a.value {
        case Submit(_, _) =>
        case StopLock =>
        case _ =>
      }
    }
  }

  lemma CalledMove(s: State, a: Option<Action>, s': State, t: nat)
    requires Moves(s, a, s') && t in s.calls
    ensures t in s'.calls
  {
  }

  // ---- Along a behaviour ----

  lemma {:induction false} InvAlong(run: nat -> State, act: nat -> Option<Action>, k: nat, m: nat)
    requires IsBehaviour(run, act) && k <= m
    ensures Inv(run(k)) && Inv(run(m)) && run(k).now <= run(m).now && |run(k).pool| <= |run(m).pool|
  {
    if k < m {
      InvAlong(run, act, k, m - 1);
      MoveKeepsInv(run(m - 1), act(m - 1), run(m));
    } else if k > 0 {
      InvAlong(run, act, k - 1, k - 1);
      MoveKeepsInv(run(k - 1), act(k - 1), run(k));
    }
  }

  /** What holds at moment k and is kept by every move holds at every later moment. */
  lemma {:induction false} Stays(holds: nat -> bool, k: nat, m: nat)
    requires k <= m && holds(k) && forall i: nat | k <= i && holds(i) :: holds(i + 1)
    ensures holds(m)
  {
    if k < m {
      Stays(holds, k, m - 1);
    }
  }

  lemma HopelessAlong(run: nat -> State, act: nat -> Option<Action>, t: nat, k: nat, m: nat)
    requires IsBehaviour(run, act) && k <= m && t < |run(k).pool| && !Hopeful(run(k), t)
    ensures t < |run(m).pool| && !Hopeful(run(m), t)
  {
    var holds := (i: nat) => t < |run(i).pool| && !Hopeful(run(i), t);
    forall i: nat | k <= i && holds(i) ensures holds(i + 1) {
      HopelessMove(run(i), act(i), run(i + 1), t);
    }
    Stays(holds, k, m);
  }

  lemma CalledAlong(run: nat -> State, act: nat -> Option<Action>, t: nat, k: nat, m: nat)
    requires IsBehaviour(run, act) && k <= m && t in run(k).calls
    ensures t in run(m).calls
  {
    var holds := (i: nat) => t in run(i).calls;
    forall i: nat | k <= i && holds(i) ensures holds(i + 1) {
      CalledMove(run(i), act(i), run(i + 1), t);
    }
    Stays(holds, k, m);
  }

  ghost predicate NeverOverridden(run: nat -> State, act: nat -> Option<Action>, t: nat, k: nat) {
    forall m: nat | k <= m :: !Overrides(run(m), t, act(m))
  }

  /** Between s and the later s', timer t kept its hope and did not go back. */
  ghost predicate Forward(s: State, s': State, t: nat)
    requires t < |s.pool|
  {
    && Hopeful(s', t) && Rank(s.pool[t].phase) <= Rank(s'.pool[t].phase)
    && (s'.pool[t].phase.Armed? ==> s'.pool[t].phase == s.pool[t].phase)
  }

  lemma HopefulAlong(run: nat -> State, act: nat -> Option<Action>, t: nat, k: nat, m: nat)
    requires IsBehaviour(run, act) && k <= m && Hopeful(run(k), t) && NeverOverridden(run, act, t, k)
    ensures Forward(run(k), run(m), t)
  {
    var holds := (i: nat) => Forward(run(k), run(i), t);
    forall i: nat | k <= i && holds(i) ensures holds(i + 1) {
      InvAlong(run, act, 0, i);
      HopefulMove(run(i), act(i), run(i + 1), t);
    }
    Stays(holds, k, m);
  }

  /** From a state where the timer is ready, its rank eventually grows. */
  lemma Advances(run: nat -> State, act: nat -> Option<Action>, t: nat, k: nat, m: nat) returns (n: nat)
    requires IsBehaviour(run, act) && Fair(run) && k <= m
    requires Hopeful(run(k), t) && NeverOverridden(run, act, t, k) && Hopeful(run(m), t) && Ready(run(m), t)
    ensures m <= n && Hopeful(run(n), t) && Rank(run(m).pool[t].phase) < Rank(run(n).pool[t].phase)
  {
    n :| ServedBy(run, t, m, n);
    assert NeverOverridden(run, act, t, m);
    HopefulAlong(run, act, t, m, n);
  }

  /** A moment from which on timer t, if still armed, is due. */
  lemma BecomesDue(run: nat -> State, act: nat -> Option<Action>, t: nat, k: nat) returns (n: nat)
    requires IsBehaviour(run, act) && Fair(run)
    requires Hopeful(run(k), t) && NeverOverridden(run, act, t, k)
    ensures k <= n && Hopeful(run(n), t) && (run(n).pool[t].phase.Armed? ==> Due(run(n), t))
  {
    var deadline := if run(k).pool[t].phase.Armed? then run(k).pool[t].phase.deadline else 0;
    assert Reached(run, deadline);
    var late: nat :| run(late).now >= deadline;
    n := if late < k then k else late;
    InvAlong(run, act, late, n);
    HopefulAlong(run, act, t, k, n);
  }

  lemma IsPublished(run: nat -> State, act: nat -> Option<Action>, t: nat, k: nat) returns (n: nat)
    requires IsBehaviour(run, act) && Fair(run)
    requires Hopeful(run(k), t) && NeverOverridden(run, act, t, k)
    ensures k <= n && t in run(n).calls
  {
    n := BecomesDue(run, act, t, k);
    if Rank(run(n).pool[t].phase) < 1 {
      n := Advances(run, act, t, k, n);
    }
    if Rank(run(n).pool[t].phase) < 2 {
      n := Advances(run, act, t, k, n);
    }
    if Rank(run(n).pool[t].phase) < 3 {
      n := Advances(run, act, t, k, n);
    }
    InvAlong(run, act, 0, n);
    assert Called(run(n), t);
  }

  lemma CalledIsHopeful(s: State, t: nat, a: Option<Action>)
    requires Inv(s) && t in s.calls
    ensures Hopeful(s, t) && !Overrides(s, t, a)
  {
    assert Called(s, t);
  }

  /**
  In every fair behaviour, from any of its states on: a submission is handed to the publish function if and
  only if it still can be and no later move overrides it.
  */
  lemma PublishedUnlessOverridden(run: nat -> State, act: nat -> Option<Action>, t: nat, k: nat)
    requires IsBehaviour(run, act) && Fair(run) && t < |run(k).pool|
    ensures (exists n: nat :: t in run(n).calls) <==> Hopeful(run(k), t) && NeverOverridden(run, act, t, k)
  {
    if Hopeful(run(k), t) && NeverOverridden(run, act, t, k) {
      var n := IsPublished(run, act, t, k);
    }
    if n: nat :| t in run(n).calls {
      if !Hopeful(run(k), t) {
        CalledStaysHopeful(run, act, t, n, k);
      }
      forall m: nat | k <= m ensures !Overrides(run(m), t, act(m)) {
        if Overrides(run(m), t, act(m)) {
          OverriddenMove(run(m), act(m), run(m + 1), t);
          CalledStaysHopeful(run, act, t, n, m);
        }
      }
    }
  }

  /** A state in which a called submission has no hope left, or is about to lose it, does not exist. */
  lemma CalledStaysHopeful(run: nat -> State, act: nat -> Option<Action>, t: nat, n: nat, m: nat)
    requires IsBehaviour(run, act) && t in run(n).calls && t < |run(m).pool|
    ensures Hopeful(run(m), t) && !Overrides(run(m), t, act(m))
  {
    if n <= m {
      CalledAlong(run, act, t, n, m);
      InvAlong(run, act, 0, m);
      CalledIsHopeful(run(m), t, act(m));
    } else {
      InvAlong(run, act, 0, n);
      CalledIsHopeful(run(n), t, act(n));
      if !Hopeful(run(m), t) {
        HopelessAlong(run, act, t, m, n);
      }
      if Overrides(run(m), t, act(m)) {
        OverriddenMove(run(m), act(m), run(m + 1), t);
        HopelessAlong(run, act, t, m + 1, n);
      }
    }
  }

  /** No Stop and no Submit for `id` from moment k on. */
  ghost predicate Undisturbed(act: nat -> Option<Action>, id: Id, k: nat) {
    forall m: nat | k <= m && act(m).Some? :: !act(m).value.StopLock? && (act(m).value.Submit? ==> act(m).value.id != id)
  }

  /**
  The newest submission of an instance, in a debouncer that is not stopped, is handed to the publish
  function in every fair behaviour without a later Submit for the instance and without a Stop.
  */
  lemma LatestEventIsPublished(run: nat -> State, act: nat -> Option<Action>, t: nat, k: nat) returns (n: nat)
    requires IsBehaviour(run, act) && Fair(run)
    requires !run(k).stopped && Newest(run(k), t) && Undisturbed(act, run(k).pool[t].id, k)
    ensures t in run(n).calls
  {
    InvAlong(run, act, 0, k);
    assert Alive(run(k), t);
    forall m: nat | k <= m ensures !Overrides(run(m), t, act(m)) {
      InvAlong(run, act, 0, m);
      SameInstance(run, act, t, k, m);
    }
    n := IsPublished(run, act, t, k);
  }

  lemma InstanceMove(s: State, a: Option<Action>, s': State, t: nat)
    requires Moves(s, a, s') && t < |s.pool|
    ensures t < |s'.pool| && s'.pool[t].id == s.pool[t].id && s'.pool[t].event == s.pool[t].event
  {
    if a.Some? {
      SameTimers(s, a.value);
    }
  }

  lemma SameInstance(run: nat -> State, act: nat -> Option<Action>, t: nat, k: nat, m: nat)
    requires IsBehaviour(run, act) && k <= m && t < |run(k).pool|
    ensures t < |run(m).pool| && run(m).pool[t].id == run(k).pool[t].id && run(m).pool[t].event == run(k).pool[t].event
  {
    var first := run(k).pool[t];
    var holds := (i: nat) => t < |run(i).pool| && run(i).pool[t].id == first.id && run(i).pool[t].event == first.event;
    forall i: nat | k <= i && holds(i) ensures holds(i + 1) {
      InstanceMove(run(i), act(i), run(i + 1), t);
    }
    Stays(holds, k, m);
  }

  lemma ArmedMove(s: State, a: Option<Action>, s': State, t: nat)
    requires Moves(s, a, s') && t < |s.pool|
    ensures t < |s'.pool| && (s'.pool[t].phase.Armed? ==> s'.pool[t].phase == s.pool[t].phase)
  {
    if a.Some? {
      match a.value {
        case Submit(_, _) =>
        case StopLock =>
        case _ =>
      }
    }
  }

  /** A timer is armed once, and keeps its deadline while it is. */
  lemma ArmedAlong(run: nat -> State, act: nat -> Option<Action>, t: nat, k: nat, m: nat)
    requires IsBehaviour(run, act) && k <= m && t < |run(k).pool|
    ensures t < |run(m).pool| && (run(m).pool[t].phase.Armed? ==> run(m).pool[t].phase == run(k).pool[t].phase)
  {
    var phase := run(k).pool[t].phase;
    var holds := (i: nat) => t < |run(i).pool| && (run(i).pool[t].phase.Armed? ==> run(i).pool[t].phase == phase);
    forall i: nat | k <= i && holds(i) ensures holds(i + 1) {
      ArmedMove(run(i), act(i), run(i + 1), t);
    }
    Stays(holds, k, m);
  }

  // ---- Stop returns ----

  /** Every publish call returns, and a Stop that can return is eventually let to. */
  ghost predicate CallsReturn(run: nat -> State) {
    forall k: nat, t: nat | At(run(k), t, Publishing) :: exists m: nat :: ServedBy(run, t, k, m)
  }

  ghost predicate StopReturnsBy(act: nat -> Option<Action>, k: nat, m: nat) {
    k <= m && act(m) == Some(StopReturn)
  }

  ghost predicate StopsProceed(run: nat -> State, act: nat -> Option<Action>) {
    forall k: nat | Enabled(run(k), StopReturn) :: exists m: nat :: StopReturnsBy(act, k, m)
  }

  /** In flight, or already returned from there. */
  ghost predicate PastLock(s: State, t: nat, rank: nat) {
    t < |s.pool| && 2 <= rank <= Rank(s.pool[t].phase) <= 4
  }

  lemma PastLockMove(s: State, a: Option<Action>, s': State, t: nat, rank: nat)
    requires Moves(s, a, s') && PastLock(s, t, rank)
    ensures PastLock(s', t, rank)
  {
    if a.Some? {
      match a.value {
        case Submit(_, _) =>
        case StopLock =>
        case _ =>
      }
    }
  }

  lemma PastLockAlong(run: nat -> State, act: nat -> Option<Action>, t: nat, rank: nat, k: nat, m: nat)
    requires IsBehaviour(run, act) && k <= m && PastLock(run(k), t, rank)
    ensures PastLock(run(m), t, rank)
  {
    var holds := (i: nat) => PastLock(run(i), t, rank);
    forall i: nat | k <= i && holds(i) ensures holds(i + 1) {
      PastLockMove(run(i), act(i), run(i + 1), t, rank);
    }
    Stays(holds, k, m);
  }

  /** A callback in flight eventually leaves. */
  lemma {:induction false} Leaves(run: nat -> State, act: nat -> Option<Action>, t: nat, rank: nat, k: nat) returns (n: nat)
    requires IsBehaviour(run, act) && Fair(run) && CallsReturn(run) && PastLock(run(k), t, rank)
    ensures k <= n && PastLock(run(n), t, 4)
    decreases 4 - rank
  {
    if rank == 4 {
      return k;
    }
    var now := Rank(run(k).pool[t].phase);
    if now > rank {
      n := Leaves(run, act, t, now, k);
    } else {
      assert if rank == 2 then Ready(run(k), t) else At(run(k), t, Publishing);
      var m: nat :| ServedBy(run, t, k, m);
      PastLockAlong(run, act, t, rank, k, m);
      n := Leaves(run, act, t, rank + 1, m);
    }
  }

  lemma StoppedMove(s: State, a: Option<Action>, s': State)
    requires Moves(s, a, s') && s.stopped
    ensures s'.stopped && Flight(s') <= Flight(s)
  {
    if a.Some? {
      match a.value {
        case Submit(_, _) =>
        case StopLock =>
        case _ =>
      }
    }
  }

  lemma StoppedAlong(run: nat -> State, act: nat -> Option<Action>, k: nat, m: nat)
    requires IsBehaviour(run, act) && k <= m && run(k).stopped
    ensures run(m).stopped && Flight(run(m)) <= Flight(run(k))
  {
    var holds := (i: nat) => run(i).stopped && Flight(run(i)) <= Flight(run(k));
    forall i: nat | k <= i && holds(i) ensures holds(i + 1) {
      StoppedMove(run(i), act(i), run(i + 1));
    }
    Stays(holds, k, m);
  }

  /** The callbacks `ts` in flight at moment k have all left at some moment. */
  lemma {:induction false} AllLeave(run: nat -> State, act: nat -> Option<Action>, ts: set<nat>, k: nat) returns (n: nat)
    requires IsBehaviour(run, act) && Fair(run) && CallsReturn(run)
    requires run(k).stopped && ts <= Flight(run(k))
    ensures k <= n && ts !! Flight(run(n))
    decreases |ts|
  {
    if ts == {} {
      return k;
    }
    var t :| t in ts;
    var m := AllLeave(run, act, ts - {t}, k);
    assert PastLock(run(k), t, 2);
    PastLockAlong(run, act, t, 2, k, m);
    n := Leaves(run, act, t, 2, m);
    StoppedAlong(run, act, k, m);
    StoppedAlong(run, act, m, n);
    assert t !in Flight(run(n));
  }

  /**
  In every fair behaviour in which each publish call returns: once a Stop has taken its locked section, the
  wait group reaches zero and stays there, so that from then on every Stop still waiting can return.
  */
  lemma WaitGroupDrains(run: nat -> State, act: nat -> Option<Action>, k: nat) returns (n: nat)
    requires IsBehaviour(run, act) && Fair(run) && CallsReturn(run) && run(k).stopped
    ensures k <= n
    ensures forall m: nat | n <= m :: run(m).wg == 0 && (run(m).waiting > 0 ==> Enabled(run(m), StopReturn))
  {
    n := AllLeave(run, act, Flight(run(k)), k);
    StoppedAlong(run, act, k, n);
    assert Flight(run(n)) == {};
    forall m: nat | n <= m ensures run(m).wg == 0 {
      InvAlong(run, act, 0, n);
      InvAlong(run, act, 0, m);
      StoppedAlong(run, act, n, m);
    }
  }

  lemma StopCountsMove(s: State, a: Option<Action>, s': State)
    requires Moves(s, a, s')
    ensures s.returned <= s'.returned && s.waiting + s.returned <= s'.waiting + s'.returned
    ensures a == Some(StopReturn) ==> s'.returned == s.returned + 1
  {
  }

  lemma StopCountsAlong(run: nat -> State, act: nat -> Option<Action>, k: nat, m: nat)
    requires IsBehaviour(run, act) && k <= m
    ensures run(k).returned <= run(m).returned
    ensures run(k).waiting + run(k).returned <= run(m).waiting + run(m).returned
  {
    var first := run(k);
    var holds := (i: nat) =>
      first.returned <= run(i).returned && first.waiting + first.returned <= run(i).waiting + run(i).returned;
    forall i: nat | k <= i && holds(i) ensures holds(i + 1) {
      StopCountsMove(run(i), act(i), run(i + 1));
    }
    Stays(holds, k, m);
  }

  lemma {:induction false} ReturnsReach(run: nat -> State, act: nat -> Option<Action>, total: nat, k: nat) returns (n: nat)
    requires IsBehaviour(run, act) && StopsProceed(run, act)
    requires forall m: nat | k <= m :: run(m).wg == 0
    requires total <= run(k).waiting + run(k).returned
    ensures k <= n && total <= run(n).returned
    decreases total - run(k).returned
  {
    if total <= run(k).returned {
      return k;
    }
    assert Enabled(run(k), StopReturn);
    var m: nat :| StopReturnsBy(act, k, m);
    StopCountsAlong(run, act, k, m);
    StopCountsMove(run(m), act(m), run(m + 1));
    n := ReturnsReach(run, act, total, m + 1);
  }

  /** Every Stop that was waiting at some moment k, or had returned by then, has returned at a later one. */
  lemma StopsReturn(run: nat -> State, act: nat -> Option<Action>, k: nat) returns (n: nat)
    requires IsBehaviour(run, act) && Fair(run) && CallsReturn(run) && StopsProceed(run, act)
    ensures k <= n && run(n).returned >= run(k).waiting + run(k).returned
  {
    InvAlong(run, act, 0, k);
    if run(k).waiting + run(k).returned == 0 {
      return k;
    }
    var m := WaitGroupDrains(run, act, k);
    StopCountsAlong(run, act, k, m);
    n := ReturnsReach(run, act, run(k).waiting + run(k).returned, m);
  }
}
