/**
What every run of the debouncer keeps, whatever the delay between a timer's expiry and its callback
taking the lock: the newest event of an instance is never lost, no submission is published twice, and
nothing is published once a Stop has returned.
*/
module DebouncerSafety {
  import opened Status
  import opened Debouncer

  /** No later submission carries the same instance ID. */
  ghost predicate Newest(s: State, t: nat) {
    t < |s.pool| && forall u | t < u < |s.pool| :: s.pool[u].id != s.pool[t].id
  }

  ghost predicate Called(s: State, t: nat) {
    t < |s.pool| && (s.pool[t].phase.Publishing? || s.pool[t].phase.Published?)
  }

  /** Armed, fired and waiting, in flight, or published. */
  ghost predicate Alive(s: State, t: nat) {
    t < |s.pool| && !s.pool[t].phase.Cancelled? && !s.pool[t].phase.Discarded?
  }

  ghost function Flight(s: State): set<nat> {
    set t: nat | t < |s.pool| && InFlight(s, t)
  }

  ghost predicate MapOk(s: State) {
    forall id | id in s.timers :: Newest(s, s.timers[id]) && s.pool[s.timers[id]].id == id
  }

  ghost predicate CallsOk(s: State) {
    && (forall t: nat :: t in s.calls <==> Called(s, t))
    && (forall i, j | 0 <= i < j < |s.calls| :: s.calls[i] != s.calls[j])
  }

  ghost predicate StopOk(s: State) {
    && (s.stopped ==> s.timers == map[])
    && (s.waiting + s.returned > 0 ==> s.stopped)
    && (s.returned > 0 ==> s.wg == 0)
  }

  ghost predicate NewestAlive(s: State) {
    !s.stopped ==> forall t: nat | Newest(s, t) :: Alive(s, t)
  }

  ghost predicate Inv(s: State) {
    MapOk(s) && CallsOk(s) && StopOk(s) && NewestAlive(s) && s.wg == |Flight(s)|
  }

  // ---- One step ----

  lemma FlightMove(s: State, t: nat, phase: Phase)
    requires t < |s.pool|
    ensures Flight(Move(s, t, phase)) ==
            if phase.Entered? || phase.Publishing? then Flight(s) + {t} else Flight(s) - {t}
  {
    var m := Move(s, t, phase);
    forall u: nat ensures InFlight(m, u) <==> if u == t then phase.Entered? || phase.Publishing? else InFlight(s, u) {
    }
  }

  lemma NewestMove(s: State, t: nat, phase: Phase)
    requires t < |s.pool|
    ensures forall u: nat :: Newest(Move(s, t, phase), u) <==> Newest(s, u)
  {
    var m := Move(s, t, phase);
    assert forall u | 0 <= u < |s.pool| :: m.pool[u].id == s.pool[u].id;
  }

  lemma SubmitKeepsInv(s: State, id: Id, event: StatusEvent)
    requires Inv(s)
    ensures Inv(Submitted(s, id, event))
  {
    if s.stopped {
      return;
    }
    var n := Submitted(s, id, event);
    var k := |s.pool|;
    assert forall u | 0 <= u < k :: n.pool[u].id == s.pool[u].id;
    forall u: nat ensures InFlight(n, u) <==> InFlight(s, u) {
    }
    assert Flight(n) == Flight(s);
    forall u: nat ensures Called(n, u) <==> Called(s, u) {
    }
    forall u: nat | Newest(n, u) ensures Alive(n, u) {
      if u < k {
        assert n.pool[k].id == id != n.pool[u].id;
        assert Newest(s, u);
        assert Alive(s, u);
      }
    }
    forall x | x in n.timers ensures Newest(n, n.timers[x]) && n.pool[n.timers[x]].id == x {
      if x != id {
        assert Newest(s, s.timers[x]);
      }
    }
  }

  lemma LockKeepsInv(s: State, t: nat)
    requires Inv(s) && At(s, t, Expired)
    ensures Inv(Locked(s, t))
  {
    var n := Locked(s, t);
    var phase := n.pool[t].phase;
    FlightMove(s, t, phase);
    NewestMove(s, t, phase);
    assert n.pool == Move(s, t, phase).pool;
    assert t !in Flight(s);
    assert Flight(n) == Flight(Move(s, t, phase));
    forall u: nat ensures Newest(n, u) <==> Newest(s, u) {
      assert Newest(n, u) <==> Newest(Move(s, t, phase), u);
    }
    forall u: nat ensures Called(n, u) <==> Called(s, u) {
    }
  }

  lemma StopKeepsInv(s: State)
    requires Inv(s)
    ensures Inv(Next(s, StopLock))
  {
    var n := Next(s, StopLock);
    forall u: nat ensures (InFlight(n, u) <==> InFlight(s, u)) && (Called(n, u) <==> Called(s, u)) {
    }
    assert Flight(n) == Flight(s);
  }

  lemma FlightOfPool(s: State, n: State)
    requires n.pool == s.pool
    ensures Flight(n) == Flight(s)
  {
    assert forall u: nat :: InFlight(n, u) <==> InFlight(s, u);
  }

  /** Expiry, the publish call and its return keep the wait group in step with the callbacks in flight. */
  lemma MoveKeepsCount(s: State, a: Action)
    requires s.wg == |Flight(s)| && Enabled(s, a)
    requires a.Expire? || a.Call? || a.Return?
    ensures Next(s, a).wg == |Flight(Next(s, a))|
  {
    var n := Next(s, a);
    var phase := n.pool[a.t].phase;
    FlightMove(s, a.t, phase);
    FlightOfPool(Move(s, a.t, phase), n);
    if a.Expire? {
      assert !InFlight(s, a.t) && a.t !in Flight(s);
      assert Flight(n) == Flight(s);
    } else {
      assert InFlight(s, a.t) && a.t in Flight(s);
      if a.Call? {
        assert Flight(n) == Flight(s);
      } else {
        assert Flight(n) == Flight(s) - {a.t};
      }
    }
  }

  lemma MoveKeepsCalls(s: State, a: Action)
    requires CallsOk(s) && Enabled(s, a)
    requires a.Expire? || a.Call? || a.Return?
    ensures CallsOk(Next(s, a))
  {
    var n := Next(s, a);
    forall u: nat ensures Called(n, u) <==> Called(s, u) || (a.Call? && u == a.t) {
    }
    assert a.Call? ==> a.t !in s.calls by { assert !Called(s, a.t) || !a.Call?; }
  }

  lemma MoveKeepsInv(s: State, a: Action)
    requires Inv(s) && Enabled(s, a)
    requires a.Expire? || a.Call? || a.Return?
    ensures Inv(Next(s, a))
  {
    var n := Next(s, a);
    var phase := n.pool[a.t].phase;
    MoveKeepsCount(s, a);
    MoveKeepsCalls(s, a);
    NewestMove(s, a.t, phase);
    assert n.pool == Move(s, a.t, phase).pool;
    forall u: nat ensures Newest(n, u) <==> Newest(s, u) {
      assert Newest(n, u) <==> Newest(Move(s, a.t, phase), u);
    }
    if s.returned > 0 && !a.Expire? {
      assert a.t in Flight(s);
    }
  }

  lemma StepKeepsInv(s: State, a: Action)
    requires Inv(s) && Enabled(s, a)
    ensures Inv(Next(s, a))
  {
    match a {
      case Submit(id, event) => SubmitKeepsInv(s, id, event);
      case Lock(t) => LockKeepsInv(s, t);
      case StopLock => StopKeepsInv(s);
      case Expire(_) => MoveKeepsInv(s, a);
      case Call(_) => MoveKeepsInv(s, a);
      case Return(_) => MoveKeepsInv(s, a);
      case Tick =>
        var n := Next(s, a);
        assert Flight(n) == Flight(s);
        assert forall u: nat :: (Newest(n, u) <==> Newest(s, u)) && (Called(n, u) <==> Called(s, u)) && (Alive(n, u) <==> Alive(s, u));
      case StopReturn =>
        var n := Next(s, a);
        assert Flight(n) == Flight(s);
        assert forall u: nat :: (Newest(n, u) <==> Newest(s, u)) && (Called(n, u) <==> Called(s, u)) && (Alive(n, u) <==> Alive(s, u));
    }
  }

  /** No action but a Submit creates a timer, none renames one, and a Stop is for good. */
  lemma SameTimers(s: State, a: Action)
    requires Enabled(s, a)
    ensures var n := Next(s, a);
            && |s.pool| <= |n.pool| && (!a.Submit? ==> |n.pool| == |s.pool|)
            && (forall u | 0 <= u < |s.pool| :: n.pool[u].id == s.pool[u].id && n.pool[u].event == s.pool[u].event)
            && (s.stopped ==> n.stopped)
  {
    match a {
      case Submit(_, _) =>
      case StopLock =>
      case _ =>
    }
  }

  // ---- Every run ----

  lemma {:induction false} RunKeepsInv(interval: nat, acts: seq<Action>)
    requires IsRun(interval, acts)
    ensures Inv(After(interval, acts))
  {
    if acts == [] {
      assert Flight(Init(interval)) == {};
    } else {
      var n := |acts| - 1;
      RunKeepsInv(interval, acts[..n]);
      StepKeepsInv(After(interval, acts[..n]), acts[n]);
    }
  }

  /**
  While the debouncer is not stopped, the newest event of every instance is armed, fired and waiting, in
  flight or published; every map entry names its instance's newest timer.
  */
  lemma LatestEventIsNeverLost(interval: nat, acts: seq<Action>, t: nat)
    requires IsRun(interval, acts)
    requires Newest(After(interval, acts), t) && !After(interval, acts).stopped
    ensures var s := After(interval, acts);
            && Alive(s, t)
            && (s.pool[t].id in s.timers ==> s.timers[s.pool[t].id] == t)
  {
    RunKeepsInv(interval, acts);
    var s := After(interval, acts);
    var id := s.pool[t].id;
    assert id in s.timers ==> Newest(s, s.timers[id]) && s.pool[s.timers[id]].id == id;
  }

  /** No submission is handed to the publish function twice, and only existing ones are. */
  lemma PublishedAtMostOnce(interval: nat, acts: seq<Action>, i: nat, j: nat)
    requires IsRun(interval, acts)
    requires i < |After(interval, acts).calls| && j < |After(interval, acts).calls|
    ensures var s := After(interval, acts);
            && s.calls[i] < |s.pool|
            && (s.calls[i] == s.calls[j] ==> i == j)
  {
    RunKeepsInv(interval, acts);
    var s := After(interval, acts);
    assert Called(s, s.calls[i]);
  }

  /** The wait group counts exactly the callbacks between their wg.Add and wg.Done, so it is never negative. */
  lemma WaitGroupCountsCallbacks(interval: nat, acts: seq<Action>)
    requires IsRun(interval, acts)
    ensures var s := After(interval, acts);
            && s.wg == |Flight(s)|
            && (s.wg == 0 <==> forall t: nat :: !InFlight(s, t))
  {
    RunKeepsInv(interval, acts);
    var s := After(interval, acts);
    if s.wg == 0 {
      forall t: nat ensures !InFlight(s, t) {
        assert t !in Flight(s);
      }
    } else {
      var t :| t in Flight(s);
      assert InFlight(s, t);
    }
  }

  ghost predicate Quiet(s: State) {
    s.stopped && s.wg == 0 && (forall t: nat :: !InFlight(s, t))
  }

  lemma QuietStep(s: State, a: Action)
    requires Inv(s) && Quiet(s) && Enabled(s, a)
    ensures Quiet(Next(s, a)) && Next(s, a).calls == s.calls
  {
    var n := Next(s, a);
    match a {
      case Expire(t) =>
        forall u: nat ensures !InFlight(n, u) { assert !InFlight(s, u); }
      case Lock(t) =>
        forall u: nat ensures !InFlight(n, u) { assert !InFlight(s, u); }
      case Call(t) => assert InFlight(s, t);
      case Return(t) => assert InFlight(s, t);
      case StopLock =>
        forall u: nat ensures !InFlight(n, u) { assert !InFlight(s, u); }
      case _ =>
        forall u: nat ensures !InFlight(n, u) { assert !InFlight(s, u); }
    }
  }

  lemma RunPrefix(interval: nat, acts: seq<Action>, k: nat)
    requires IsRun(interval, acts) && k <= |acts|
    ensures IsRun(interval, acts[..k])
  {
    if k < |acts| {
      var n := |acts| - 1;
      assert acts[..n][..k] == acts[..k];
      RunPrefix(interval, acts[..n], k);
    } else {
      assert acts[..k] == acts;
    }
  }

  /**
  Once some Stop has returned, no publish call is running and none ever starts: this holds in every
  later state, whatever else was submitted, expired or stopped before or since.
  */
  lemma {:induction false} NothingPublishedAfterStop(interval: nat, acts: seq<Action>, k: nat)
    requires IsRun(interval, acts) && k <= |acts| && IsRun(interval, acts[..k])
    requires After(interval, acts[..k]).returned > 0
    ensures var s := After(interval, acts);
            && Quiet(s)
            && s.calls == After(interval, acts[..k]).calls
  {
    if k == |acts| {
      assert acts[..k] == acts;
      RunKeepsInv(interval, acts);
      WaitGroupCountsCallbacks(interval, acts);
    } else {
      var n := |acts| - 1;
      assert acts[..n][..k] == acts[..k];
      NothingPublishedAfterStop(interval, acts[..n], k);
      RunKeepsInv(interval, acts[..n]);
      QuietStep(After(interval, acts[..n]), acts[n]);
    }
  }
}
