/**
The debouncer when firing is prompt: a timer's expiry, its callback's locked section and the call of the
publish function are one step, and a timer that is due fires before anything else happens. Under this
schedule the published events are determined by the trace of Submits, ticks and Stops alone.
*/
module DebouncerTrace {
  import opened Status
  import opened Debouncer
  import opened DebouncerSafety
  import opened DebouncerReplacement

  datatype Event =
    | Submits(id: Id, event: StatusEvent)
    | Ticks
    | Stops
    | Fires(t: nat)
    | Returns(t: nat)     // a publish call returns
    | StopReturns

  predicate NothingDue(s: State) {
    forall t: nat | t < |s.pool| :: !Due(s, t)
  }

  predicate Allowed(s: State, e: Event) {
    match e
    case Submits(_, _) => NothingDue(s)
    case Ticks => NothingDue(s)
    case Stops => NothingDue(s)
    case Fires(t) => Due(s, t) && !s.stopped
    case Returns(t) => Enabled(s, Return(t))
    case StopReturns => Enabled(s, StopReturn)
  }

  function Fired(s: State, t: nat): State
    requires Due(s, t) && !s.stopped
  {
    Next(Next(Next(s, Expire(t)), Lock(t)), Call(t))
  }

  function Apply(s: State, e: Event): State
    requires Allowed(s, e)
  {
    match e
    case Submits(id, event) => Next(s, Submit(id, event))
    case Ticks => Next(s, Tick)
    case Stops => Next(s, StopLock)
    case Fires(t) => Fired(s, t)
    case Returns(t) => Next(s, Return(t))
    case StopReturns => Next(s, StopReturn)
  }

  ghost predicate IsTrace(interval: nat, tr: seq<Event>)
    decreases |tr|, 0
  {
    tr == [] || (var n := |tr| - 1; IsTrace(interval, tr[..n]) && Allowed(Final(interval, tr[..n]), tr[n]))
  }

  ghost function Final(interval: nat, tr: seq<Event>): State
    requires IsTrace(interval, tr)
    decreases |tr|, 1
  {
    if tr == [] then Init(interval)
    else var n := |tr| - 1; Apply(Final(interval, tr[..n]), tr[n])
  }

  // ---- The trace read on its own, without the debouncer ----

  function Clock(tr: seq<Event>): nat {
    if tr == [] then 0 else Clock(tr[..|tr| - 1]) + (if tr[|tr| - 1].Ticks? then 1 else 0)
  }

  predicate Stopped(tr: seq<Event>) {
    exists q :: 0 <= q < |tr| && tr[q].Stops?
  }

  function Deadline(interval: nat, tr: seq<Event>, p: nat): nat
    requires p < |tr|
  {
    Clock(tr[..p]) + interval
  }

  /** Event `q` overrides submission `p`: a Stop, or a Submit of the same instance, before p's deadline. */
  ghost predicate Overrides(interval: nat, tr: seq<Event>, p: nat, q: nat)
    requires p < |tr| && tr[p].Submits?
  {
    && p < q < |tr|
    && Clock(tr[..q]) < Deadline(interval, tr, p)
    && (tr[q].Stops? || (tr[q].Submits? && tr[q].id == tr[p].id))
  }

  ghost predicate Overridden(interval: nat, tr: seq<Event>, p: nat)
    requires p < |tr| && tr[p].Submits?
  {
    exists q: nat :: Overrides(interval, tr, p, q)
  }

  /** The submission at position p must be published by the end of the trace. */
  ghost predicate Survives(interval: nat, tr: seq<Event>, p: nat) {
    && p < |tr| && tr[p].Submits?
    && !Stopped(tr[..p])
    && Deadline(interval, tr, p) <= Clock(tr)
    && !Overridden(interval, tr, p)
  }

  /** The positions below n, in order, of the submissions of `id` that survive. */
  ghost function Survivors(interval: nat, tr: seq<Event>, id: Id, n: nat): seq<nat>
    requires n <= |tr|
  {
    if n == 0 then []
    else Survivors(interval, tr, id, n - 1) +
         (if Survives(interval, tr, n - 1) && tr[n - 1].id == id then [n - 1] else [])
  }

  /** The trace position of each accepted submission, i.e. of each timer of the debouncer's pool. */
  function Accepted(tr: seq<Event>): seq<nat> {
    if tr == [] then []
    else
      var n := |tr| - 1;
      Accepted(tr[..n]) + (if tr[n].Submits? && !Stopped(tr[..n]) then [n] else [])
  }

  // ---- What the debouncer keeps along a trace ----

  /** The timer map is exactly the set of armed timers. */
  ghost predicate MapIsArmed(s: State) {
    forall t: nat | t < |s.pool| ::
      s.pool[t].phase.Armed? <==> s.pool[t].id in s.timers && s.timers[s.pool[t].id] == t
  }

  ghost predicate NoneWaiting(s: State) {
    forall t: nat | t < |s.pool| ::
      s.pool[t].phase.Armed? || s.pool[t].phase.Cancelled? || Called(s, t)
  }

  ghost predicate InOrder(s: State) {
    forall i, j | 0 <= i < j < |s.calls| && s.calls[i] < |s.pool| && s.calls[j] < |s.pool| ::
      s.pool[s.calls[i]].id == s.pool[s.calls[j]].id ==> s.calls[i] < s.calls[j]
  }

  ghost predicate TraceInv(s: State) {
    Inv(s) && MapIsArmed(s) && NoneWaiting(s) && InOrder(s)
  }

  /** Timer t is the accepted submission at position p, in the phase the trace says. */
  ghost predicate Tracks(interval: nat, tr: seq<Event>, s: State, t: nat, p: nat) {
    && t < |s.pool| && p < |tr| && tr[p].Submits? && !Stopped(tr[..p])
    && s.pool[t].id == tr[p].id && s.pool[t].event == tr[p].event
    && (s.pool[t].phase.Cancelled? <==> Overridden(interval, tr, p))
    && (s.pool[t].phase.Armed? ==> s.pool[t].phase.deadline == Deadline(interval, tr, p) >= s.now)
    && (Called(s, t) ==> Deadline(interval, tr, p) <= s.now)
  }

  ghost predicate Agrees(interval: nat, tr: seq<Event>, s: State) {
    && s.interval == interval && s.now == Clock(tr) && (s.stopped <==> Stopped(tr))
    && |Accepted(tr)| == |s.pool|
    && forall t: nat | t < |s.pool| :: Tracks(interval, tr, s, t, Accepted(tr)[t])
  }

  lemma FiredIs(s: State, t: nat)
    requires Due(s, t) && !s.stopped
    ensures Fired(s, t) ==
            s.(timers := s.timers - {s.pool[t].id}, wg := s.wg + 1, calls := s.calls + [t],
               pool := s.pool[t := s.pool[t].(phase := Publishing)])
  {
    var a := Next(s, Expire(t));
    var b := Next(a, Lock(t));
    assert a.pool[t].id == s.pool[t].id;
    assert b.pool == s.pool[t := s.pool[t].(phase := Entered)];
  }

  lemma FiredKeepsBasicInv(s: State, t: nat)
    requires Inv(s) && Due(s, t) && !s.stopped
    ensures Inv(Fired(s, t))
  {
    StepKeepsInv(s, Expire(t));
    StepKeepsInv(Next(s, Expire(t)), Lock(t));
    StepKeepsInv(Next(Next(s, Expire(t)), Lock(t)), Call(t));
  }

  lemma FiredKeepsOrder(s: State, n: State, t: nat)
    requires CallsOk(s) && MapOk(s) && MapIsArmed(s) && InOrder(s) && Due(s, t)
    requires n.calls == s.calls + [t] && n.pool == s.pool[t := s.pool[t].(phase := Publishing)]
    ensures InOrder(n)
  {
    var id := s.pool[t].id;
    assert s.timers[id] == t && Newest(s, t);
    forall i | 0 <= i < |s.calls| ensures s.calls[i] < |s.pool| && (s.pool[s.calls[i]].id == id ==> s.calls[i] < t) {
      assert s.calls[i] in s.calls;
      assert Called(s, s.calls[i]);
    }
    assert forall u | 0 <= u < |s.pool| :: n.pool[u].id == s.pool[u].id;
  }

  lemma FiredKeepsInv(s: State, t: nat)
    requires TraceInv(s) && Due(s, t) && !s.stopped
    ensures TraceInv(Fired(s, t))
  {
    FiredIs(s, t);
    FiredKeepsBasicInv(s, t);
    FiredKeepsOrder(s, Fired(s, t), t);
    var n := Fired(s, t);
    assert s.timers[s.pool[t].id] == t;
    assert forall u | 0 <= u < |s.pool| && u != t :: n.pool[u] == s.pool[u];
    assert MapIsArmed(n);
  }

  lemma CallsKeepOrder(s: State, n: State)
    requires CallsOk(s) && InOrder(s) && n.calls == s.calls && |s.pool| <= |n.pool|
    requires forall u | 0 <= u < |s.pool| :: n.pool[u].id == s.pool[u].id
    ensures InOrder(n)
  {
    forall i | 0 <= i < |s.calls| ensures s.calls[i] < |s.pool| {
      assert s.calls[i] in s.calls;
      assert Called(s, s.calls[i]);
    }
  }

  lemma SubmitKeepsMap(s: State, id: Id, event: StatusEvent)
    requires MapOk(s) && MapIsArmed(s) && NoneWaiting(s) && !s.stopped
    ensures MapIsArmed(Submitted(s, id, event)) && NoneWaiting(Submitted(s, id, event))
  {
    var n := Submitted(s, id, event);
    var k := |s.pool|;
    forall t: nat | t < k
      ensures n.pool[t].id == s.pool[t].id
      ensures n.pool[t].phase == if s.pool[t].phase.Armed? && s.pool[t].id == id then Cancelled else s.pool[t].phase
    {
    }
  }

  lemma SubmitKeepsTraceInv(s: State, id: Id, event: StatusEvent)
    requires TraceInv(s)
    ensures TraceInv(Submitted(s, id, event))
  {
    SubmitKeepsInv(s, id, event);
    if !s.stopped {
      SubmitKeepsMap(s, id, event);
      CallsKeepOrder(s, Submitted(s, id, event));
    }
  }

  lemma StopCancelsArmed(s: State)
    requires MapIsArmed(s)
    ensures var n := Next(s, StopLock);
            forall t: nat | t < |s.pool| ::
              n.pool[t].id == s.pool[t].id
              && n.pool[t].phase == if s.pool[t].phase.Armed? then Cancelled else s.pool[t].phase
  {
    assert forall t: nat | t < |s.pool| && s.pool[t].phase.Armed? :: s.timers[s.pool[t].id] in s.timers.Values;
  }

  lemma StopKeepsTraceInv(s: State)
    requires TraceInv(s)
    ensures TraceInv(Next(s, StopLock))
  {
    StopKeepsInv(s);
    StopCancelsArmed(s);
    CallsKeepOrder(s, Next(s, StopLock));
  }

  lemma ReturnKeepsTraceInv(s: State, t: nat)
    requires TraceInv(s) && Enabled(s, Return(t))
    ensures TraceInv(Next(s, Return(t)))
  {
    StepKeepsInv(s, Return(t));
    var n := Next(s, Return(t));
    assert forall u | 0 <= u < |s.pool| :: n.pool[u].id == s.pool[u].id && (Called(n, u) <==> Called(s, u));
    assert InOrder(n);
  }

  lemma StepKeepsTraceInv(s: State, e: Event)
    requires TraceInv(s) && Allowed(s, e)
    ensures TraceInv(Apply(s, e))
  {
    match e {
      case Fires(t) => FiredKeepsInv(s, t);
      case Submits(id, event) => SubmitKeepsTraceInv(s, id, event);
      case Stops => StopKeepsTraceInv(s);
      case Ticks => StepKeepsInv(s, Tick);
      case Returns(t) => ReturnKeepsTraceInv(s, t);
      case StopReturns => StepKeepsInv(s, StopReturn);
    }
  }

  // ---- Extending the trace by one event ----

  lemma OverriddenExtends(interval: nat, tr: seq<Event>, e: Event, p: nat)
    requires p < |tr| && tr[p].Submits?
    ensures var ext := tr + [e];
            Overridden(interval, ext, p) <==>
              Overridden(interval, tr, p) ||
              (Clock(tr) < Deadline(interval, tr, p) && (e.Stops? || (e.Submits? && e.id == tr[p].id)))
  {
    var ext := tr + [e];
    assert forall q: nat | q <= |tr| :: ext[..q] == tr[..q];
    assert tr[..|tr|] == tr;
    assert Deadline(interval, ext, p) == Deadline(interval, tr, p);
    forall q: nat | q < |tr| ensures Overrides(interval, ext, p, q) <==> Overrides(interval, tr, p, q) {
    }
    if Clock(tr) < Deadline(interval, tr, p) && (e.Stops? || (e.Submits? && e.id == tr[p].id)) {
      assert Overrides(interval, ext, p, |tr|);
    }
    if Overridden(interval, tr, p) {
      var q: nat :| Overrides(interval, tr, p, q);
      assert Overrides(interval, ext, p, q);
    }
  }

  lemma TracksExtends(interval: nat, tr: seq<Event>, e: Event, s: State, t: nat, p: nat)
    requires TraceInv(s) && Allowed(s, e) && Tracks(interval, tr, s, t, p)
    requires s.interval == interval && s.now == Clock(tr) && (s.stopped <==> Stopped(tr))
    ensures Tracks(interval, tr + [e], Apply(s, e), t, p)
  {
    var ext := tr + [e];
    var n := Apply(s, e);
    assert ext[..p] == tr[..p] && ext[..|tr|] == tr;
    OverriddenExtends(interval, tr, e, p);
    assert s.stopped ==> s.timers == map[];
    if e.Fires? {
      FiredIs(s, e.t);
    } else if e.Stops? && s.pool[t].phase.Armed? {
      assert s.timers[s.pool[t].id] in s.timers.Values;
    }
    assert Due(s, t) ==> t < |s.pool|;
  }

  lemma StoppedExtends(tr: seq<Event>, e: Event)
    ensures Stopped(tr + [e]) <==> Stopped(tr) || e.Stops?
  {
    var ext := tr + [e];
    if e.Stops? {
      assert ext[|tr|].Stops?;
    }
    if Stopped(tr) {
      var q :| 0 <= q < |tr| && tr[q].Stops?;
      assert ext[q].Stops?;
    }
  }

  lemma AgreesExtends(interval: nat, tr: seq<Event>, e: Event, s: State)
    requires TraceInv(s) && Allowed(s, e) && Agrees(interval, tr, s)
    ensures Agrees(interval, tr + [e], Apply(s, e))
  {
    var ext := tr + [e];
    var s' := Apply(s, e);
    assert ext[..|tr|] == tr;
    StoppedExtends(tr, e);
    if e.Fires? {
      FiredIs(s, e.t);
    }
    forall t: nat | t < |s.pool| ensures Tracks(interval, ext, s', t, Accepted(tr)[t]) {
      TracksExtends(interval, tr, e, s, t, Accepted(tr)[t]);
    }
    if e.Submits? && !s.stopped {
      assert Tracks(interval, ext, s', |s.pool|, |tr|) by {
        assert !Overridden(interval, ext, |tr|);
      }
    }
  }

  lemma {:induction false} TraceAgrees(interval: nat, tr: seq<Event>)
    requires IsTrace(interval, tr)
    ensures TraceInv(Final(interval, tr)) && Agrees(interval, tr, Final(interval, tr))
  {
    if tr == [] {
      assert Flight(Init(interval)) == {};
    } else {
      var n := |tr| - 1;
      TraceAgrees(interval, tr[..n]);
      var s := Final(interval, tr[..n]);
      StepKeepsTraceInv(s, tr[n]);
      AgreesExtends(interval, tr[..n], tr[n], s);
      assert tr == tr[..n] + [tr[n]];
    }
  }

  // ---- The trace theorem ----

  ghost predicate Increasing(ps: seq<nat>) {
    forall i, j | 0 <= i < j < |ps| :: ps[i] < ps[j]
  }

  lemma HasMember(ps: seq<nat>)
    ensures ps != [] ==> exists p: nat :: p in ps
  {
    if ps != [] {
      assert ps[0] in ps;
    }
  }

  lemma {:induction false} IncreasingUnique(ps: seq<nat>, qs: seq<nat>)
    requires Increasing(ps) && Increasing(qs)
    requires forall p: nat :: p in ps <==> p in qs
    ensures ps == qs
  {
    if ps == [] {
      HasMember(qs);
    } else {
      assert ps[|ps| - 1] in qs;
      var k, m := |ps| - 1, |qs| - 1;
      assert qs[m] in ps;
      assert ps[k] == qs[m];
      forall p: nat ensures p in ps[..k] <==> p in qs[..m] {
        if p in ps[..k] {
          assert p in qs && p != qs[m];
        }
        if p in qs[..m] {
          assert p in ps && p != ps[k];
        }
      }
      IncreasingUnique(ps[..k], qs[..m]);
      assert ps == ps[..k] + [ps[k]] && qs == qs[..m] + [qs[m]];
    }
  }

  ghost predicate IncreasingBelow(ps: seq<nat>, n: nat) {
    Increasing(ps) && forall i | 0 <= i < |ps| :: ps[i] < n
  }

  lemma {:induction false} AcceptedIncreasing(tr: seq<Event>)
    ensures IncreasingBelow(Accepted(tr), |tr|)
  {
    if tr != [] {
      AcceptedIncreasing(tr[..|tr| - 1]);
    }
  }

  lemma {:induction false} AcceptedAre(tr: seq<Event>, p: nat)
    ensures p in Accepted(tr) <==> p < |tr| && tr[p].Submits? && !Stopped(tr[..p])
  {
    if tr != [] {
      var n := |tr| - 1;
      AcceptedAre(tr[..n], p);
      if p < n {
        assert tr[..n][..p] == tr[..p];
      }
    }
  }

  lemma {:induction false} SurvivorsIncrease(interval: nat, tr: seq<Event>, id: Id, n: nat)
    requires n <= |tr|
    ensures IncreasingBelow(Survivors(interval, tr, id, n), n)
  {
    if n > 0 {
      SurvivorsIncrease(interval, tr, id, n - 1);
    }
  }

  lemma {:induction false} SurvivorsAre(interval: nat, tr: seq<Event>, id: Id, n: nat, p: nat)
    requires n <= |tr|
    ensures p in Survivors(interval, tr, id, n) <==> p < n && Survives(interval, tr, p) && tr[p].id == id
  {
    if n > 0 {
      SurvivorsAre(interval, tr, id, n - 1, p);
    }
  }

  /** The trace positions of the publish calls made for `id` among the first n calls, in call order. */
  ghost function Published(s: State, at: seq<nat>, id: Id, n: nat): seq<nat>
    requires n <= |s.calls| && |at| == |s.pool|
  {
    if n == 0 then []
    else
      var t := s.calls[n - 1];
      Published(s, at, id, n - 1) + (if t < |s.pool| && s.pool[t].id == id then [at[t]] else [])
  }

  /** One of the first n calls is for `id` and at trace position p. */
  ghost predicate CalledFor(s: State, at: seq<nat>, id: Id, n: nat, p: nat)
    requires n <= |s.calls| && |at| == |s.pool|
  {
    exists i :: 0 <= i < n && s.calls[i] < |s.pool| && s.pool[s.calls[i]].id == id && at[s.calls[i]] == p
  }

  lemma OneMoreCall(s: State, at: seq<nat>, id: Id, n: nat, p: nat)
    requires 0 < n <= |s.calls| && |at| == |s.pool| && s.calls[n - 1] < |s.pool|
    ensures CalledFor(s, at, id, n, p) <==>
            CalledFor(s, at, id, n - 1, p) || (s.pool[s.calls[n - 1]].id == id && at[s.calls[n - 1]] == p)
  {
    if CalledFor(s, at, id, n - 1, p) {
      var i :| 0 <= i < n - 1 && s.calls[i] < |s.pool| && s.pool[s.calls[i]].id == id && at[s.calls[i]] == p;
      assert i < n;
    }
  }

  lemma {:induction false} PublishedAre(s: State, at: seq<nat>, id: Id, n: nat, p: nat)
    requires CallsOk(s) && n <= |s.calls| && |at| == |s.pool|
    ensures p in Published(s, at, id, n) <==> CalledFor(s, at, id, n, p)
  {
    if n > 0 {
      assert Called(s, s.calls[n - 1]);
      PublishedAre(s, at, id, n - 1, p);
      OneMoreCall(s, at, id, n, p);
    }
  }

  lemma {:induction false} PublishedIncrease(s: State, at: seq<nat>, id: Id, n: nat)
    requires CallsOk(s) && InOrder(s) && n <= |s.calls| && |at| == |s.pool| && Increasing(at)
    ensures Increasing(Published(s, at, id, n))
  {
    if n > 0 {
      PublishedIncrease(s, at, id, n - 1);
      var ps, t := Published(s, at, id, n - 1), s.calls[n - 1];
      assert Called(s, t);
      if s.pool[t].id == id {
        forall i | 0 <= i < |ps| ensures ps[i] < at[t] {
          PublishedAre(s, at, id, n - 1, ps[i]);
          var j :| 0 <= j < n - 1 && s.calls[j] < |s.pool| && s.pool[s.calls[j]].id == id && at[s.calls[j]] == ps[i];
          assert s.calls[j] < t;
        }
      }
    }
  }

  /** A timer has been published exactly when the trace says its submission survives and it is not due. */
  lemma CalledIffSurvives(interval: nat, tr: seq<Event>, s: State, t: nat)
    requires TraceInv(s) && Agrees(interval, tr, s) && t < |s.pool|
    ensures t in s.calls <==> Survives(interval, tr, Accepted(tr)[t]) && !Due(s, t)
  {
    assert Tracks(interval, tr, s, t, Accepted(tr)[t]);
    assert t in s.calls <==> Called(s, t);
  }

  lemma PublishedSet(interval: nat, tr: seq<Event>, s: State, id: Id, p: nat)
    requires TraceInv(s) && Agrees(interval, tr, s) && NothingDue(s)
    ensures CalledFor(s, Accepted(tr), id, |s.calls|, p) <==> p < |tr| && Survives(interval, tr, p) && tr[p].id == id
  {
    var at := Accepted(tr);
    if i :| 0 <= i < |s.calls| && s.calls[i] < |s.pool| && s.pool[s.calls[i]].id == id && at[s.calls[i]] == p {
      assert s.calls[i] in s.calls && Tracks(interval, tr, s, s.calls[i], p);
      CalledIffSurvives(interval, tr, s, s.calls[i]);
    }
    if p < |tr| && Survives(interval, tr, p) && tr[p].id == id {
      AcceptedAre(tr, p);
      var t :| 0 <= t < |at| && at[t] == p;
      assert Tracks(interval, tr, s, t, p);
      CalledIffSurvives(interval, tr, s, t);
      var i :| 0 <= i < |s.calls| && s.calls[i] == t;
    }
  }

  /** What the trace determines about timer t: its payload, and whether its event was published. */
  ghost predicate AsTheTraceSays(interval: nat, tr: seq<Event>, s: State, t: nat, p: nat) {
    && t < |s.pool| && p < |tr| && tr[p].Submits?
    && s.pool[t].id == tr[p].id && s.pool[t].event == tr[p].event
    && (t in s.calls <==> Survives(interval, tr, p) && !Due(s, t))
  }

  /**
  Debounce refinement. At all times the timer map is exactly the set of armed timers, every timer carries
  the event submitted at its trace position, and it was handed to the publish function if and only if that
  submission comes before every Stop, its deadline has been reached, no Submit of the same instance and no
  Stop overrode it before that deadline, and it is not just about to fire. Per instance the publish calls
  are in submission order; with no timer due, they are exactly the submissions so described.
  */
  lemma PublishedAreTheSurvivors(interval: nat, tr: seq<Event>, id: Id)
    requires IsTrace(interval, tr)
    ensures var s := Final(interval, tr);
            && MapIsArmed(s)
            && |Accepted(tr)| == |s.pool|
            && (forall t: nat | t < |s.pool| :: AsTheTraceSays(interval, tr, s, t, Accepted(tr)[t]))
            && Increasing(Published(s, Accepted(tr), id, |s.calls|))
            && (NothingDue(s) ==>
                  Published(s, Accepted(tr), id, |s.calls|) == Survivors(interval, tr, id, |tr|))
  {
    var s := Final(interval, tr);
    TraceAgrees(interval, tr);
    AcceptedIncreasing(tr);
    PublishedIncrease(s, Accepted(tr), id, |s.calls|);
    forall t: nat | t < |s.pool| ensures AsTheTraceSays(interval, tr, s, t, Accepted(tr)[t]) {
      assert Tracks(interval, tr, s, t, Accepted(tr)[t]);
      CalledIffSurvives(interval, tr, s, t);
    }
    if NothingDue(s) {
      SurvivorsIncrease(interval, tr, id, |tr|);
      var ps, qs := Published(s, Accepted(tr), id, |s.calls|), Survivors(interval, tr, id, |tr|);
      forall p: nat ensures p in ps <==> p in qs {
        PublishedAre(s, Accepted(tr), id, |s.calls|, p);
        PublishedSet(interval, tr, s, id, p);
        SurvivorsAre(interval, tr, id, |tr|, p);
      }
      IncreasingUnique(ps, qs);
    }
  }

  /** Every trace is a run of the debouncer with separate expiry and lock steps, ending in the same state. */
  lemma {:induction false} TraceIsRun(interval: nat, tr: seq<Event>) returns (acts: seq<Action>)
    requires IsTrace(interval, tr)
    ensures IsRun(interval, acts) && After(interval, acts) == Final(interval, tr)
  {
    if tr == [] {
      acts := [];
    } else {
      var n := |tr| - 1;
      var front := TraceIsRun(interval, tr[..n]);
      var more := match tr[n]
        case Submits(id, event) => [Submit(id, event)]
        case Ticks => [Tick]
        case Stops => [StopLock]
        case Fires(t) => [Expire(t), Lock(t), Call(t)]
        case Returns(t) => [Return(t)]
        case StopReturns => [StopReturn];
      Extend(interval, front, more[0]);
      acts := front + [more[0]];
      if tr[n].Fires? {
        Extend(interval, acts, more[1]);
        acts := acts + [more[1]];
        Extend(interval, acts, more[2]);
        acts := acts + [more[2]];
      }
    }
  }

  // ---- Submits that come too often ----

  ghost predicate NeverCalled(s: State, id: Id) {
    forall t: nat | t in s.calls && t < |s.pool| :: s.pool[t].id != id
  }

  /** Each submission of `id` before every Stop whose deadline was reached was overridden before it. */
  ghost predicate AllOverridden(interval: nat, tr: seq<Event>, id: Id) {
    forall p: nat | p < |tr| && tr[p].Submits? && tr[p].id == id && !Stopped(tr[..p])
                    && Deadline(interval, tr, p) <= Clock(tr) ::
      Overridden(interval, tr, p)
  }

  /** With nothing due, an instance was never published if and only if each of its submissions was overridden in time. */
  lemma StarvedExactly(interval: nat, tr: seq<Event>, id: Id)
    requires IsTrace(interval, tr)
    ensures AllOverridden(interval, tr, id) ==> NeverCalled(Final(interval, tr), id)
    ensures NothingDue(Final(interval, tr)) && NeverCalled(Final(interval, tr), id) ==> AllOverridden(interval, tr, id)
  {
    var s := Final(interval, tr);
    TraceAgrees(interval, tr);
    forall t: nat | t < |s.pool| ensures AsTheTraceSays(interval, tr, s, t, Accepted(tr)[t]) {
      assert Tracks(interval, tr, s, t, Accepted(tr)[t]);
      CalledIffSurvives(interval, tr, s, t);
    }
    if AllOverridden(interval, tr, id) {
      forall t: nat | t in s.calls && t < |s.pool| ensures s.pool[t].id != id {
        assert Survives(interval, tr, Accepted(tr)[t]);
      }
    }
    if NothingDue(s) && NeverCalled(s, id) {
      forall p: nat | p < |tr| && tr[p].Submits? && tr[p].id == id && !Stopped(tr[..p])
                      && Deadline(interval, tr, p) <= Clock(tr)
        ensures Overridden(interval, tr, p)
      {
        AcceptedAre(tr, p);
        var t :| 0 <= t < |s.pool| && Accepted(tr)[t] == p;
        assert AsTheTraceSays(interval, tr, s, t, p) && !Due(s, t);
      }
    }
  }

  /** Each submission of `id` whose deadline was reached is followed by another one before that deadline. */
  ghost predicate TooOften(interval: nat, tr: seq<Event>, id: Id) {
    forall p: nat | p < |tr| && tr[p].Submits? && tr[p].id == id && Deadline(interval, tr, p) <= Clock(tr) ::
      exists q: nat :: FollowedInTime(interval, tr, p, q)
  }

  ghost predicate FollowedInTime(interval: nat, tr: seq<Event>, p: nat, q: nat)
    requires p < |tr| && tr[p].Submits?
  {
    p < q < |tr| && tr[q].Submits? && tr[q].id == tr[p].id && Clock(tr[..q]) < Deadline(interval, tr, p)
  }

  /** An instance whose submissions, equal or not, always follow each other within the interval is never published. */
  lemma TooOftenIsNeverPublished(interval: nat, tr: seq<Event>, id: Id)
    requires IsTrace(interval, tr) && TooOften(interval, tr, id)
    ensures NeverCalled(Final(interval, tr), id)
  {
    forall p: nat | p < |tr| && tr[p].Submits? && tr[p].id == id && Deadline(interval, tr, p) <= Clock(tr)
      ensures Overridden(interval, tr, p)
    {
      var q: nat :| FollowedInTime(interval, tr, p, q);
      assert Overrides(interval, tr, p, q);
    }
    StarvedExactly(interval, tr, id);
  }

  function OneEachTick(id: Id, event: StatusEvent, n: nat): seq<Event> {
    if n == 0 then [] else OneEachTick(id, event, n - 1) + [Submits(id, event)] + [Ticks]
  }

  lemma ExtendTrace(interval: nat, tr: seq<Event>, e: Event)
    requires IsTrace(interval, tr) && Allowed(Final(interval, tr), e)
    ensures IsTrace(interval, tr + [e]) && Final(interval, tr + [e]) == Apply(Final(interval, tr), e)
  {
    assert (tr + [e])[..|tr|] == tr;
  }

  /** After n rounds: n timers, the last one armed and mapped, all others cancelled, and no publish call. */
  ghost predicate AfterRounds(s: State, interval: nat, id: Id, n: nat) {
    && s.now == n == |s.pool| && s.calls == [] && !s.stopped && s.interval == interval
    && s.timers == (if n == 0 then map[] else map[id := n - 1])
    && forall t: nat | t < n :: s.pool[t].phase == if t == n - 1 then Armed(n - 1 + interval) else Cancelled
  }

  lemma OneMoreRound(s: State, interval: nat, id: Id, event: StatusEvent, n: nat)
    requires interval >= 2 && AfterRounds(s, interval, id, n)
    ensures NothingDue(s) && NothingDue(Submitted(s, id, event))
    ensures AfterRounds(Next(Submitted(s, id, event), Tick), interval, id, n + 1)
  {
  }

  lemma TraceOfOneMoreRound(interval: nat, tr: seq<Event>, id: Id, event: StatusEvent, n: nat)
    requires interval >= 2 && IsTrace(interval, tr) && AfterRounds(Final(interval, tr), interval, id, n)
    ensures var more := tr + [Submits(id, event)] + [Ticks];
            IsTrace(interval, more) && AfterRounds(Final(interval, more), interval, id, n + 1)
  {
    var s := Final(interval, tr);
    OneMoreRound(s, interval, id, event, n);
    assert Apply(s, Submits(id, event)) == Submitted(s, id, event);
    ExtendTrace(interval, tr, Submits(id, event));
    ExtendTrace(interval, tr + [Submits(id, event)], Ticks);
  }

  /** The same event submitted at every tick is never published, however long this goes on. */
  lemma {:induction false} FrequentSubmitsStarve(interval: nat, id: Id, event: StatusEvent, n: nat)
    requires interval >= 2
    ensures var tr := OneEachTick(id, event, n); IsTrace(interval, tr) && AfterRounds(Final(interval, tr), interval, id, n)
  {
    if n > 0 {
      FrequentSubmitsStarve(interval, id, event, n - 1);
      TraceOfOneMoreRound(interval, OneEachTick(id, event, n - 1), id, event, n - 1);
    }
  }
}
