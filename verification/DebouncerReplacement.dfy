/**
When a Submit really replaces the instance's previous event. A timer that has expired cannot be stopped
any more, so the promise fails exactly when a callback of the instance has been started and its event
is not yet with the publish function.
*/
module DebouncerReplacement {
  import opened Status
  import opened Debouncer
  import opened DebouncerSafety

  /** The event may still be handed to the publish function. */
  ghost predicate Pending(s: State, t: nat) {
    t < |s.pool| && (s.pool[t].phase.Armed? || s.pool[t].phase.Expired? || s.pool[t].phase.Entered?)
  }

  /** A Submit for `id` in `s` leaves no older event of `id` that could still be published. */
  ghost predicate Replaces(s: State, id: Id, event: StatusEvent) {
    forall t: nat | t < |s.pool| && s.pool[t].id == id :: !Pending(Submitted(s, id, event), t)
  }

  /** No callback of `id` is between its timer's expiry and its publish call. */
  ghost predicate NoCallbackUnderWay(s: State, id: Id) {
    forall t: nat | t < |s.pool| && s.pool[t].id == id :: !s.pool[t].phase.Expired? && !s.pool[t].phase.Entered?
  }

  ghost predicate AcceptsAt(interval: nat, acts: seq<Action>, k: nat)
    requires IsRun(interval, acts)
  {
    k < |acts| && acts[k].Submit? &&
    (RunPrefix(interval, acts, k); !After(interval, acts[..k]).stopped)
  }

  ghost function StateAt(interval: nat, acts: seq<Action>, k: nat): State
    requires IsRun(interval, acts) && k <= |acts|
  {
    RunPrefix(interval, acts, k);
    After(interval, acts[..k])
  }

  ghost predicate EverySubmitReplaces(interval: nat, acts: seq<Action>)
    requires IsRun(interval, acts)
  {
    forall k: nat | AcceptsAt(interval, acts, k) ::
      Replaces(StateAt(interval, acts, k), acts[k].id, acts[k].event)
  }

  ghost predicate CallbacksPrompt(interval: nat, acts: seq<Action>)
    requires IsRun(interval, acts)
  {
    forall k: nat | AcceptsAt(interval, acts, k) :: NoCallbackUnderWay(StateAt(interval, acts, k), acts[k].id)
  }

  /** At most one event of each instance is pending, and if it is armed the map knows it. */
  ghost predicate OnePending(s: State) {
    && (forall t: nat, u: nat | Pending(s, t) && Pending(s, u) && s.pool[t].id == s.pool[u].id :: t == u)
    && (forall t: nat | t < |s.pool| && s.pool[t].phase.Armed? && !s.stopped ::
          s.pool[t].id in s.timers && s.timers[s.pool[t].id] == t)
  }

  /** Whatever is pending after such a Submit was pending before, unchanged, for another instance. */
  lemma StillPending(s: State, id: Id, event: StatusEvent, t: nat)
    requires OnePending(s) && !s.stopped && NoCallbackUnderWay(s, id)
    requires t < |s.pool| && Pending(Submitted(s, id, event), t)
    ensures Pending(s, t) && Submitted(s, id, event).pool[t] == s.pool[t] && s.pool[t].id != id
  {
    assert Pending(s, t);
  }

  lemma PromptSubmit(s: State, id: Id, event: StatusEvent)
    requires Inv(s) && OnePending(s) && !s.stopped && NoCallbackUnderWay(s, id)
    ensures OnePending(Submitted(s, id, event)) && Replaces(s, id, event)
  {
    var n := Submitted(s, id, event);
    assert |n.pool| == |s.pool| + 1 && n.pool[|s.pool|].id == id;
    forall t: nat | t < |s.pool| && Pending(n, t)
      ensures Pending(s, t) && n.pool[t] == s.pool[t] && s.pool[t].id != id
    {
      StillPending(s, id, event, t);
    }
    assert Replaces(s, id, event);
    forall t: nat | t < |n.pool| && n.pool[t].phase.Armed? ensures n.pool[t].id in n.timers && n.timers[n.pool[t].id] == t {
      if t < |s.pool| {
        assert Pending(n, t);
      }
    }
    forall t: nat, u: nat | Pending(n, t) && Pending(n, u) && n.pool[t].id == n.pool[u].id ensures t == u {
    }
  }

  lemma PromptStep(s: State, a: Action)
    requires Inv(s) && Enabled(s, a) && OnePending(s)
    requires a.Submit? && !s.stopped ==> NoCallbackUnderWay(s, a.id)
    ensures OnePending(Next(s, a))
    ensures a.Submit? && !s.stopped ==> Replaces(s, a.id, a.event)
  {
    if a.Submit? && !s.stopped {
      PromptSubmit(s, a.id, a.event);
    } else {
      var n := Next(s, a);
      forall t: nat | Pending(n, t) ensures Pending(s, t) && n.pool[t].id == s.pool[t].id {
      }
      if a.Lock? {
        assert Pending(s, a.t);
      }
    }
  }

  /** Dropping the last action changes no earlier state. */
  lemma FrontState(interval: nat, acts: seq<Action>, k: nat)
    requires IsRun(interval, acts) && k < |acts|
    ensures var front := acts[..|acts| - 1];
            && StateAt(interval, front, k) == StateAt(interval, acts, k)
            && (k == |acts| - 1 ==> StateAt(interval, acts, k) == After(interval, front))
            && (k < |acts| - 1 ==> (AcceptsAt(interval, front, k) <==> AcceptsAt(interval, acts, k)))
  {
    var front := acts[..|acts| - 1];
    assert front[..k] == acts[..k];
  }

  lemma FrontIsPrompt(interval: nat, acts: seq<Action>)
    requires IsRun(interval, acts) && acts != [] && CallbacksPrompt(interval, acts)
    ensures CallbacksPrompt(interval, acts[..|acts| - 1])
  {
    var front := acts[..|acts| - 1];
    forall k: nat | AcceptsAt(interval, front, k) ensures NoCallbackUnderWay(StateAt(interval, front, k), front[k].id) {
      FrontState(interval, acts, k);
      assert AcceptsAt(interval, acts, k);
    }
  }

  lemma OneMoreReplaces(interval: nat, acts: seq<Action>)
    requires IsRun(interval, acts) && acts != [] && EverySubmitReplaces(interval, acts[..|acts| - 1])
    requires var n := |acts| - 1;
             AcceptsAt(interval, acts, n) ==> Replaces(StateAt(interval, acts, n), acts[n].id, acts[n].event)
    ensures EverySubmitReplaces(interval, acts)
  {
    var n := |acts| - 1;
    forall k: nat | AcceptsAt(interval, acts, k) ensures Replaces(StateAt(interval, acts, k), acts[k].id, acts[k].event) {
      if k < n {
        FrontState(interval, acts, k);
        assert AcceptsAt(interval, acts[..n], k);
      }
    }
  }

  lemma {:induction false} PromptRun(interval: nat, acts: seq<Action>)
    requires IsRun(interval, acts) && CallbacksPrompt(interval, acts)
    ensures OnePending(After(interval, acts)) && EverySubmitReplaces(interval, acts)
  {
    if acts != [] {
      var n := |acts| - 1;
      FrontIsPrompt(interval, acts);
      PromptRun(interval, acts[..n]);
      RunKeepsInv(interval, acts[..n]);
      FrontState(interval, acts, n);
      assert acts[n].Submit? && !After(interval, acts[..n]).stopped ==> AcceptsAt(interval, acts, n);
      PromptStep(After(interval, acts[..n]), acts[n]);
      OneMoreReplaces(interval, acts);
    }
  }

  /**
  In every run: each accepted Submit replaces the instance's previous event if and only if no Submit
  arrives while a callback of its instance has been started and has not yet called the publish function.
  */
  lemma ReplacementExactly(interval: nat, acts: seq<Action>)
    requires IsRun(interval, acts)
    ensures EverySubmitReplaces(interval, acts) <==> CallbacksPrompt(interval, acts)
  {
    if CallbacksPrompt(interval, acts) {
      PromptRun(interval, acts);
    }
    if EverySubmitReplaces(interval, acts) {
      forall k: nat | AcceptsAt(interval, acts, k) ensures NoCallbackUnderWay(StateAt(interval, acts, k), acts[k].id) {
        var s := StateAt(interval, acts, k);
        var m := Submitted(s, acts[k].id, acts[k].event);
        assert Replaces(s, acts[k].id, acts[k].event);
        forall t: nat | t < |s.pool| && s.pool[t].id == acts[k].id
          ensures !s.pool[t].phase.Expired? && !s.pool[t].phase.Entered?
        {
          assert !Pending(m, t);
          assert m.pool[t].phase == s.pool[t].phase || s.pool[t].phase.Armed?;
        }
      }
    }
  }

  // ---- Replaced events stay unpublished ----

  lemma NeverPendingAgain(s: State, a: Action, t: nat)
    requires Inv(s) && Enabled(s, a) && t < |s.pool| && !Pending(s, t)
    ensures var n := Next(s, a);
            && t < |n.pool| && n.pool[t].id == s.pool[t].id && !Pending(n, t)
            && (t in n.calls <==> t in s.calls)
  {
  }

  /**
  An event that a Submit replaced is never handed to the publish function afterwards: the later publish
  calls of that instance are all for the new event or newer ones.
  */
  lemma {:induction false} ReplacedIsNeverPublished(interval: nat, acts: seq<Action>, k: nat, t: nat)
    requires IsRun(interval, acts) && AcceptsAt(interval, acts, k)
    requires Replaces(StateAt(interval, acts, k), acts[k].id, acts[k].event)
    requires t < |StateAt(interval, acts, k).pool| && StateAt(interval, acts, k).pool[t].id == acts[k].id
    ensures var s := After(interval, acts);
            && t < |s.pool| && !Pending(s, t)
            && (t in s.calls <==> t in StateAt(interval, acts, k).calls)
  {
    var n := |acts| - 1;
    var front := acts[..n];
    RunKeepsInv(interval, front);
    if k == n {
      var s := After(interval, front);
      assert Next(s, acts[n]) == Submitted(s, acts[n].id, acts[n].event);
    } else {
      assert front[..k] == acts[..k];
      assert AcceptsAt(interval, front, k);
      assert StateAt(interval, front, k) == StateAt(interval, acts, k);
      ReplacedIsNeverPublished(interval, front, k, t);
      NeverPendingAgain(After(interval, front), acts[n], t);
    }
  }

  // ---- The promise fails without promptness ----

  lemma Extend(interval: nat, acts: seq<Action>, a: Action)
    requires IsRun(interval, acts) && Enabled(After(interval, acts), a)
    ensures IsRun(interval, acts + [a])
    ensures After(interval, acts + [a]) == Next(After(interval, acts), a)
  {
    assert (acts + [a])[..|acts|] == acts;
  }

  /** Submit, let the timer expire, submit again, and only then let the first callback take the lock. */
  function DelayedCallback(id: Id, older: StatusEvent, newer: StatusEvent): seq<Action> {
    [Submit(id, older), Tick, Expire(0), Submit(id, newer), Lock(0)]
  }

  lemma DelayedCallbackRun(id: Id, older: StatusEvent, newer: StatusEvent)
    ensures var acts := DelayedCallback(id, older, newer);
            && IsRun(1, acts) && IsRun(1, acts[..3])
            && After(1, acts[..3]) == State(1, map[id := 0], false, 0, 1, [Timer(id, older, Expired)], [], 0, 0)
            && After(1, acts) ==
               State(1, map[], false, 1, 1, [Timer(id, older, Entered), Timer(id, newer, Armed(2))], [], 0, 0)
  {
    var acts := DelayedCallback(id, older, newer);
    Extend(1, [], acts[0]);
    Extend(1, [acts[0]], acts[1]);
    Extend(1, [acts[0], acts[1]], acts[2]);
    var s := State(1, map[id := 0], false, 0, 1, [Timer(id, older, Expired)], [], 0, 0);
    assert acts[..3] == [acts[0], acts[1]] + [acts[2]];
    assert After(1, acts[..3]) == s;
    var m := Submitted(s, id, newer);
    assert m == State(1, map[id := 1], false, 0, 1, [Timer(id, older, Expired), Timer(id, newer, Armed(2))], [], 0, 0);
    Extend(1, acts[..3], acts[3]);
    assert acts[..4] == acts[..3] + [acts[3]];
    Extend(1, acts[..4], acts[4]);
    assert acts == acts[..4] + [acts[4]];
    assert m.timers - {id} == map[];
  }

  /**
  A callback delayed past a Submit of its own instance: it removes the newer timer's map entry, and both
  the old and the new event reach the publish function.
  */
  lemma DelayedCallbackPublishesBoth(id: Id, older: StatusEvent, newer: StatusEvent)
    returns (acts: seq<Action>)
    ensures DelayedCallback(id, older, newer) <= acts
    ensures IsRun(1, acts) && After(1, acts).calls == [0, 1]
    ensures !EverySubmitReplaces(1, acts)
  {
    DelayedCallbackRun(id, older, newer);
    var mid := DelayedCallback(id, older, newer);
    var tail := [Call(0), Tick, Expire(1), Lock(1), Call(1)];
    acts := mid;
    ghost var s := After(1, mid);
    for i := 0 to 5
      invariant |acts| == 5 + i && mid <= acts && IsRun(1, acts) && s == After(1, acts)
      invariant |s.pool| == 2 && !s.stopped && s.calls == if i == 0 then [] else if i < 5 then [0] else [0, 1]
      invariant s.now == if i < 2 then 1 else 2
      invariant s.pool[1].phase == if i < 3 then Armed(2) else if i == 3 then Expired else if i == 4 then Entered else Publishing
      invariant i == 0 ==> s.pool[0].phase.Entered?
    {
      Extend(1, acts, tail[i]);
      s := Next(s, tail[i]);
      acts := acts + [tail[i]];
    }
    assert acts[..3] == mid[..3] && acts[3] == Submit(id, newer);
    assert AcceptsAt(1, acts, 3);
    assert Pending(Submitted(StateAt(1, acts, 3), id, newer), 0);
  }
}
