/**
The per-instance debouncer.

`State` holds the debouncer's own fields (`interval`, `timers`, `stopped`, `wg`) together with what the
Go runtime and the callers contribute: the clock, every timer ever created by `AfterFunc`, the calls of
the publish function, and the `Stop` calls that are waiting on the wait group or have returned.

Expiry of a timer and the locked section of its callback are separate actions: a callback that has been
started by the runtime may take the lock arbitrarily later.
*/
module Debouncer {
  import opened Status

  type Id = string

  datatype Phase =
    | Armed(deadline: nat)
    | Cancelled            // stopped before it expired
    | Expired              // callback started, lock not yet taken
    | Entered              // locked section done, wait group incremented, publish function not yet called
    | Publishing           // inside the publish function
    | Published            // publish function returned, wait group decremented
    | Discarded            // callback found the debouncer stopped

  datatype Timer = Timer(id: Id, event: StatusEvent, phase: Phase)

  datatype State = State(
    interval: nat,
    timers: map<Id, nat>,  // instance ID to position in `pool`
    stopped: bool,
    wg: int,
    now: nat,
    pool: seq<Timer>,      // every timer created so far, oldest first
    calls: seq<nat>,       // timers whose callback called the publish function, in call order
    waiting: nat,          // Stop calls blocked on the wait group
    returned: nat)         // Stop calls that have returned

  datatype Action =
    | Submit(id: Id, event: StatusEvent)
    | Tick
    | Expire(t: nat)
    | Lock(t: nat)
    | Call(t: nat)
    | Return(t: nat)
    | StopLock
    | StopReturn

  function Init(interval: nat): State {
    State(interval, map[], false, 0, 0, [], [], 0, 0)
  }

  predicate At(s: State, t: nat, phase: Phase) {
    t < |s.pool| && s.pool[t].phase == phase
  }

  predicate Due(s: State, t: nat) {
    t < |s.pool| && s.pool[t].phase.Armed? && s.pool[t].phase.deadline <= s.now
  }

  predicate InFlight(s: State, t: nat) {
    t < |s.pool| && (s.pool[t].phase.Entered? || s.pool[t].phase.Publishing?)
  }

  /** Stopping a timer has an effect only while it is armed. */
  function Cancel(timer: Timer): Timer {
    if timer.phase.Armed? then timer.(phase := Cancelled) else timer
  }

  function CancelAt(pool: seq<Timer>, t: nat): seq<Timer> {
    if t < |pool| then pool[t := Cancel(pool[t])] else pool
  }

  function CancelAll(pool: seq<Timer>, ts: set<nat>): seq<Timer> {
    seq(|pool|, i requires 0 <= i < |pool| => if i in ts then Cancel(pool[i]) else pool[i])
  }

  function Move(s: State, t: nat, phase: Phase): State
    requires t < |s.pool|
  {
    s.(pool := s.pool[t := s.pool[t].(phase := phase)])
  }

  predicate Enabled(s: State, a: Action) {
    match a
    case Submit(_, _) => true
    case Tick => true
    case Expire(t) => Due(s, t)
    case Lock(t) => At(s, t, Expired)
    case Call(t) => At(s, t, Entered)
    case Return(t) => At(s, t, Publishing)
    case StopLock => true
    case StopReturn => s.waiting > 0 && s.wg == 0
  }

  function Submitted(s: State, id: Id, event: StatusEvent): State {
    if s.stopped then s
    else
      var pool := if id in s.timers then CancelAt(s.pool, s.timers[id]) else s.pool;
      s.(timers := s.timers[id := |pool|],
         pool := pool + [Timer(id, event, Armed(s.now + s.interval))])
  }

  /** The locked section of a callback; it removes its instance's entry whichever timer that entry names. */
  function Locked(s: State, t: nat): State
    requires t < |s.pool|
  {
    if s.stopped then Move(s, t, Discarded)
    else Move(s, t, Entered).(timers := s.timers - {s.pool[t].id}, wg := s.wg + 1)
  }

  function Next(s: State, a: Action): State
    requires Enabled(s, a)
  {
    match a
    case Submit(id, event) => Submitted(s, id, event)
    case Tick => s.(now := s.now + 1)
    case Expire(t) => Move(s, t, Expired)
    case Lock(t) => Locked(s, t)
    case Call(t) => Move(s, t, Publishing).(calls := s.calls + [t])
    case Return(t) => Move(s, t, Published).(wg := s.wg - 1)
    case StopLock => s.(stopped := true, timers := map[], waiting := s.waiting + 1,
                        pool := CancelAll(s.pool, s.timers.Values))
    case StopReturn => s.(waiting := s.waiting - 1, returned := s.returned + 1)
  }

  /** A run is a finite sequence of actions, each enabled where it happens. */
  ghost predicate IsRun(interval: nat, acts: seq<Action>)
    decreases |acts|, 0
  {
    acts == [] ||
    (var n := |acts| - 1; IsRun(interval, acts[..n]) && Enabled(After(interval, acts[..n]), acts[n]))
  }

  ghost function After(interval: nat, acts: seq<Action>): State
    requires IsRun(interval, acts)
    decreases |acts|, 1
  {
    if acts == [] then Init(interval)
    else var n := |acts| - 1; Next(After(interval, acts[..n]), acts[n])
  }

  /** The timers of `all` whose entries are no longer in `left`. */
  ghost function Dropped(all: map<Id, nat>, left: map<Id, nat>): set<nat> {
    set id | id in all && id !in left :: all[id]
  }

  ghost predicate SubMap(left: map<Id, nat>, all: map<Id, nat>) {
    forall id | id in left :: id in all && left[id] == all[id]
  }

  lemma DropOneMore(all: map<Id, nat>, left: map<Id, nat>, id: Id)
    requires id in left && SubMap(left, all)
    ensures Dropped(all, left - {id}) == Dropped(all, left) + {left[id]}
    ensures SubMap(left - {id}, all)
    ensures |(left - {id}).Keys| < |left.Keys|
  {
    assert left.Keys == (left - {id}).Keys + {id};
  }

  lemma DropAll(all: map<Id, nat>)
    ensures Dropped(all, map[]) == all.Values
  {
  }

  lemma CancelOneMore(pool: seq<Timer>, ts: set<nat>, t: nat)
    ensures CancelAt(CancelAll(pool, ts), t) == CancelAll(pool, ts + {t})
  {
  }

  /**
  The debouncer itself. Submit, the callback's locked section and Stop's locked section each run under
  the mutex; the remaining methods are the runtime's and the publish function's moves.
  */
  class Debouncer {
    const interval: nat
    var timers: map<Id, nat>
    var stopped: bool
    var wg: int
    var now: nat
    var pool: seq<Timer>
    var calls: seq<nat>
    var waiting: nat
    var returned: nat

    ghost function View(): State
      reads this
    {
      State(interval, timers, stopped, wg, now, pool, calls, waiting, returned)
    }

    constructor (interval: nat)
      ensures View() == Init(interval)
    {
      this.interval := interval;
      timers, stopped, wg, now, pool, calls := map[], false, 0, 0, [], [];
      waiting, returned := 0, 0;
    }

    method StopTimer(t: nat)
      modifies this`pool
      ensures pool == CancelAt(old(pool), t)
    {
      if t < |pool| && pool[t].phase.Armed? {
        pool := pool[t := pool[t].(phase := Cancelled)];
      }
    }

    method Submit(id: Id, event: StatusEvent)
      modifies this
      ensures View() == Submitted(old(View()), id, event)
    {
      if stopped {
        return;
      }
      if id in timers {
        StopTimer(timers[id]);
      }
      timers := timers[id := |pool|];
      pool := pool + [Timer(id, event, Armed(now + interval))];
    }

    method SetPhase(t: nat, phase: Phase)
      requires t < |pool|
      modifies this`pool
      ensures pool == old(pool)[t := old(pool)[t].(phase := phase)]
    {
      pool := pool[t := pool[t].(phase := phase)];
    }

    /** The callback up to its unlock. */
    method CallbackLocked(t: nat)
      requires At(View(), t, Expired)
      modifies this
      ensures View() == Next(old(View()), Lock(t))
    {
      if stopped {
        SetPhase(t, Discarded);
        return;
      }
      timers := timers - {pool[t].id};
      wg := wg + 1;
      SetPhase(t, Entered);
    }

    method CallPublish(t: nat)
      requires At(View(), t, Entered)
      modifies this
      ensures View() == Next(old(View()), Call(t))
    {
      SetPhase(t, Publishing);
      calls := calls + [t];
    }

    method PublishReturned(t: nat)
      requires At(View(), t, Publishing)
      modifies this
      ensures View() == Next(old(View()), Return(t))
    {
      SetPhase(t, Published);
      wg := wg - 1;
    }

    /** Ranges over the timer map, stopping every timer and deleting its entry. */
    method ClearTimers()
      modifies this`timers, this`pool
      ensures timers == map[]
      ensures pool == CancelAll(old(pool), old(timers).Values)
    {
      while timers != map[]
        invariant SubMap(timers, old(timers))
        invariant pool == CancelAll(old(pool), Dropped(old(timers), timers))
        decreases |timers.Keys|
      {
        var id :| id in timers;
        StopTimer(timers[id]);
        CancelOneMore(old(pool), Dropped(old(timers), timers), timers[id]);
        DropOneMore(old(timers), timers, id);
        timers := timers - {id};
      }
      DropAll(old(timers));
    }

    /** Stop's locked section. */
    method StopLocked()
      modifies this
      ensures View() == Next(old(View()), StopLock)
    {
      stopped := true;
      ClearTimers();
      waiting := waiting + 1;
    }

    /** The rest of Stop: the wait group has reached zero. */
    method StopReturned()
      requires waiting > 0 && wg == 0
      modifies this
      ensures View() == Next(old(View()), StopReturn)
    {
      waiting, returned := waiting - 1, returned + 1;
    }
  }
}
