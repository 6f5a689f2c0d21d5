/**
Registration with the control plane: requests repeated with a doubling, capped backoff on 64-bit signed
durations, until one succeeds, is refused for good, or the context is cancelled during a wait.
*/
module Registration {
  import opened Arithmetic

  datatype Response = TransportError | Status(code: int)

  datatype Verdict = Registered | NonRetryable | Retryable

  function Classify(r: Response): Verdict {
    match r
    case TransportError => Retryable
    case Status(code) =>
      if 400 <= code < 500 then NonRetryable
      else if code != 200 && code != 201 then Retryable
      else Registered
  }

  /** A request's answer, and whether the context was cancelled during the wait that would follow it. */
  datatype Attempt = Attempt(response: Response, cancelled: bool)

  datatype Outcome = Succeeded | GaveUp | Cancelled

  // ---- What the response codes mean ----

  ghost predicate IsSuccess(r: Response) {
    r == Status(200) || r == Status(201)
  }

  ghost predicate IsRefusal(r: Response) {
    r.Status? && 400 <= r.code <= 499
  }

  /** The loop ends with this response; transport errors and all other codes are tried again. */
  ghost predicate EndsIt(r: Response) {
    IsSuccess(r) || IsRefusal(r)
  }

  // ---- Durations ----

  const MaxDuration: int := 0x7FFF_FFFF_FFFF_FFFF
  const HalfRange: int := 0x4000_0000_0000_0000

  const Range: int := 0x1_0000_0000_0000_0000

  type Duration = d: int | -MaxDuration - 1 <= d <= MaxDuration

  /** Doubling a 64-bit duration, with wrap-around. */
  function Doubled(d: Duration): Duration {
    if d >= HalfRange then d + (d - Range)
    else if d < -HalfRange then d + (d + Range)
    else d + d
  }

  /** Doubling is exact modulo 2^64, for negative durations too. */
  lemma DoubledWraps(d: Duration)
    ensures -0x8000_0000_0000_0000 <= Doubled(d) < 0x8000_0000_0000_0000
    ensures Doubled(d) == 2 * d || Doubled(d) == 2 * d - 0x1_0000_0000_0000_0000
            || Doubled(d) == 2 * d + 0x1_0000_0000_0000_0000
  {
  }

  function NextBackoff(d: Duration, max: Duration): Duration {
    if Doubled(d) > max then max else Doubled(d)
  }

  /** The k-th wait, from 0. */
  function Backoff(initial: Duration, max: Duration, k: nat): Duration {
    if k == 0 then initial else NextBackoff(Backoff(initial, max, k - 1), max)
  }

  lemma BackoffStep(initial: Duration, max: Duration, k: nat)
    ensures var d := Doubled(Backoff(initial, max, k));
            Backoff(initial, max, k + 1) == if d > max then max else d
  {
  }

  // ---- Starting, trying and ending, as a state machine ----

  datatype Phase =
    | Idle                      // not started
    | Asking(backoff: Duration) // a request is out
    | Waiting(backoff: Duration)
    | Ending(outcome: Outcome)  // the loop has returned, the done channel is still open
    | Ended(outcome: Outcome)

  datatype State = State(
    initial: Duration,
    max: Duration,
    started: bool,
    launched: nat,              // goroutines launched so far
    phase: Phase,
    requests: nat,              // requests answered so far
    waits: seq<Duration>,       // waits begun so far
    closes: nat)                // times the done channel was closed

  datatype Action = Start | Answer(response: Response) | WaitOver(cancelled: bool) | Close

  function Init(initial: Duration, max: Duration): State {
    State(initial, max, false, 0, Idle, 0, [], 0)
  }

  predicate Enabled(s: State, a: Action) {
    match a
    case Start => true
    case Answer(_) => s.phase.Asking?
    case WaitOver(_) => s.phase.Waiting?
    case Close => s.phase.Ending?
  }

  function Answered(s: State, r: Response): State
    requires s.phase.Asking?
  {
    var s' := s.(requests := s.requests + 1);
    match Classify(r)
    case Registered => s'.(phase := Ending(Succeeded))
    case NonRetryable => s'.(phase := Ending(GaveUp))
    case Retryable => s'.(phase := Waiting(s.phase.backoff), waits := s.waits + [s.phase.backoff])
  }

  function Next(s: State, a: Action): State
    requires Enabled(s, a)
  {
    match a
    case Start => if s.started then s else s.(started := true, launched := s.launched + 1, phase := Asking(s.initial))
    case Answer(r) => Answered(s, r)
    case WaitOver(cancelled) =>
      s.(phase := if cancelled then Ending(Cancelled) else Asking(NextBackoff(s.phase.backoff, s.max)))
    case Close => s.(phase := Ended(s.phase.outcome), closes := s.closes + 1)
  }

  ghost predicate IsRun(s: State, acts: seq<Action>)
    decreases |acts|, 0
  {
    acts == [] || (var n := |acts| - 1; IsRun(s, acts[..n]) && Enabled(After(s, acts[..n]), acts[n]))
  }

  ghost function After(s: State, acts: seq<Action>): State
    requires IsRun(s, acts)
    decreases |acts|, 1
  {
    if acts == [] then s else var n := |acts| - 1; Next(After(s, acts[..n]), acts[n])
  }

  ghost predicate WaitsAreBackoffs(s: State) {
    forall k | 0 <= k < |s.waits| :: s.waits[k] == Backoff(s.initial, s.max, k)
  }

  ghost predicate Inv(s: State) {
    && WaitsAreBackoffs(s)
    && s.launched == (if s.started then 1 else 0) && s.closes == (if s.phase.Ended? then 1 else 0)
    && match s.phase
       case Idle => !s.started && s.requests == 0 && s.waits == []
       case Asking(b) => s.started && s.requests == |s.waits| && b == Backoff(s.initial, s.max, |s.waits|)
       case Waiting(b) =>
         s.started && s.requests == |s.waits| > 0 && b == Backoff(s.initial, s.max, |s.waits| - 1)
       case Ending(o) => s.started && s.requests == |s.waits| + (if o.Cancelled? then 0 else 1)
       case Ended(o) => s.started && s.requests == |s.waits| + (if o.Cancelled? then 0 else 1)
  }

  lemma NextKeepsInv(s: State, a: Action)
    requires Inv(s) && Enabled(s, a)
    ensures Inv(Next(s, a)) && Next(s, a).initial == s.initial && Next(s, a).max == s.max
  {
    if a.WaitOver? {
      BackoffStep(s.initial, s.max, |s.waits| - 1);
    }
  }

  predicate HasStart(acts: seq<Action>) {
    exists i :: 0 <= i < |acts| && acts[i].Start?
  }

  /**
  In every run, with any number of Starts at any time: one goroutine is launched if Start was ever called,
  and none otherwise; the done channel is closed at most once, exactly when that goroutine has ended; its
  k-th wait is the k-th backoff, and its requests and waits alternate.
  */
  lemma {:induction false} RunKeepsInv(s: State, acts: seq<Action>)
    requires Inv(s) && IsRun(s, acts)
    ensures var e := After(s, acts);
            && Inv(e) && e.initial == s.initial && e.max == s.max
            && (e.started <==> s.started || HasStart(acts))
  {
    if acts != [] {
      var n := |acts| - 1;
      RunKeepsInv(s, acts[..n]);
      NextKeepsInv(After(s, acts[..n]), acts[n]);
      assert HasStart(acts[..n]) ==> HasStart(acts);
      assert acts[n].Start? ==> HasStart(acts);
    }
  }

  lemma InitHasInv(initial: Duration, max: Duration)
    ensures Inv(Init(initial, max))
  {
  }

  /** From the beginning: one goroutine iff Start was called, and the done channel closed once, when it has ended. */
  lemma OneRegistration(initial: Duration, max: Duration, acts: seq<Action>)
    requires IsRun(Init(initial, max), acts)
    ensures var e := After(Init(initial, max), acts);
            && e.launched == (if HasStart(acts) then 1 else 0)
            && e.closes == (if e.phase.Ended? then 1 else 0)
            && forall k | 0 <= k < |e.waits| :: e.waits[k] == Backoff(initial, max, k)
  {
    InitHasInv(initial, max);
    RunKeepsInv(Init(initial, max), acts);
  }

  /** Once the loop has returned, no request is made and no wait begun, whatever is called. */
  lemma {:induction false} NothingAfterTheEnd(s: State, acts: seq<Action>)
    requires Inv(s) && IsRun(s, acts) && (s.phase.Ending? || s.phase.Ended?)
    ensures var e := After(s, acts);
            && (e.phase.Ending? || e.phase.Ended?) && e.phase.outcome == s.phase.outcome
            && e.requests == s.requests && e.waits == s.waits && e.launched == 1 && e.closes <= 1
  {
    if acts != [] {
      var n := |acts| - 1;
      NothingAfterTheEnd(s, acts[..n]);
      RunKeepsInv(s, acts[..n]);
      NextKeepsInv(After(s, acts[..n]), acts[n]);
    }
  }

  /** A 200, 201 or 4xx, or a wait cut short by cancellation. */
  ghost predicate Ends(a: Action) {
    (a.Answer? && EndsIt(a.response)) || a == WaitOver(true)
  }

  lemma {:induction false} ReturnedBy(s: State, acts: seq<Action>, k: nat)
    requires Inv(s) && IsRun(s, acts) && k < |acts| && Ends(acts[k])
    ensures After(s, acts).phase.Ending? || After(s, acts).phase.Ended?
  {
    var n := |acts| - 1;
    if k < n {
      ReturnedBy(s, acts[..n], k);
      RunKeepsInv(s, acts[..n]);
    }
  }

  /** In every run, the action after such an end, however much later, is neither a request's answer nor a wait. */
  lemma NothingFollows(s: State, acts: seq<Action>, k: nat)
    requires Inv(s) && IsRun(s, acts) && k < |acts| - 1 && Ends(acts[k])
    ensures !acts[|acts| - 1].Answer? && !acts[|acts| - 1].WaitOver?
  {
    ReturnedBy(s, acts[..|acts| - 1], k);
  }

  // ---- The goroutine, given the answers it gets ----

  function OneAttempt(s: State, a: Attempt): State
    requires s.phase.Asking?
  {
    var s' := Next(s, Answer(a.response));
    if s'.phase.Waiting? then Next(s', WaitOver(a.cancelled)) else s'
  }

  /** The goroutine alone, until it has ended or the script has no more answers. */
  function Driven(s: State, script: seq<Attempt>): State
    decreases script
  {
    if s.phase.Ending? then Next(s, Close)
    else if !s.phase.Asking? || script == [] then s
    else Driven(OneAttempt(s, script[0]), script[1..])
  }

  /** Where a script of answers, of which the first `made` were used, leaves the goroutine. */
  ghost predicate StopsRight(phase: Phase, script: seq<Attempt>, made: nat) {
    && made <= |script|
    && (phase.Asking? || phase.Ended?)
    && (forall i | 0 <= i < made - 1 :: !EndsIt(script[i].response) && !script[i].cancelled)
    && (phase.Ended? <==> made > 0 && (EndsIt(script[made - 1].response) || script[made - 1].cancelled))
    && (!phase.Ended? ==> made == |script|)
    && (phase == Ended(Succeeded) <==> made > 0 && IsSuccess(script[made - 1].response))
    && (phase == Ended(GaveUp) <==> made > 0 && IsRefusal(script[made - 1].response))
  }

  lemma {:induction false} DrivenStops(s: State, script: seq<Attempt>)
    requires s.phase.Asking?
    ensures var e := Driven(s, script);
            e.requests >= s.requests && StopsRight(e.phase, script, e.requests - s.requests)
    decreases script
  {
    if script != [] && !EndsIt(script[0].response) && !script[0].cancelled {
      DrivenStops(OneAttempt(s, script[0]), script[1..]);
      assert script == [script[0]] + script[1..];
    }
  }

  lemma {:induction false} DrivenKeepsInv(s: State, script: seq<Attempt>)
    requires Inv(s)
    ensures var e := Driven(s, script); Inv(e) && e.initial == s.initial && e.max == s.max
    decreases script
  {
    if s.phase.Ending? {
      NextKeepsInv(s, Close);
    } else if s.phase.Asking? && script != [] {
      var asked := Next(s, Answer(script[0].response));
      NextKeepsInv(s, Answer(script[0].response));
      if asked.phase.Waiting? {
        NextKeepsInv(asked, WaitOver(script[0].cancelled));
      }
      DrivenKeepsInv(OneAttempt(s, script[0]), script[1..]);
    }
  }

  lemma Extend(s: State, acts: seq<Action>, a: Action)
    requires IsRun(s, acts) && Enabled(After(s, acts), a)
    ensures IsRun(s, acts + [a]) && After(s, acts + [a]) == Next(After(s, acts), a)
  {
    assert (acts + [a])[..|acts|] == acts;
  }

  /** What the goroutine does alone is a run of the machine. */
  lemma {:induction false} DrivenIsRun(s: State, acts: seq<Action>, script: seq<Attempt>) returns (all: seq<Action>)
    requires IsRun(s, acts)
    ensures IsRun(s, all) && After(s, all) == Driven(After(s, acts), script)
    decreases script
  {
    var m := After(s, acts);
    if m.phase.Ending? {
      Extend(s, acts, Close);
      all := acts + [Close];
    } else if !m.phase.Asking? || script == [] {
      all := acts;
    } else {
      Extend(s, acts, Answer(script[0].response));
      all := acts + [Answer(script[0].response)];
      if After(s, all).phase.Waiting? {
        Extend(s, all, WaitOver(script[0].cancelled));
        all := all + [WaitOver(script[0].cancelled)];
      }
      all := DrivenIsRun(s, all, script[1..]);
    }
  }

  class Registrar {
    const initialBackoff: Duration
    const maxBackoff: Duration
    var started: bool
    var launched: nat
    var phase: Phase
    var requests: nat
    var waits: seq<Duration>
    var closes: nat

    ghost function View(): State
      reads this
    {
      State(initialBackoff, maxBackoff, started, launched, phase, requests, waits, closes)
    }

    constructor (initialBackoff: Duration, maxBackoff: Duration)
      ensures View() == Init(initialBackoff, maxBackoff)
    {
      this.initialBackoff, this.maxBackoff := initialBackoff, maxBackoff;
      started, launched, phase, requests, waits, closes := false, 0, Idle, 0, [], 0;
    }

    /** Launches the registration goroutine on the first call only. */
    method Start()
      modifies this
      ensures View() == Next(old(View()), Action.Start)
    {
      if !started {
        started, launched, phase := true, launched + 1, Asking(initialBackoff);
      }
    }

    /** One request: on a retryable answer the loop begins to wait, on any other it returns. */
    method Register(r: Response, backoff: Duration)
      requires phase == Asking(backoff)
      modifies this
      ensures View() == Next(old(View()), Answer(r))
    {
      requests := requests + 1;
      var verdict := Classify(r);
      if verdict.Registered? {
        phase := Ending(Succeeded);
      } else if verdict.NonRetryable? {
        phase := Ending(GaveUp);
      } else {
        phase, waits := Waiting(backoff), waits + [backoff];
      }
    }

    /** The select on the timer and the context, and the growth of the backoff after the timer. */
    method Wait(cancelled: bool, backoff: Duration) returns (next: Duration)
      requires phase == Waiting(backoff)
      modifies this
      ensures View() == Next(old(View()), WaitOver(cancelled))
      ensures !cancelled ==> phase == Asking(next)
    {
      if cancelled {
        phase := Ending(Cancelled);
        return backoff;
      }
      next := Doubled(backoff);
      if next > maxBackoff {
        next := maxBackoff;
      }
      phase := Asking(next);
    }

    /** The goroutine ends: the deferred close of the done channel. */
    method CloseDone()
      requires phase.Ending?
      modifies this
      ensures View() == Next(old(View()), Close)
    {
      phase, closes := Ended(phase.outcome), closes + 1;
    }

    /** The loop; afterwards it has returned, or it is out of answers. */
    method Loop(script: seq<Attempt>)
      requires phase.Asking?
      modifies this
      ensures phase.Asking? || phase.Ending?
      ensures Driven(old(View()), script) == if phase.Ending? then Next(View(), Close) else View()
    {
      var backoff, i := phase.backoff, 0;
      while i < |script|
        invariant i <= |script| && phase == Asking(backoff)
        invariant Driven(old(View()), script) == Driven(View(), script[i..])
      {
        assert script[i..][1..] == script[i + 1..];
        var a := script[i];
        i := i + 1;
        Register(a.response, backoff);
        if phase.Ending? {
          return;
        }
        backoff := Wait(a.cancelled, backoff);
        if phase.Ending? {
          return;
        }
      }
    }

    /**
    The goroutine, over the answers it gets. It stops at the first attempt that succeeds, is refused or is
    followed by a cancelled wait, makes no request after it, and closes the done channel; its k-th wait is
    Backoff(k).
    */
    method Run(script: seq<Attempt>)
      requires Inv(View()) && phase.Asking? && requests == 0
      modifies this
      ensures View() == Driven(old(View()), script) && Inv(View())
      ensures StopsRight(phase, script, requests)
      ensures phase.Ended? ==> closes == 1
      ensures |waits| == if phase.Asking? || phase.outcome.Cancelled? then requests else requests - 1
      ensures forall k | 0 <= k < |waits| :: waits[k] == Backoff(initialBackoff, maxBackoff, k)
    {
      DrivenStops(View(), script);
      DrivenKeepsInv(View(), script);
      Loop(script);
      if phase.Ending? {
        CloseDone();
      }
    }
  }

  // ---- Closed form ----

  function Pow2(k: nat): nat {
    if k == 0 then 1 else 2 * Pow2(k - 1)
  }

  /** The wait the documentation of a capped exponential backoff promises. */
  function Promised(initial: int, max: int, k: nat): int {
    if k == 0 then initial else Min(initial * Pow2(k), max)
  }

  lemma DoubledIs(d: Duration)
    requires d >= 0
    ensures d < HalfRange ==> Doubled(d) == 2 * d
    ensures d >= HalfRange ==> Doubled(d) == 2 * d - Range < 0
  {
  }

  lemma DoublePromised(initial: int, max: int, k: nat)
    requires initial > 0 && max > 0
    ensures Promised(initial, max, k + 1) == Min(2 * Promised(initial, max, k), max)
    ensures Promised(initial, max, k) > 0
  {
    assert initial * Pow2(k + 1) == 2 * (initial * Pow2(k));
    Pow2Positive(k);
    assert initial * Pow2(k) > 0 by { Positive(initial, Pow2(k)); }
  }

  lemma {:induction false} Pow2Positive(k: nat)
    ensures Pow2(k) > k
  {
    if k > 0 {
      Pow2Positive(k - 1);
    }
  }

  lemma Positive(a: int, b: int)
    requires a > 0 && b > 0
    ensures a * b >= b
  {
  }

  lemma {:induction false} BackoffIsPromised(initial: Duration, max: Duration, k: nat)
    requires 0 < initial < HalfRange && 0 < max < HalfRange
    ensures Backoff(initial, max, k) == Promised(initial, max, k) < HalfRange
  {
    if k > 0 {
      BackoffIsPromised(initial, max, k - 1);
      DoublePromised(initial, max, k - 1);
      DoubledIs(Backoff(initial, max, k - 1));
    }
  }

  /** Some wait reaches half the range while the waits are still as promised. */
  lemma {:induction false} ReachesHalfRange(initial: Duration, max: Duration, k: nat) returns (n: nat)
    requires 0 < initial && HalfRange <= max
    requires Backoff(initial, max, k) == Promised(initial, max, k) && k >= 1
    ensures Backoff(initial, max, n) != Promised(initial, max, n)
    decreases MaxDuration - Backoff(initial, max, k)
  {
    var b := Backoff(initial, max, k);
    DoublePromised(initial, max, k);
    DoubledIs(b);
    if b >= HalfRange {
      n := k + 1;
    } else if 2 * b > max {
      assert Backoff(initial, max, k + 1) == max == Promised(initial, max, k + 1);
      DoublePromised(initial, max, k + 1);
      DoubledIs(max);
      n := k + 2;
    } else {
      n := ReachesHalfRange(initial, max, k + 1);
    }
  }

  ghost predicate AsPromised(initial: Duration, max: Duration) {
    forall k: nat :: Backoff(initial, max, k) == Promised(initial, max, k)
  }

  /**
  With positive settings, every wait is the promised one, initial at first and then min(initial * 2^k, max),
  if and only if both settings are below 2^62; otherwise doubling eventually wraps around.
  */
  lemma BackoffClosedForm(initial: Duration, max: Duration)
    requires initial > 0 && max > 0
    ensures AsPromised(initial, max) <==> initial < 0x4000_0000_0000_0000 && max < 0x4000_0000_0000_0000
  {
    if initial < HalfRange && max < HalfRange {
      forall k: nat ensures Backoff(initial, max, k) == Promised(initial, max, k) {
        BackoffIsPromised(initial, max, k);
      }
    } else {
      DoublePromised(initial, max, 0);
      DoubledIs(initial);
      BackoffStep(initial, max, 0);
      if initial >= HalfRange {
        assert Backoff(initial, max, 1) < 0 < Promised(initial, max, 1);
      } else {
        var n := ReachesHalfRange(initial, max, 1);
        assert Backoff(initial, max, n) != Promised(initial, max, n);
      }
    }
  }

  /** The waits never decrease when the first one is within the cap, and none after the first exceeds it. */
  lemma WaitsGrow(initial: Duration, max: Duration, k: nat)
    requires 0 < initial < HalfRange && 0 < max < HalfRange
    ensures Backoff(initial, max, k + 1) <= max
    ensures initial <= max ==> Backoff(initial, max, k) <= Backoff(initial, max, k + 1)
  {
    BackoffIsPromised(initial, max, k);
    BackoffIsPromised(initial, max, k + 1);
    DoublePromised(initial, max, k);
  }

  lemma {:induction false} Pow2Grows(j: nat, k: nat)
    requires j <= k
    ensures Pow2(j) <= Pow2(k)
  {
    if j < k {
      Pow2Grows(j, k - 1);
    }
  }

  lemma TwiceProduct(a: int, b: int)
    ensures 2 * (a * b) == (2 * a) * b
  {
  }

  lemma {:induction false} Pow2Sum(j: nat, k: nat)
    ensures Pow2(j + k) == Pow2(j) * Pow2(k)
  {
    if j > 0 {
      Pow2Sum(j - 1, k);
      TwiceProduct(Pow2(j - 1), Pow2(k));
    }
  }

  lemma Pow2Of62()
    ensures Pow2(62) == HalfRange
  {
    assert Pow2(4) == 16 by { assert Pow2(2) == 4 by { assert Pow2(1) == 2; } Pow2Sum(2, 2); }
    assert Pow2(16) == 0x1_0000 by { assert Pow2(8) == 0x100 by { Pow2Sum(4, 4); } Pow2Sum(8, 8); }
    assert Pow2(48) == 0x1_0000_0000_0000 by { assert Pow2(32) == 0x1_0000_0000 by { Pow2Sum(16, 16); } Pow2Sum(32, 16); }
    assert Pow2(60) == 0x1000_0000_0000_0000 by {
      assert Pow2(56) == 0x100_0000_0000_0000 by { assert Pow2(8) == 0x100 by { Pow2Sum(4, 4); } Pow2Sum(48, 8); }
      Pow2Sum(56, 4);
    }
    assert Pow2(2) == 4 by { assert Pow2(1) == 2; }
    Pow2Sum(60, 2);
  }

  lemma {:induction false} DoublesUpTo(k: nat)
    requires k <= 62
    ensures Backoff(1, HalfRange, k) == Pow2(k) <= HalfRange
  {
    Pow2Grows(k, 62);
    Pow2Of62();
    if k > 0 {
      DoublesUpTo(k - 1);
    }
  }

  /** Starting at one nanosecond with a cap of 2^62, the 63rd wait is as promised and the 64th is negative. */
  lemma WrapsAround()
    ensures Backoff(1, HalfRange, 62) == Promised(1, HalfRange, 62) == HalfRange
    ensures Backoff(1, HalfRange, 63) == -MaxDuration - 1
    ensures Promised(1, HalfRange, 63) == HalfRange
  {
    DoublesUpTo(62);
    Pow2Of62();
    DoublePromised(1, HalfRange, 62);
  }
}
