/**
Convergence of the monitor over infinite behaviours: two watch streams, handlers and the debouncer go on
for ever, interleaved. Once the watched objects of an instance have settled, the status computed for it
becomes and stays that of its final Deployment and pod, whatever the streams tell about other instances and
although the informers keep re-announcing the instance's unchanged objects; and the newest submission of
that status is handed to the publish function exactly unless a re-announcement overrides it in time.
*/
module MonitorLiveness {
  import opened Wrappers
  import opened Status
  import opened Reconcile
  import opened Monitor
  import opened MonitorConvergence
  import DL = DebouncerLiveness

  ghost predicate StepAt(run: nat -> State, act: nat -> Action, k: nat) {
    Enabled(run(k), act(k)) && run(k + 1) == Next(run(k), act(k))
  }

  /** An infinite behaviour of the monitor in which `id` has at most one Deployment at any time. */
  ghost predicate IsBehaviour(run: nat -> State, act: nat -> Action, interval: nat, id: string) {
    && id != "" && run(0) == Init(interval)
    && (forall k: nat :: StepAt(run, act, k))
    && (forall k: nat :: SingleDeployment(run(k), id))
  }

  ghost predicate DeployHandledBy(act: nat -> Action, k: nat, m: nat) {
    k <= m && act(m).HandleDeploy?
  }

  ghost predicate PodHandledBy(act: nat -> Action, k: nat, m: nat) {
    k <= m && act(m).HandlePod?
  }

  /** Neither queue of notifications is left unattended for ever. */
  ghost predicate HandlersFair(run: nat -> State, act: nat -> Action) {
    && (forall k: nat | run(k).deploys.queue != [] :: exists m: nat :: DeployHandledBy(act, k, m))
    && (forall k: nat | run(k).pods.queue != [] :: exists m: nat :: PodHandledBy(act, k, m))
  }

  /** A resync: the notification repeats an object as the index has it. */
  predicate Reannounces<T(==)>(inf: Informer<T>, n: Notice<T>) {
    n.Upsert? && n.obj.name in inf.index && inf.index[n.obj.name] == n.obj
  }

  /** The watch streams bring no news about `id`; re-announcements of its objects may come when `resyncs`. */
  predicate NoNews(s: State, x: Action, id: string, resyncs: bool) {
    match x
    case WatchDeploy(n) => n.obj.id == id ==> resyncs && Reannounces(s.deploys, n)
    case WatchPod(n) => n.obj.id == id ==> resyncs && Reannounces(s.pods, n)
    case _ => true
  }

  /** The instance's objects that `final` describes; with one Deployment and one pod at most, there is one answer. */
  ghost predicate IsFinal(s: State, id: string, final: Inputs) {
    |NamesOf(s.pods.index, id)| <= 1 && DeployIs(s.deploys, id, final.deploy) && PodIs(s.pods, id, final.pod)
  }

  /** A handler was, or will be, called for the instance. */
  ghost predicate Known(s: State, id: string) {
    id in s.last || !Drained(s, id)
  }

  /** From moment `from` on nothing changes about `id`, whose objects are then `final`. */
  ghost predicate SettledFrom(run: nat -> State, act: nat -> Action, id: string, from: nat, final: Inputs, resyncs: bool) {
    && IsFinal(run(from), id, final) && Known(run(from), id)
    && forall k: nat | from <= k :: NoNews(run(k), act(k), id, resyncs)
  }

  // ---- Working off the notifications queued when the objects settled ----

  function FirstOf<T>(inf: Informer<T>, n: nat): Informer<T>
    requires n <= |inf.queue|
  {
    inf.(queue := inf.queue[..n])
  }

  /** The state without the notifications that were queued since. */
  function Before(s: State, d: nat, p: nat): State
    requires d <= |s.deploys.queue| && p <= |s.pods.queue|
  {
    s.(deploys := FirstOf(s.deploys, d), pods := FirstOf(s.pods, p))
  }

  predicate OnlyResyncsAfter<T(==)>(inf: Informer<T>, n: nat, id: string, resyncs: bool) {
    forall i | n <= i < |inf.queue| && inf.queue[i].obj.id == id :: resyncs && Reannounces(inf, inf.queue[i])
  }

  /** d and p notifications are left from before the instance's objects settled. */
  ghost predicate Settling(s: State, id: string, final: Inputs, resyncs: bool, d: nat, p: nat) {
    && d <= |s.deploys.queue| && p <= |s.pods.queue|
    && Inv(Before(s, d, p), id) && Known(Before(s, d, p), id) && IsFinal(s, id, final)
    && OnlyResyncsAfter(s.deploys, d, id, resyncs) && OnlyResyncsAfter(s.pods, p, id, resyncs)
  }

  function OneLess(n: nat): nat {
    if n == 0 then 0 else n - 1
  }

  function DeploysLeft(x: Action, d: nat): nat {
    if x.HandleDeploy? then OneLess(d) else d
  }

  function PodsLeft(x: Action, p: nat): nat {
    if x.HandlePod? then OneLess(p) else p
  }

  ghost predicate SettlingStep(s: State, x: Action, id: string, final: Inputs, resyncs: bool, d: nat, p: nat) {
    && id != "" && Enabled(s, x) && NoNews(s, x, id, resyncs)
    && Settling(s, id, final, resyncs, d, p)
  }

  lemma SameObjects<T>(inf: Informer<T>, n: Notice<T>, id: string)
    requires WatchOk(inf, n) && (n.obj.id == id ==> Reannounces(inf, n))
    ensures var w := Watched(inf, n);
            && NamesOf(w.index, id) == NamesOf(inf.index, id)
            && forall k | k in NamesOf(inf.index, id) :: w.index[k] == inf.index[k]
  {
    NamesAfterWatch(inf, n, id);
  }

  lemma SameStart<T>(inf: Informer<T>, n: Notice<T>, k: nat, id: string, resyncs: bool)
    requires k <= |inf.queue| && WatchOk(inf, n) && OnlyResyncsAfter(inf, k, id, resyncs)
    requires n.obj.id == id ==> resyncs && Reannounces(inf, n)
    ensures FirstOf(Watched(inf, n), k).queue == FirstOf(inf, k).queue
    ensures OnlyResyncsAfter(Watched(inf, n), k, id, resyncs)
  {
  }

  lemma WatchSettles(s: State, x: Action, id: string, final: Inputs, resyncs: bool, d: nat, p: nat)
    requires SettlingStep(s, x, id, final, resyncs, d, p) && (x.WatchDeploy? || x.WatchPod?)
    ensures Settling(Next(s, x), id, final, resyncs, d, p)
  {
    if x.WatchDeploy? {
      SameObjects(s.deploys, x.dn, id);
      SameStart(s.deploys, x.dn, d, id, resyncs);
    } else {
      SameObjects(s.pods, x.pn, id);
      SameStart(s.pods, x.pn, p, id, resyncs);
    }
  }

  lemma DebounceSettles(s: State, x: Action, id: string, final: Inputs, resyncs: bool, d: nat, p: nat)
    requires SettlingStep(s, x, id, final, resyncs, d, p) && x.Debounce?
    ensures Settling(Next(s, x), id, final, resyncs, d, p)
  {
    DebounceKeepsInv(Before(s, d, p), x.a, id);
    assert Before(Next(s, x), d, p) == Next(Before(s, d, p), x);
  }

  lemma PoppedResyncs<T>(inf: Informer<T>, n: nat, id: string, resyncs: bool)
    requires inf.queue != [] && n <= |inf.queue| && OnlyResyncsAfter(inf, n, id, resyncs)
    ensures OnlyResyncsAfter(inf.(queue := inf.queue[1..]), OneLess(n), id, resyncs)
    ensures FirstOf(inf.(queue := inf.queue[1..]), OneLess(n)).queue == if n == 0 then [] else inf.queue[..n][1..]
  {
  }

  /** A handler call for an earlier notification is one of the monitor without the later ones. */
  lemma EarlierDeployHandled(s: State, x: Action, d: nat, p: nat)
    requires Enabled(s, x) && x.HandleDeploy? && 0 < d <= |s.deploys.queue| && p <= |s.pods.queue|
    ensures Enabled(Before(s, d, p), x) && Before(Next(s, x), d - 1, p) == Next(Before(s, d, p), x)
  {
    assert s.deploys.queue[1..][..d - 1] == s.deploys.queue[..d][1..];
  }

  lemma EarlierPodHandled(s: State, x: Action, d: nat, p: nat)
    requires Enabled(s, x) && x.HandlePod? && d <= |s.deploys.queue| && 0 < p <= |s.pods.queue|
    ensures Enabled(Before(s, d, p), x) && Before(Next(s, x), d, p - 1) == Next(Before(s, d, p), x)
  {
    assert s.pods.queue[1..][..p - 1] == s.pods.queue[..p][1..];
  }

  /** A handler call changes neither index, and makes its own instance known. */
  lemma HandledKnown(b: State, x: Action, id: string)
    requires Enabled(b, x) && (x.HandleDeploy? || x.HandlePod?) && id != "" && Known(b, id)
    ensures Known(Next(b, x), id)
    ensures Next(b, x).deploys.index == b.deploys.index && Next(b, x).pods.index == b.pods.index
  {
    if x.HandleDeploy? {
      LastForPopped(b.deploys.queue, id);
    } else {
      LastForPopped(b.pods.queue, id);
    }
  }

  /** A handler call for a re-announced object, seen without the queued notifications. */
  lemma ResyncHandled(b: State, n: string, x: Inputs, id: string)
    requires Inv(b, id) && Known(b, id)
    requires n == id ==> DeployIs(b.deploys, id, x.deploy) && PodIs(b.pods, id, x.pod)
    ensures Inv(Handled(b, n, x), id) && Known(Handled(b, n, x), id)
  {
    HandledKeepsSubmitted(b, n, x, id);
  }

  lemma EarlierDeploySettles(s: State, x: Action, id: string, final: Inputs, resyncs: bool, d: nat, p: nat)
    requires SettlingStep(s, x, id, final, resyncs, d, p) && x.HandleDeploy? && d > 0
    ensures Inv(Before(Next(s, x), d - 1, p), id) && Known(Before(Next(s, x), d - 1, p), id)
  {
    var b := Before(s, d, p);
    EarlierDeployHandled(s, x, d, p);
    HandleDeployKeepsInv(b, x.podItems, id);
    HandledKnown(b, x, id);
  }

  lemma ResyncedDeploySettles(s: State, x: Action, id: string, final: Inputs, resyncs: bool, p: nat)
    requires SettlingStep(s, x, id, final, resyncs, 0, p) && x.HandleDeploy?
    ensures Inv(Before(Next(s, x), 0, p), id) && Known(Before(Next(s, x), 0, p), id)
  {
    var n := s.deploys.queue[0];
    var inputs := DeployInputs(n, x.podItems);
    WorstPodIs(s.pods, n.obj.id, x.podItems);
    assert n.obj.id == id ==> n.obj.name in NamesOf(s.deploys.index, id);
    ResyncHandled(Before(s, 0, p), n.obj.id, inputs, id);
    assert Before(Next(s, x), 0, p) == Handled(Before(s, 0, p), n.obj.id, inputs);
  }

  lemma HandleDeploySettles(s: State, x: Action, id: string, final: Inputs, resyncs: bool, d: nat, p: nat)
    requires SettlingStep(s, x, id, final, resyncs, d, p) && x.HandleDeploy?
    ensures Settling(Next(s, x), id, final, resyncs, OneLess(d), p)
  {
    PoppedResyncs(s.deploys, d, id, resyncs);
    if d > 0 {
      EarlierDeploySettles(s, x, id, final, resyncs, d, p);
    } else {
      ResyncedDeploySettles(s, x, id, final, resyncs, p);
    }
  }

  lemma EarlierPodSettles(s: State, x: Action, id: string, final: Inputs, resyncs: bool, d: nat, p: nat)
    requires SettlingStep(s, x, id, final, resyncs, d, p) && x.HandlePod? && p > 0
    ensures Inv(Before(Next(s, x), d, p - 1), id) && Known(Before(Next(s, x), d, p - 1), id)
  {
    var b := Before(s, d, p);
    EarlierPodHandled(s, x, d, p);
    HandlePodKeepsInv(b, x.deployItems, x.podItems, id);
    HandledKnown(b, x, id);
  }

  lemma ResyncedPodSettles(s: State, x: Action, id: string, final: Inputs, resyncs: bool, d: nat)
    requires SettlingStep(s, x, id, final, resyncs, d, 0) && x.HandlePod?
    ensures Inv(Before(Next(s, x), d, 0), id) && Known(Before(Next(s, x), d, 0), id)
  {
    var n := s.pods.queue[0];
    var inputs := PodInputs(n, x.deployItems, x.podItems);
    FirstDeployIs(s.deploys, n.obj.id, x.deployItems);
    assert n.obj.id == id ==> n.obj.name in NamesOf(s.pods.index, id);
    ResyncHandled(Before(s, d, 0), n.obj.id, inputs, id);
    assert Before(Next(s, x), d, 0) == Handled(Before(s, d, 0), n.obj.id, inputs);
  }

  lemma HandlePodSettles(s: State, x: Action, id: string, final: Inputs, resyncs: bool, d: nat, p: nat)
    requires SettlingStep(s, x, id, final, resyncs, d, p) && x.HandlePod?
    ensures Settling(Next(s, x), id, final, resyncs, d, OneLess(p))
  {
    PoppedResyncs(s.pods, p, id, resyncs);
    if p > 0 {
      EarlierPodSettles(s, x, id, final, resyncs, d, p);
    } else {
      ResyncedPodSettles(s, x, id, final, resyncs, d);
    }
  }

  lemma StepSettles(s: State, x: Action, id: string, final: Inputs, resyncs: bool, d: nat, p: nat)
    requires SettlingStep(s, x, id, final, resyncs, d, p)
    ensures Settling(Next(s, x), id, final, resyncs, DeploysLeft(x, d), PodsLeft(x, p))
  {
    match x {
      case WatchDeploy(_) => WatchSettles(s, x, id, final, resyncs, d, p);
      case WatchPod(_) => WatchSettles(s, x, id, final, resyncs, d, p);
      case HandleDeploy(_) => HandleDeploySettles(s, x, id, final, resyncs, d, p);
      case HandlePod(_, _) => HandlePodSettles(s, x, id, final, resyncs, d, p);
      case Debounce(_) => DebounceSettles(s, x, id, final, resyncs, d, p);
    }
  }

  // ---- Until all of them are worked off ----

  lemma {:induction false} InvAlong(run: nat -> State, act: nat -> Action, interval: nat, id: string, k: nat)
    requires IsBehaviour(run, act, interval, id)
    ensures Inv(run(k), id)
  {
    if k == 0 {
      InitHasInv(interval, id);
    } else {
      InvAlong(run, act, interval, id, k - 1);
      assert StepAt(run, act, k - 1);
      StepKeepsInv(run(k - 1), act(k - 1), id);
    }
  }

  ghost predicate Scenario(run: nat -> State, act: nat -> Action, interval: nat, id: string, from: nat, final: Inputs,
                           resyncs: bool) {
    && IsBehaviour(run, act, interval, id) && HandlersFair(run, act)
    && SettledFrom(run, act, id, from, final, resyncs)
  }

  /** At moment k, d and p notifications are left; a moment leaves as many or, after a handler call, one less. */
  ghost predicate CountsDown(left: (nat, nat, nat) -> bool, act: nat -> Action, from: nat) {
    && (forall k: nat, d: nat, p: nat | from <= k && left(k, d, p) ::
          left(k + 1, DeploysLeft(act(k), d), PodsLeft(act(k), p)))
    && (forall k: nat, d: nat, p: nat | from <= k && left(k, d, p) ::
          && (d > 0 ==> exists m: nat :: DeployHandledBy(act, k, m))
          && (p > 0 ==> exists m: nat :: PodHandledBy(act, k, m)))
  }

  lemma {:induction false} NeverMore(left: (nat, nat, nat) -> bool, act: nat -> Action, from: nat,
                                     k: nat, m: nat, d: nat, p: nat)
    returns (d': nat, p': nat)
    requires CountsDown(left, act, from) && from <= k <= m && left(k, d, p)
    ensures d' <= d && p' <= p && left(m, d', p')
  {
    if k == m {
      return d, p;
    }
    d', p' := NeverMore(left, act, from, k, m - 1, d, p);
    d', p' := DeploysLeft(act(m - 1), d'), PodsLeft(act(m - 1), p');
  }

  lemma {:induction false} WorkedOff(left: (nat, nat, nat) -> bool, act: nat -> Action, from: nat, k: nat, d: nat, p: nat)
    returns (n: nat)
    requires CountsDown(left, act, from) && from <= k && left(k, d, p)
    ensures k <= n && left(n, 0, 0)
    decreases d + p
  {
    if d == 0 && p == 0 {
      return k;
    }
    var m: nat;
    if d > 0 {
      m :| DeployHandledBy(act, k, m);
    } else {
      m :| PodHandledBy(act, k, m);
    }
    var d', p' := NeverMore(left, act, from, k, m, d, p);
    n := WorkedOff(left, act, from, m + 1, DeploysLeft(act(m), d'), PodsLeft(act(m), p'));
  }

  ghost function Left(run: nat -> State, id: string, final: Inputs, resyncs: bool): (nat, nat, nat) -> bool {
    (k: nat, d: nat, p: nat) => Settling(run(k), id, final, resyncs, d, p)
  }

  lemma SettlingCountsDown(run: nat -> State, act: nat -> Action, interval: nat, id: string, from: nat, final: Inputs,
                           resyncs: bool)
    requires Scenario(run, act, interval, id, from, final, resyncs)
    ensures CountsDown(Left(run, id, final, resyncs), act, from)
  {
    var left := Left(run, id, final, resyncs);
    forall k: nat, d: nat, p: nat | from <= k && left(k, d, p)
      ensures left(k + 1, DeploysLeft(act(k), d), PodsLeft(act(k), p))
    {
      assert StepAt(run, act, k);
      StepSettles(run(k), act(k), id, final, resyncs, d, p);
    }
  }

  lemma StartsSettling(run: nat -> State, act: nat -> Action, interval: nat, id: string, from: nat, final: Inputs,
                       resyncs: bool)
    requires Scenario(run, act, interval, id, from, final, resyncs)
    ensures Left(run, id, final, resyncs)(from, |run(from).deploys.queue|, |run(from).pods.queue|)
  {
    var s := run(from);
    InvAlong(run, act, interval, id, from);
    assert Before(s, |s.deploys.queue|, |s.pods.queue|) == s by {
      assert s.deploys.queue[..|s.deploys.queue|] == s.deploys.queue;
      assert s.pods.queue[..|s.pods.queue|] == s.pods.queue;
    }
  }

  /** From some moment on, all notifications from before the objects settled have been handled. */
  lemma Settles(run: nat -> State, act: nat -> Action, interval: nat, id: string, from: nat, final: Inputs, resyncs: bool)
    returns (n: nat)
    requires Scenario(run, act, interval, id, from, final, resyncs)
    ensures from <= n && forall k: nat | n <= k :: Left(run, id, final, resyncs)(k, 0, 0)
  {
    var left := Left(run, id, final, resyncs);
    StartsSettling(run, act, interval, id, from, final, resyncs);
    SettlingCountsDown(run, act, interval, id, from, final, resyncs);
    n := WorkedOff(left, act, from, from, |run(from).deploys.queue|, |run(from).pods.queue|);
    forall k: nat | n <= k ensures left(k, 0, 0) {
      var _, _ := NeverMore(left, act, from, n, k, 0, 0);
    }
  }

  lemma FinalIsUnique(s: State, id: string, final: Inputs, x: Inputs)
    requires SingleDeployment(s, id) && IsFinal(s, id, final) && IsFinal(s, id, x)
    ensures x == final
  {
    if x.deploy.Some? && final.deploy.Some? {
      var a :| a in NamesOf(s.deploys.index, id) && s.deploys.index[a].body == x.deploy.value;
      var b :| b in NamesOf(s.deploys.index, id) && s.deploys.index[b].body == final.deploy.value;
      OnlyOne(NamesOf(s.deploys.index, id), a, b);
    }
    if x.pod.Some? && final.pod.Some? {
      var a :| a in NamesOf(s.pods.index, id) && s.pods.index[a].body == x.pod.value;
      var b :| b in NamesOf(s.pods.index, id) && s.pods.index[b].body == final.pod.value;
      OnlyOne(NamesOf(s.pods.index, id), a, b);
    }
  }

  /** The latest handler call reconciled the final objects, and its event is the newest submitted. */
  ghost predicate Converged(s: State, id: string, final: Inputs) {
    && id in s.last && s.last[id] == final
    && (EventOf(id, final).Some? <==> Publishable(final.deploy, final.pod))
    && (EventOf(id, final).Some? && !s.debouncer.stopped ==>
          && Tells(EventOf(id, final).value, id, final.deploy, final.pod)
          && exists t: nat :: NewestEvent(s.debouncer, id, t, EventOf(id, final).value))
  }

  lemma SettledIsConverged(s: State, id: string, final: Inputs, resyncs: bool)
    requires Settling(s, id, final, resyncs, 0, 0)
    ensures Converged(s, id, final)
  {
    FinalIsUnique(s, id, final, s.last[id]);
    EventTellsObjects(id, final);
  }

  /**
  In every behaviour with fair handlers: once the instance's objects have settled, with at most one pod,
  its status becomes the one of its final Deployment and pod, is submitted, and stays so for ever.
  */
  lemma FinalStatusIsComputed(run: nat -> State, act: nat -> Action, interval: nat, id: string, from: nat, final: Inputs,
                              resyncs: bool)
    returns (n: nat)
    requires Scenario(run, act, interval, id, from, final, resyncs)
    ensures from <= n && forall k: nat | n <= k :: Converged(run(k), id, final)
  {
    n := Settles(run, act, interval, id, from, final, resyncs);
    forall k: nat | n <= k ensures Converged(run(k), id, final) {
      assert Left(run, id, final, resyncs)(k, 0, 0);
      SettledIsConverged(run(k), id, final, resyncs);
    }
  }

  // ---- The debouncer's part of a behaviour ----

  function SubmitMove(id: string, x: Inputs): Option<D.Action> {
    if id == "" || EventOf(id, x).None? then None else Some(D.Submit(id, EventOf(id, x).value))
  }

  /** What an action of the monitor does to the debouncer. */
  function DebouncerMove(s: State, x: Action): Option<D.Action> {
    match x
    case Debounce(a) => Some(a)
    case HandleDeploy(podItems) =>
      if s.deploys.queue == [] then None
      else SubmitMove(s.deploys.queue[0].obj.id, DeployInputs(s.deploys.queue[0], podItems))
    case HandlePod(deployItems, podItems) =>
      if s.pods.queue == [] then None
      else SubmitMove(s.pods.queue[0].obj.id, PodInputs(s.pods.queue[0], deployItems, podItems))
    case _ => None
  }

  ghost function Debouncers(run: nat -> State): nat -> D.State {
    (k: nat) => run(k).debouncer
  }

  ghost function DebouncerMoves(run: nat -> State, act: nat -> Action): nat -> Option<D.Action> {
    (k: nat) => DebouncerMove(run(k), act(k))
  }

  lemma DebouncersBehave(run: nat -> State, act: nat -> Action, interval: nat, id: string)
    requires IsBehaviour(run, act, interval, id)
    ensures DL.IsBehaviour(Debouncers(run), DebouncerMoves(run, act))
  {
    InvAlong(run, act, interval, id, 0);
    forall k: nat ensures DL.Moves(run(k).debouncer, DebouncerMove(run(k), act(k)), run(k + 1).debouncer) {
      assert StepAt(run, act, k);
    }
  }

  // ---- Publication ----

  /** The newest submission for the instance at moment k carries the event, and is handed to the publish function. */
  ghost predicate LatestIsPublished(run: nat -> State, id: string, event: StatusEvent, k: nat) {
    exists t: nat, m: nat :: NewestEvent(run(k).debouncer, id, t, event) && t in run(m).debouncer.calls
  }

  ghost predicate IsStopped(run: nat -> State) {
    exists k: nat :: run(k).debouncer.stopped
  }

  /** The monitor submits the event and thereby stops timer t, which is still armed. */
  ghost predicate Resubmits(s: State, x: Action, id: string, event: StatusEvent, t: nat) {
    DebouncerMove(s, x) == Some(D.Submit(id, event)) && DL.Overrides(s.debouncer, t, DebouncerMove(s, x))
  }

  /** The submission that is newest at moment k is itself stopped by a later one of the same event. */
  ghost predicate LatestIsResubmitted(run: nat -> State, act: nat -> Action, id: string, event: StatusEvent, k: nat) {
    exists t: nat, m: nat ::
      k <= m && NewestEvent(run(k).debouncer, id, t, event) && Resubmits(run(m), act(m), id, event, t)
  }

  lemma OverriddenBySubmit(s: D.State, t: nat, id: string, event: StatusEvent)
    requires DS.Inv(s) && DL.Overrides(s, t, Some(D.Submit(id, event)))
    ensures s.pool[t].id == id
  {
  }

  /** What a settled instance's handler submits. */
  lemma SubmitsFinal(s: State, x: Action, id: string, final: Inputs, resyncs: bool, event: StatusEvent)
    requires SettlingStep(s, x, id, final, resyncs, 0, 0) && DebouncerMove(s, x) == Some(D.Submit(id, event))
    ensures resyncs && EventOf(id, final) == Some(event)
  {
    StepSettles(s, x, id, final, resyncs, 0, 0);
    SettledIsConverged(Next(s, x), id, final, resyncs);
  }

  /** What can override a submission of a settled instance's event. */
  lemma OverridingMove(s: State, x: Action, id: string, final: Inputs, resyncs: bool, t: nat)
    requires SettlingStep(s, x, id, final, resyncs, 0, 0) && EventOf(id, final).Some?
    requires DL.Overrides(s.debouncer, t, DebouncerMove(s, x))
    requires s.debouncer.pool[t].id == id && s.debouncer.pool[t].event == EventOf(id, final).value
    ensures x == Debounce(D.StopLock) || (resyncs && Resubmits(s, x, id, EventOf(id, final).value, t))
  {
    match DebouncerMove(s, x).value {
      case Submit(other, event) =>
        OverriddenBySubmit(s.debouncer, t, other, event);
        SubmitsFinal(s, x, id, final, resyncs, event);
      case StopLock =>
    }
  }

  lemma NewestIsHopeful(s: D.State, id: string, t: nat, event: StatusEvent)
    requires DS.Inv(s) && !s.stopped && NewestEvent(s, id, t, event)
    ensures DL.Hopeful(s, t)
  {
    assert DS.Alive(s, t);
  }

  lemma OverriddenAt(run: nat -> State, act: nat -> Action, interval: nat, id: string, from: nat, final: Inputs,
                     resyncs: bool, m: nat, t: nat)
    requires Scenario(run, act, interval, id, from, final, resyncs) && from <= m
    requires Left(run, id, final, resyncs)(m, 0, 0) && EventOf(id, final).Some?
    requires DL.Overrides(run(m).debouncer, t, DebouncerMove(run(m), act(m)))
    requires run(m).debouncer.pool[t].id == id && run(m).debouncer.pool[t].event == EventOf(id, final).value
    ensures IsStopped(run) || (resyncs && Resubmits(run(m), act(m), id, EventOf(id, final).value, t))
  {
    assert StepAt(run, act, m);
    OverridingMove(run(m), act(m), id, final, resyncs, t);
    if act(m) == Debounce(D.StopLock) {
      assert run(m + 1).debouncer.stopped;
    }
  }

  lemma OneNewest(s: D.State, id: string, t: nat, u: nat, event: StatusEvent)
    requires NewestEvent(s, id, t, event) && NewestEvent(s, id, u, event)
    ensures t == u
  {
  }

  /** From moment k on, when the instance has converged, only a re-submission or a Stop overrides timer t. */
  lemma OverriddenByResync(run: nat -> State, act: nat -> Action, interval: nat, id: string, from: nat, final: Inputs,
                           resyncs: bool, k: nat, t: nat)
    returns (m: nat)
    requires Scenario(run, act, interval, id, from, final, resyncs) && from <= k && !IsStopped(run)
    requires (forall i: nat | k <= i :: Left(run, id, final, resyncs)(i, 0, 0)) && EventOf(id, final).Some?
    requires NewestEvent(run(k).debouncer, id, t, EventOf(id, final).value)
    requires !DL.NeverOverridden(Debouncers(run), DebouncerMoves(run, act), t, k)
    ensures k <= m && resyncs && Resubmits(run(m), act(m), id, EventOf(id, final).value, t)
  {
    var debs, moves := Debouncers(run), DebouncerMoves(run, act);
    m :| k <= m && DL.Overrides(debs(m), t, moves(m));
    DebouncersBehave(run, act, interval, id);
    DL.SameInstance(debs, moves, t, k, m);
    OverriddenAt(run, act, interval, id, from, final, resyncs, m, t);
  }

  /** The newest submission at a moment k from which on the instance has converged. */
  lemma LatestAtMoment(run: nat -> State, act: nat -> Action, interval: nat, id: string, from: nat, final: Inputs,
                       resyncs: bool, k: nat)
    returns (t: nat)
    requires Scenario(run, act, interval, id, from, final, resyncs) && from <= k && !IsStopped(run)
    requires Left(run, id, final, resyncs)(k, 0, 0) && EventOf(id, final).Some? && DL.Fair(Debouncers(run))
    ensures NewestEvent(run(k).debouncer, id, t, EventOf(id, final).value)
    ensures (exists m: nat :: t in run(m).debouncer.calls) <==>
            DL.NeverOverridden(Debouncers(run), DebouncerMoves(run, act), t, k)
  {
    var debs, moves := Debouncers(run), DebouncerMoves(run, act);
    SettledIsConverged(run(k), id, final, resyncs);
    assert !run(k).debouncer.stopped;
    t :| NewestEvent(run(k).debouncer, id, t, EventOf(id, final).value);
    InvAlong(run, act, interval, id, k);
    NewestIsHopeful(debs(k), id, t, EventOf(id, final).value);
    DebouncersBehave(run, act, interval, id);
    DL.PublishedUnlessOverridden(debs, moves, t, k);
    assert forall m: nat :: debs(m).calls == run(m).debouncer.calls;
  }

  lemma PublishedUnlessResubmitted(run: nat -> State, act: nat -> Action, interval: nat, id: string, from: nat,
                                   final: Inputs, resyncs: bool, k: nat)
    requires Scenario(run, act, interval, id, from, final, resyncs) && from <= k && !IsStopped(run)
    requires (forall i: nat | k <= i :: Left(run, id, final, resyncs)(i, 0, 0)) && EventOf(id, final).Some?
    requires DL.Fair(Debouncers(run))
    ensures var event := EventOf(id, final).value;
            && (LatestIsPublished(run, id, event, k) <==> !LatestIsResubmitted(run, act, id, event, k))
            && (LatestIsResubmitted(run, act, id, event, k) ==> resyncs)
  {
    var event := EventOf(id, final).value;
    var debs, moves := Debouncers(run), DebouncerMoves(run, act);
    assert Left(run, id, final, resyncs)(k, 0, 0);
    var t := LatestAtMoment(run, act, interval, id, from, final, resyncs, k);
    if !DL.NeverOverridden(debs, moves, t, k) {
      var m := OverriddenByResync(run, act, interval, id, from, final, resyncs, k, t);
      assert LatestIsResubmitted(run, act, id, event, k);
    }
    if LatestIsResubmitted(run, act, id, event, k) {
      var u: nat, m: nat :| k <= m && NewestEvent(run(k).debouncer, id, u, event) && Resubmits(run(m), act(m), id, event, u);
      OneNewest(run(k).debouncer, id, t, u, event);
      assert DL.Overrides(debs(m), t, moves(m));
    }
    if LatestIsPublished(run, id, event, k) {
      var u: nat, m: nat :| NewestEvent(run(k).debouncer, id, u, event) && u in run(m).debouncer.calls;
      OneNewest(run(k).debouncer, id, t, u, event);
    }
  }

  /**
  In every behaviour with fair handlers and a fair runtime, once the instance's objects have settled, with
  at most one pod and a publishable final status: unless the debouncer is stopped at some time, from some
  moment n on the newest submission for the instance carries that status, and it is handed to the publish
  function if and only if no resync submits the same status again while its own timer is armed.
  */
  lemma FinalStatusIsPublished(run: nat -> State, act: nat -> Action, interval: nat, id: string, from: nat, final: Inputs,
                               resyncs: bool)
    returns (n: nat)
    requires Scenario(run, act, interval, id, from, final, resyncs)
    requires EventOf(id, final).Some? && DL.Fair(Debouncers(run))
    ensures var event := EventOf(id, final).value;
            && from <= n && Tells(event, id, final.deploy, final.pod)
            && (IsStopped(run) || forall k: nat | n <= k ::
                  && (LatestIsPublished(run, id, event, k) <==> !LatestIsResubmitted(run, act, id, event, k))
                  && (LatestIsResubmitted(run, act, id, event, k) ==> resyncs))
  {
    var event := EventOf(id, final).value;
    EventTellsObjects(id, final);
    n := Settles(run, act, interval, id, from, final, resyncs);
    if !IsStopped(run) {
      forall k: nat | n <= k
        ensures LatestIsPublished(run, id, event, k) <==> !LatestIsResubmitted(run, act, id, event, k)
        ensures LatestIsResubmitted(run, act, id, event, k) ==> resyncs
      {
        PublishedUnlessResubmitted(run, act, interval, id, from, final, resyncs, k);
      }
    }
  }

  /** Starvation: from moment k on, each submission is stopped by a later one before it can be published. */
  ghost predicate Starved(run: nat -> State, act: nat -> Action, id: string, event: StatusEvent, k: nat) {
    forall j: nat | k <= j :: LatestIsResubmitted(run, act, id, event, j)
  }

  ghost predicate PublishedAfter(run: nat -> State, id: string, event: StatusEvent, k: nat) {
    exists j: nat :: k <= j && LatestIsPublished(run, id, event, j)
  }

  /** So the status is published after any moment, unless there is a Stop, or every later submission is stopped. */
  lemma PublishedOrStarved(run: nat -> State, act: nat -> Action, interval: nat, id: string, from: nat, final: Inputs,
                           resyncs: bool)
    returns (n: nat)
    requires Scenario(run, act, interval, id, from, final, resyncs)
    requires EventOf(id, final).Some? && DL.Fair(Debouncers(run))
    ensures var event := EventOf(id, final).value;
            && from <= n && Tells(event, id, final.deploy, final.pod)
            && forall k: nat | n <= k ::
                 IsStopped(run) || PublishedAfter(run, id, event, k) || (resyncs && Starved(run, act, id, event, k))
  {
    n := FinalStatusIsPublished(run, act, interval, id, from, final, resyncs);
    var event := EventOf(id, final).value;
    forall k: nat | n <= k && !IsStopped(run) && !PublishedAfter(run, id, event, k)
      ensures resyncs && Starved(run, act, id, event, k)
    {
      forall j: nat | k <= j ensures resyncs && LatestIsResubmitted(run, act, id, event, j) {
        assert !LatestIsPublished(run, id, event, j);
      }
      assert LatestIsResubmitted(run, act, id, event, k);
    }
  }

  // ---- Resyncs that leave the interval alone ----

  /** When a status is submitted for the instance, none of its timers is due: due timers have fired before. */
  ghost predicate FiresFirst(run: nat -> State, act: nat -> Action, id: string) {
    forall m: nat, event | DebouncerMove(run(m), act(m)) == Some(D.Submit(id, event)) ::
      forall t: nat | t < |run(m).debouncer.pool| && run(m).debouncer.pool[t].id == id :: !D.Due(run(m).debouncer, t)
  }

  /** After moment k, nothing is submitted for the instance before timer t's deadline. */
  ghost predicate LeftAlone(run: nat -> State, act: nat -> Action, id: string, t: nat, k: nat)
    requires t < |run(k).debouncer.pool|
  {
    var phase := run(k).debouncer.pool[t].phase;
    forall m: nat, event | k <= m && DebouncerMove(run(m), act(m)) == Some(D.Submit(id, event)) ::
      phase.Armed? ==> phase.deadline <= run(m).debouncer.now
  }

  /**
  With prompt firing, every submission after convergence that is followed by none within the debounce
  interval is published: so is, without a Stop, the settled status after each resync round that leaves the
  interval alone.
  */
  lemma QuietIntervalPublishes(run: nat -> State, act: nat -> Action, interval: nat, id: string, from: nat, final: Inputs,
                               resyncs: bool)
    returns (n: nat)
    requires Scenario(run, act, interval, id, from, final, resyncs)
    requires EventOf(id, final).Some? && DL.Fair(Debouncers(run)) && FiresFirst(run, act, id)
    ensures var event := EventOf(id, final).value;
            && from <= n && Tells(event, id, final.deploy, final.pod)
            && (IsStopped(run) || forall k: nat, t: nat |
                  n <= k && NewestEvent(run(k).debouncer, id, t, event) && LeftAlone(run, act, id, t, k) ::
                  LatestIsPublished(run, id, event, k))
  {
    n := FinalStatusIsPublished(run, act, interval, id, from, final, resyncs);
    var event := EventOf(id, final).value;
    if !IsStopped(run) {
      forall k: nat, t: nat | n <= k && NewestEvent(run(k).debouncer, id, t, event) && LeftAlone(run, act, id, t, k)
        ensures LatestIsPublished(run, id, event, k)
      {
        if LatestIsResubmitted(run, act, id, event, k) {
          var u: nat, m: nat :| k <= m && NewestEvent(run(k).debouncer, id, u, event) && Resubmits(run(m), act(m), id, event, u);
          OneNewest(run(k).debouncer, id, t, u, event);
          NotWhileArmed(run, act, interval, id, event, t, k, m);
        }
      }
    }
  }

  lemma NotWhileArmed(run: nat -> State, act: nat -> Action, interval: nat, id: string, event: StatusEvent, t: nat, k: nat,
                      m: nat)
    requires IsBehaviour(run, act, interval, id) && FiresFirst(run, act, id)
    requires k <= m && t < |run(k).debouncer.pool| && LeftAlone(run, act, id, t, k)
    ensures !Resubmits(run(m), act(m), id, event, t)
  {
    if Resubmits(run(m), act(m), id, event, t) {
      var debs, moves := Debouncers(run), DebouncerMoves(run, act);
      DebouncersBehave(run, act, interval, id);
      InvAlong(run, act, interval, id, m);
      OverriddenBySubmit(run(m).debouncer, t, id, event);
      DL.ArmedAlong(debs, moves, t, k, m);
      assert D.Due(run(m).debouncer, t);
      assert false;
    }
  }
}
