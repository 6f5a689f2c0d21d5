/**
Convergence of the monitor: once both notification queues are empty, the last status computed for an
instance is the one of its final Deployment and pod, and it is the latest event submitted.
*/
module MonitorConvergence {
  import opened Wrappers
  import opened Status
  import opened Kube
  import opened Reconcile
  import opened Monitor
  import StoreReads
  import DS = DebouncerSafety

  /** The last queued notification about an instance. */
  function LastFor<T>(queue: seq<Notice<T>>, id: string): Option<Notice<T>> {
    if queue == [] then None
    else
      var n := |queue| - 1;
      if queue[n].obj.id == id then Some(queue[n]) else LastFor(queue[..n], id)
  }

  lemma {:induction false} LastForPopped<T>(queue: seq<Notice<T>>, id: string)
    requires queue != []
    ensures LastFor(queue, id) ==
            if LastFor(queue[1..], id).Some? then LastFor(queue[1..], id)
            else if queue[0].obj.id == id then Some(queue[0]) else None
  {
    var n := |queue| - 1;
    if n > 0 {
      assert queue[1..][..n - 1] == queue[..n][1..];
      LastForPopped(queue[..n], id);
    } else {
      assert queue[..0] == [];
    }
  }

  lemma LastForPushed<T>(queue: seq<Notice<T>>, n: Notice<T>, id: string)
    ensures LastFor(queue + [n], id) == if n.obj.id == id then Some(n) else LastFor(queue, id)
  {
    assert (queue + [n])[..|queue|] == queue;
  }

  lemma NamesAfterWatch<T>(inf: Informer<T>, n: Notice<T>, id: string)
    requires WatchOk(inf, n)
    ensures var w := Watched(inf, n);
            && NamesOf(w.index, id) ==
               (if n.obj.id != id then NamesOf(inf.index, id)
                else if n.Upsert? then NamesOf(inf.index, id) + {n.obj.name}
                else NamesOf(inf.index, id) - {n.obj.name})
            && (forall k | k in NamesOf(inf.index, id) && k != n.obj.name :: k in w.index && w.index[k] == inf.index[k])
            && (n.obj.id != id ==> forall k | k in NamesOf(inf.index, id) :: k in w.index && w.index[k] == inf.index[k])
  {
  }

  // ---- The invariant ----

  /** The last queued Deployment notification of an instance tells its Deployments. */
  ghost predicate DeployQueueOk(inf: Informer<Deployment>, id: string) {
    match LastFor(inf.queue, id)
    case None => true
    case Some(Upsert(o)) => NamesOf(inf.index, id) == {o.name} && inf.index[o.name] == o
    case Some(Deleted(_)) => NamesOf(inf.index, id) == {}
  }

  /** The last queued pod notification of an instance, if not a deletion, tells that pod's present state. */
  ghost predicate PodQueueOk(inf: Informer<Pod>, id: string) {
    match LastFor(inf.queue, id)
    case Some(Upsert(o)) => o.name in NamesOf(inf.index, id) && inf.index[o.name] == o
    case _ => true
  }

  ghost predicate DeployIs(inf: Informer<Deployment>, id: string, deploy: Option<Deployment>) {
    match deploy
    case None => NamesOf(inf.index, id) == {}
    case Some(d) => exists n :: n in NamesOf(inf.index, id) && inf.index[n].body == d
  }

  ghost predicate PodIs(inf: Informer<Pod>, id: string, pod: Option<Pod>) {
    match pod
    case None => NamesOf(inf.index, id) == {}
    case Some(p) => exists n :: n in NamesOf(inf.index, id) && inf.index[n].body == p
  }

  ghost predicate Drained(s: State, id: string) {
    LastFor(s.deploys.queue, id).None? && LastFor(s.pods.queue, id).None?
  }

  /** Without notifications pending, the latest inputs are current; an unseen instance has no objects. */
  ghost predicate InputsOk(s: State, id: string) {
    Drained(s, id) ==>
      if id in s.last then DeployIs(s.deploys, id, s.last[id].deploy) && PodIs(s.pods, id, s.last[id].pod)
      else NamesOf(s.deploys.index, id) == {} && NamesOf(s.pods.index, id) == {}
  }

  ghost predicate NewestEvent(s: D.State, id: string, t: nat, event: StatusEvent) {
    DS.Newest(s, t) && s.pool[t].id == id && s.pool[t].event == event
  }

  /** The latest publishable inputs were submitted, and nothing was since. */
  ghost predicate SubmittedOk(s: State, id: string) {
    id in s.last && EventOf(id, s.last[id]).Some? && !s.debouncer.stopped ==>
      exists t: nat :: NewestEvent(s.debouncer, id, t, EventOf(id, s.last[id]).value)
  }

  ghost predicate Inv(s: State, id: string) {
    && DS.Inv(s.debouncer) && SingleDeployment(s, id)
    && DeployQueueOk(s.deploys, id) && PodQueueOk(s.pods, id)
    && InputsOk(s, id) && SubmittedOk(s, id)
  }

  // ---- Watch events ----

  lemma WatchDeployKeepsInv(s: State, n: Notice<Deployment>, id: string)
    requires Inv(s, id) && WatchOk(s.deploys, n) && SingleDeployment(Next(s, WatchDeploy(n)), id)
    ensures Inv(Next(s, WatchDeploy(n)), id)
  {
    var s' := Next(s, WatchDeploy(n));
    LastForPushed(s.deploys.queue, n, id);
    NamesAfterWatch(s.deploys, n, id);
    if n.obj.id == id {
      var names := NamesOf(s'.deploys.index, id);
      if n.Upsert? {
        assert n.obj.name in names;
        assert |names - {n.obj.name}| == 0;
        assert names == {n.obj.name};
      } else {
        assert n.obj.name in NamesOf(s.deploys.index, id);
        assert |NamesOf(s.deploys.index, id) - {n.obj.name}| == 0;
      }
    }
  }

  lemma WatchPodKeepsInv(s: State, n: Notice<Pod>, id: string)
    requires Inv(s, id) && WatchOk(s.pods, n)
    ensures Inv(Next(s, WatchPod(n)), id)
  {
    LastForPushed(s.pods.queue, n, id);
    NamesAfterWatch(s.pods, n, id);
  }

  // ---- Handlers ----

  lemma ListedBody<T>(inf: Informer<T>, id: string, items: seq<Obj<T>>, body: T)
    requires ByIndex(inf, id, items) && body in Bodies(items)
    ensures exists n :: n in NamesOf(inf.index, id) && inf.index[n].body == body
  {
    var order :| Store.ListedIn(inf.index, NamesOf(inf.index, id), items, order);
    var i :| 0 <= i < |items| && Bodies(items)[i] == body;
    assert order[i] in order;
  }

  lemma ListedLength<T>(inf: Informer<T>, id: string, items: seq<Obj<T>>)
    requires ByIndex(inf, id, items)
    ensures |items| == |NamesOf(inf.index, id)|
  {
    var order :| Store.ListedIn(inf.index, NamesOf(inf.index, id), items, order);
    StoreReads.EnumeratedLength(order, NamesOf(inf.index, id));
  }

  lemma WorstPodIs(inf: Informer<Pod>, id: string, items: seq<Obj<Pod>>)
    requires ByIndex(inf, id, items)
    ensures PodIs(inf, id, WorstPod(Bodies(items)))
  {
    ListedLength(inf, id, items);
    if items != [] {
      WorstPodIsWorst(Bodies(items));
      ListedBody(inf, id, items, WorstPod(Bodies(items)).value);
    }
  }

  lemma FirstDeployIs(inf: Informer<Deployment>, id: string, items: seq<Obj<Deployment>>)
    requires ByIndex(inf, id, items)
    ensures DeployIs(inf, id, FirstBody(items))
  {
    ListedLength(inf, id, items);
    if items != [] {
      assert Bodies(items)[0] in Bodies(items);
      ListedBody(inf, id, items, items[0].body);
    }
  }

  lemma SubmitKeepsNewest(s: D.State, id: string, x: Inputs, other: string)
    requires DS.Inv(s)
    ensures var n := SubmitReport(s, id, x);
            && DS.Inv(n) && n.stopped == s.stopped
            && (id != other ==> forall t: nat, event | NewestEvent(s, other, t, event) :: NewestEvent(n, other, t, event))
            && (!s.stopped && EventOf(id, x).Some? ==> NewestEvent(n, id, |s.pool|, EventOf(id, x).value))
  {
    if EventOf(id, x).Some? {
      DS.SubmitKeepsInv(s, id, EventOf(id, x).value);
      var n := SubmitReport(s, id, x);
      assert forall u | 0 <= u < |s.pool| :: n.pool[u].id == s.pool[u].id && n.pool[u].event == s.pool[u].event;
    }
  }

  lemma HandledKeepsSubmitted(s: State, id: string, x: Inputs, other: string)
    requires DS.Inv(s.debouncer) && SubmittedOk(s, other)
    ensures DS.Inv(Handled(s, id, x).debouncer) && SubmittedOk(Handled(s, id, x), other)
  {
    var n := Handled(s, id, x);
    SubmitKeepsNewest(s.debouncer, id, x, other);
    if id != "" && id != other && other in s.last && EventOf(other, s.last[other]).Some? && !s.debouncer.stopped {
      var t: nat :| NewestEvent(s.debouncer, other, t, EventOf(other, s.last[other]).value);
      assert NewestEvent(n.debouncer, other, t, EventOf(other, n.last[other]).value);
    }
  }

  lemma HandleDeployKeepsInv(s: State, podItems: seq<Obj<Pod>>, id: string)
    requires Inv(s, id) && Enabled(s, HandleDeploy(podItems)) && id != ""
    ensures Inv(Next(s, HandleDeploy(podItems)), id)
  {
    var n := s.deploys.queue[0];
    var popped := s.(deploys := s.deploys.(queue := s.deploys.queue[1..]));
    LastForPopped(s.deploys.queue, id);
    HandledKeepsSubmitted(popped, n.obj.id, DeployInputs(n, podItems), id);
    if n.obj.id == id {
      WorstPodIs(s.pods, id, podItems);
      if Drained(popped, id) {
        assert LastFor(s.deploys.queue, id) == Some(n);
        assert n.Upsert? ==> n.obj.name in NamesOf(s.deploys.index, id);
      }
    }
  }

  lemma HandlePodKeepsInv(s: State, deployItems: seq<Obj<Deployment>>, podItems: seq<Obj<Pod>>, id: string)
    requires Inv(s, id) && Enabled(s, HandlePod(deployItems, podItems)) && id != ""
    ensures Inv(Next(s, HandlePod(deployItems, podItems)), id)
  {
    var n := s.pods.queue[0];
    var popped := s.(pods := s.pods.(queue := s.pods.queue[1..]));
    LastForPopped(s.pods.queue, id);
    HandledKeepsSubmitted(popped, n.obj.id, PodInputs(n, deployItems, podItems), id);
    if n.obj.id == id {
      FirstDeployIs(s.deploys, id, deployItems);
      WorstPodIs(s.pods, id, podItems);
      if Drained(popped, id) {
        assert LastFor(s.pods.queue, id) == Some(n);
      }
    }
  }

  lemma SubmissionStays(d: D.State, d': D.State, id: string, t: nat, event: StatusEvent)
    requires |d'.pool| == |d.pool| && NewestEvent(d, id, t, event)
    requires forall u | 0 <= u < |d.pool| :: d'.pool[u].id == d.pool[u].id && d'.pool[u].event == d.pool[u].event
    ensures NewestEvent(d', id, t, event)
  {
  }

  lemma DebounceKeepsInv(s: State, a: D.Action, id: string)
    requires Inv(s, id) && Enabled(s, Debounce(a))
    ensures Inv(Next(s, Debounce(a)), id)
  {
    DS.StepKeepsInv(s.debouncer, a);
    DS.SameTimers(s.debouncer, a);
    var s' := Next(s, Debounce(a));
    if id in s.last && EventOf(id, s.last[id]).Some? && !s'.debouncer.stopped {
      var t: nat :| NewestEvent(s.debouncer, id, t, EventOf(id, s.last[id]).value);
      SubmissionStays(s.debouncer, s'.debouncer, id, t, EventOf(id, s.last[id]).value);
    }
  }

  lemma StepKeepsInv(s: State, x: Action, id: string)
    requires Inv(s, id) && Enabled(s, x) && SingleDeployment(Next(s, x), id) && id != ""
    ensures Inv(Next(s, x), id)
  {
    match x {
      case WatchDeploy(dn) => WatchDeployKeepsInv(s, dn, id);
      case WatchPod(pn) => WatchPodKeepsInv(s, pn, id);
      case HandleDeploy(podItems) => HandleDeployKeepsInv(s, podItems, id);
      case HandlePod(deployItems, podItems) => HandlePodKeepsInv(s, deployItems, podItems, id);
      case Debounce(a) => DebounceKeepsInv(s, a, id);
    }
  }

  lemma InitHasInv(interval: nat, id: string)
    ensures Inv(Init(interval), id)
  {
    DS.RunKeepsInv(interval, []);
  }

  lemma {:induction false} RunKeepsInv(interval: nat, acts: seq<Action>, id: string)
    requires IsRun(interval, acts, id) && id != ""
    ensures Inv(After(interval, acts, id), id)
  {
    if acts == [] {
      InitHasInv(interval, id);
    } else {
      var n := |acts| - 1;
      RunKeepsInv(interval, acts[..n], id);
      StepKeepsInv(After(interval, acts[..n], id), acts[n], id);
    }
  }

  // ---- The theorem ----

  /** The only object of an instance in the index, if any. */
  ghost function FinalBody<T>(inf: Informer<T>, id: string): Option<T>
    requires |NamesOf(inf.index, id)| <= 1
  {
    if NamesOf(inf.index, id) == {} then None
    else var n :| n in NamesOf(inf.index, id); Some(inf.index[n].body)
  }

  lemma OnlyOne(names: set<string>, a: string, b: string)
    requires |names| <= 1 && a in names && b in names
    ensures a == b
  {
    assert |names - {a}| == 0;
  }

  /**
  In every run of the two watch streams in which the instance has at most one Deployment at any time and at
  most one pod at the end, once no notification is queued: if the instance was ever seen, its last handler
  call reconciled its final Deployment and its final pod, and, unless the debouncer was stopped or the pod's
  phase has no status, the latest event submitted for it says what these objects tell. An instance never
  seen has no objects.
  */
  lemma LastStatusIsFinal(interval: nat, acts: seq<Action>, id: string)
    requires IsRun(interval, acts, id) && id != ""
    requires var s := After(interval, acts, id);
             s.deploys.queue == [] && s.pods.queue == [] && |NamesOf(s.pods.index, id)| <= 1
    ensures var s := After(interval, acts, id);
            && SingleDeployment(s, id)
            && var final := Inputs(FinalBody(s.deploys, id), FinalBody(s.pods, id));
               && (id in s.last ==> s.last[id] == final)
               && (id !in s.last ==> final == Inputs(None, None))
               && (EventOf(id, final).Some? <==> Publishable(final.deploy, final.pod))
               && (id in s.last && Publishable(final.deploy, final.pod) && !s.debouncer.stopped ==>
                     && Tells(EventOf(id, final).value, id, final.deploy, final.pod)
                     && exists t: nat :: NewestEvent(s.debouncer, id, t, EventOf(id, final).value))
  {
    RunKeepsInv(interval, acts, id);
    var s := After(interval, acts, id);
    assert Drained(s, id);
    EventTellsObjects(id, Inputs(FinalBody(s.deploys, id), FinalBody(s.pods, id)));
    if id in s.last {
      var x := s.last[id];
      if x.deploy.Some? {
        var n :| n in NamesOf(s.deploys.index, id) && s.deploys.index[n].body == x.deploy.value;
        forall m | m in NamesOf(s.deploys.index, id) ensures m == n {
          OnlyOne(NamesOf(s.deploys.index, id), m, n);
        }
      }
      if x.pod.Some? {
        var n :| n in NamesOf(s.pods.index, id) && s.pods.index[n].body == x.pod.value;
        forall m | m in NamesOf(s.pods.index, id) ensures m == n {
          OnlyOne(NamesOf(s.pods.index, id), m, n);
        }
      }
    }
  }
}
