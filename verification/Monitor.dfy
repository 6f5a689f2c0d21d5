/**
The status monitor: two watch streams, of Deployments and of pods, whose handlers reconcile an instance's
status and submit it to the debouncer.

Each stream has an index, updated when a watch event arrives, and a queue of notifications for the
handlers, so the index may run ahead of the handlers. A handler takes the first notification, reads the
index of the other stream (and, after a pod's deletion, of its own), and submits. An index lookup returns
the matching objects in an arbitrary order.
*/
module Monitor {
  import opened Wrappers
  import opened Status
  import opened Kube
  import opened Reconcile
  import D = Debouncer

  /** An object in a watch stream, with the instance ID its labels carry. */
  datatype Obj<+T> = Obj(name: string, id: string, body: T)

  datatype Notice<+T> = Upsert(obj: Obj<T>) | Deleted(obj: Obj<T>)

  datatype Informer<T> = Informer(index: map<string, Obj<T>>, queue: seq<Notice<T>>)

  /** What one handler call reconciled. */
  datatype Inputs = Inputs(deploy: Option<Deployment>, pod: Option<Pod>)

  datatype State = State(
    deploys: Informer<Deployment>,
    pods: Informer<Pod>,
    debouncer: D.State,
    last: map<string, Inputs>)  // for each instance, its latest handler call

  datatype Action =
    | WatchDeploy(dn: Notice<Deployment>)
    | WatchPod(pn: Notice<Pod>)
    | HandleDeploy(podItems: seq<Obj<Pod>>)
    | HandlePod(deployItems: seq<Obj<Deployment>>, podItems: seq<Obj<Pod>>)
    | Debounce(a: D.Action)

  // ---- Informers ----

  function NamesOf<T>(index: map<string, Obj<T>>, id: string): set<string> {
    set n | n in index && index[n].id == id
  }

  /** An object keeps its instance ID while it exists; a name can be reused after a deletion. */
  predicate WatchOk<T>(inf: Informer<T>, n: Notice<T>) {
    match n
    case Upsert(o) => o.name in inf.index ==> inf.index[o.name].id == o.id
    case Deleted(o) => o.name in inf.index && inf.index[o.name].id == o.id
  }

  function Watched<T>(inf: Informer<T>, n: Notice<T>): Informer<T> {
    Informer(if n.Upsert? then inf.index[n.obj.name := n.obj] else inf.index - {n.obj.name}, inf.queue + [n])
  }

  ghost predicate ByIndex<T>(inf: Informer<T>, id: string, items: seq<Obj<T>>) {
    Store.Lists(inf.index, NamesOf(inf.index, id), items)
  }

  function Bodies<T>(items: seq<Obj<T>>): seq<T> {
    seq(|items|, i requires 0 <= i < |items| => items[i].body)
  }

  function FirstBody<T>(items: seq<Obj<T>>): Option<T> {
    if items == [] then None else Some(items[0].body)
  }

  // ---- Handlers ----

  function EventOf(id: string, x: Inputs): Option<StatusEvent> {
    match ReconcileStatus(x.deploy, x.pod)
    case None => None
    case Some(r) => Some(StatusEvent(id, r.status, r.message))
  }

  /** The event is about the instance and says what its objects tell. */
  ghost predicate Tells(event: StatusEvent, id: string, deploy: Option<Deployment>, pod: Option<Pod>) {
    event.instanceId == id && TellsStatus(event.status, deploy, pod) && TellsMessage(event.message, deploy, pod)
  }

  lemma EventTellsObjects(id: string, x: Inputs)
    ensures EventOf(id, x).Some? <==> Publishable(x.deploy, x.pod)
    ensures EventOf(id, x).Some? ==> Tells(EventOf(id, x).value, id, x.deploy, x.pod)
  {
    ReportTellsObjects(x.deploy, x.pod);
  }

  /** A publishable report is newly armed for the instance, under its ID; anything else changes nothing. */
  ghost predicate SubmitsReport(before: D.State, after: D.State, id: string, deploy: Option<Deployment>, pod: Option<Pod>) {
    if before.stopped || !Publishable(deploy, pod) then after == before
    else
      var t := |before.pool|;
      && |after.pool| == t + 1 && after.timers == before.timers[id := t] && after.calls == before.calls
      && after.pool[t].id == id && after.pool[t].phase == D.Armed(before.now + before.interval)
      && Tells(after.pool[t].event, id, deploy, pod)
  }

  function SubmitReport(s: D.State, id: string, x: Inputs): D.State {
    match EventOf(id, x)
    case None => s
    case Some(event) => D.Submitted(s, id, event)
  }

  function DeployInputs(n: Notice<Deployment>, podItems: seq<Obj<Pod>>): Inputs {
    Inputs(if n.Upsert? then Some(n.obj.body) else None, WorstPod(Bodies(podItems)))
  }

  function PodInputs(n: Notice<Pod>, deployItems: seq<Obj<Deployment>>, podItems: seq<Obj<Pod>>): Inputs {
    Inputs(FirstBody(deployItems), if n.Upsert? then Some(n.obj.body) else WorstPod(Bodies(podItems)))
  }

  function Handled(s: State, id: string, x: Inputs): State {
    if id == "" then s else s.(debouncer := SubmitReport(s.debouncer, id, x), last := s.last[id := x])
  }

  // ---- Runs ----

  ghost predicate Enabled(s: State, x: Action) {
    match x
    case WatchDeploy(n) => WatchOk(s.deploys, n)
    case WatchPod(n) => WatchOk(s.pods, n)
    case HandleDeploy(podItems) => s.deploys.queue != [] && ByIndex(s.pods, s.deploys.queue[0].obj.id, podItems)
    case HandlePod(deployItems, podItems) =>
      s.pods.queue != [] && ByIndex(s.deploys, s.pods.queue[0].obj.id, deployItems)
      && ByIndex(s.pods, s.pods.queue[0].obj.id, podItems)
    case Debounce(a) => !a.Submit? && D.Enabled(s.debouncer, a)
  }

  ghost function Next(s: State, x: Action): State
    requires Enabled(s, x)
  {
    match x
    case WatchDeploy(n) => s.(deploys := Watched(s.deploys, n))
    case WatchPod(n) => s.(pods := Watched(s.pods, n))
    case HandleDeploy(podItems) =>
      var n := s.deploys.queue[0];
      Handled(s.(deploys := s.deploys.(queue := s.deploys.queue[1..])), n.obj.id, DeployInputs(n, podItems))
    case HandlePod(deployItems, podItems) =>
      var n := s.pods.queue[0];
      Handled(s.(pods := s.pods.(queue := s.pods.queue[1..])), n.obj.id, PodInputs(n, deployItems, podItems))
    case Debounce(a) => s.(debouncer := D.Next(s.debouncer, a))
  }

  function Init(interval: nat): State {
    State(Informer(map[], []), Informer(map[], []), D.Init(interval), map[])
  }

  /** At most one Deployment carries the instance ID. */
  predicate SingleDeployment(s: State, id: string) {
    |NamesOf(s.deploys.index, id)| <= 1
  }

  /** A run in every state of which `id` has at most one Deployment. */
  ghost predicate IsRun(interval: nat, acts: seq<Action>, id: string)
    decreases |acts|, 0
  {
    acts == [] ||
    (var n := |acts| - 1;
     && IsRun(interval, acts[..n], id)
     && Enabled(After(interval, acts[..n], id), acts[n])
     && SingleDeployment(Next(After(interval, acts[..n], id), acts[n]), id))
  }

  ghost function After(interval: nat, acts: seq<Action>, id: string): State
    requires IsRun(interval, acts, id)
    decreases |acts|, 1
  {
    if acts == [] then Init(interval) else var n := |acts| - 1; Next(After(interval, acts[..n], id), acts[n])
  }

  // ---- The imperative handlers ----

  class StatusMonitor {
    const debouncer: D.Debouncer

    constructor (debouncer: D.Debouncer)
      ensures this.debouncer == debouncer
    {
      this.debouncer := debouncer;
    }

    method ReconcileAndSubmit(id: string, deploy: Option<Deployment>, pod: Option<Pod>)
      modifies debouncer
      ensures debouncer.View() == SubmitReport(old(debouncer.View()), id, Inputs(deploy, pod))
      ensures SubmitsReport(old(debouncer.View()), debouncer.View(), id, deploy, pod)
    {
      EventTellsObjects(id, Inputs(deploy, pod));
      var report := ReconcileStatus(deploy, pod);
      if report.Some? {
        debouncer.Submit(id, StatusEvent(id, report.value.status, report.value.message));
      }
    }

    method HandleDeployNotice(n: Notice<Deployment>, podItems: seq<Obj<Pod>>)
      modifies debouncer
      ensures debouncer.View() ==
              if n.obj.id == "" then old(debouncer.View())
              else SubmitReport(old(debouncer.View()), n.obj.id, DeployInputs(n, podItems))
      ensures var deploy := if n.Upsert? then Some(n.obj.body) else None;
              n.obj.id != "" ==>
                if podItems == [] then SubmitsReport(old(debouncer.View()), debouncer.View(), n.obj.id, deploy, None)
                else exists i :: FirstWorst(Bodies(podItems), i)
                       && SubmitsReport(old(debouncer.View()), debouncer.View(), n.obj.id, deploy, Some(podItems[i].body))
    {
      if n.obj.id == "" {
        return;
      }
      var pod := LookupPod(Bodies(podItems));
      ReconcileAndSubmit(n.obj.id, if n.Upsert? then Some(n.obj.body) else None, pod);
    }

    method HandlePodNotice(n: Notice<Pod>, deployItems: seq<Obj<Deployment>>, podItems: seq<Obj<Pod>>)
      modifies debouncer
      ensures debouncer.View() ==
              if n.obj.id == "" then old(debouncer.View())
              else SubmitReport(old(debouncer.View()), n.obj.id, PodInputs(n, deployItems, podItems))
      ensures var deploy := if deployItems == [] then None else Some(deployItems[0].body);
              n.obj.id != "" ==>
                if n.Upsert? then
                  SubmitsReport(old(debouncer.View()), debouncer.View(), n.obj.id, deploy, Some(n.obj.body))
                else if podItems == [] then
                  SubmitsReport(old(debouncer.View()), debouncer.View(), n.obj.id, deploy, None)
                else exists i :: FirstWorst(Bodies(podItems), i)
                       && SubmitsReport(old(debouncer.View()), debouncer.View(), n.obj.id, deploy, Some(podItems[i].body))
    {
      if n.obj.id == "" {
        return;
      }
      var deploy := FirstBody(deployItems);
      if n.Upsert? {
        ReconcileAndSubmit(n.obj.id, deploy, Some(n.obj.body));
      } else {
        var pod := LookupPod(Bodies(podItems));
        ReconcileAndSubmit(n.obj.id, deploy, pod);
      }
    }
  }
}
