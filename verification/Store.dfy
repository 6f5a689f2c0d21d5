/**
The container store: Create and Delete as sequences of Kubernetes API calls, any of which may fail.

A `Proc` is an operation between two API calls. `Step` makes its next call against a cluster, with the
answer the API server gives in `Answer`: a failure (which has no effect), or a success with the name, the
time and the order of listing that the server chose. `RunOp` lets one operation run alone to its end; the
class `K8sContainerStore` at the end is the imperative form.
*/
module Store {
  import opened Wrappers
  import opened Status
  import opened Errors
  import opened Api
  import opened Kube
  import opened DcmLabels
  import opened Convert
  import opened RoundTrip

  datatype Cluster = Cluster(deployments: map<string, Deployment>, services: map<string, Service>, pods: map<string, Pod>)

  datatype Answer = Answer(fault: Option<ApiError>, name: string, time: int, order: seq<string>)

  datatype Outcome = Created(container: Container) | Removed | Failed(error: StoreError)

  datatype Proc =
    | CreateCheck(spec: ContainerSpec, id: string)
    | CreateDeploy(spec: ContainerSpec, id: string)
    | CreateSvc(spec: ContainerSpec, id: string, dep: string)
    | Rollback(id: string, dep: string, error: ApiError)
    | DeleteFind(id: string)
    | DeleteListServices(id: string, dep: string)
    | DeleteObjects(id: string, dep: string, rest: seq<string>)
    | Done(id: string, outcome: Outcome)

  // ---- The API server ----

  function DepsOf(c: Cluster, id: string): set<string> {
    set n | n in c.deployments && Selects(InstanceSelector(id), c.deployments[n].labels)
  }

  function SvcsOf(c: Cluster, id: string): set<string> {
    set n | n in c.services && Selects(InstanceSelector(id), c.services[n].labels)
  }

  ghost predicate Enumerates(order: seq<string>, names: set<string>) {
    && (forall n :: n in order <==> n in names)
    && (forall i, j | 0 <= i < j < |order| :: order[i] != order[j])
  }

  function AddDeployment(c: Cluster, d: Deployment, a: Answer): (Cluster, Option<ApiError>) {
    if a.fault.Some? then (c, a.fault)
    else if a.name in c.deployments then (c, Some(AlreadyExists))
    else (c.(deployments := c.deployments[a.name := d.(name := a.name, created := a.time)]), None)
  }

  function AddService(c: Cluster, s: Service, a: Answer): (Cluster, Option<ApiError>) {
    if a.fault.Some? then (c, a.fault)
    else if a.name in c.services then (c, Some(AlreadyExists))
    else (c.(services := c.services[a.name := s.(name := a.name)]), None)
  }

  function RemoveDeployment(c: Cluster, name: string, a: Answer): (Cluster, Option<ApiError>) {
    if a.fault.Some? then (c, a.fault)
    else if name !in c.deployments then (c, Some(NotFoundInCluster))
    else (c.(deployments := c.deployments - {name}), None)
  }

  function RemoveService(c: Cluster, name: string, a: Answer): (Cluster, Option<ApiError>) {
    if a.fault.Some? then (c, a.fault)
    else if name !in c.services then (c, Some(NotFoundInCluster))
    else (c.(services := c.services - {name}), None)
  }

  // ---- The operations ----

  function NewContainerResult(spec: ContainerSpec, id: string, cfg: K8sConfig, now: int): Container {
    var stamped := spec.(metadata := spec.metadata.(namespace := Some(cfg.namespace)));
    Container(id, "containers/" + id, None, stamped, Some(PENDING), now, Some(now))
  }

  function CreateDeployError(e: ApiError): StoreError {
    if e.AlreadyExists? then Conflict(DuplicateName) else Api(e)
  }

  ghost function OnlyName(names: set<string>): string
    requires |names| == 1
  {
    var n :| n in names; n
  }

  ghost function Step(cfg: K8sConfig, c: Cluster, p: Proc, a: Answer): (Cluster, Proc)
    requires !p.Done?
  {
    match p
    case CreateCheck(spec, id) =>
      (c, if a.fault.Some? then Done(id, Failed(Api(a.fault.value)))
          else if DepsOf(c, id) != {} then Done(id, Failed(Conflict(DuplicateId)))
          else CreateDeploy(spec, id))
    case CreateDeploy(spec, id) =>
      var (c', err) := AddDeployment(c, BuildDeployment(spec, id, cfg, CreateLabels(spec, id)), a);
      (c', if err.Some? then Done(id, Failed(CreateDeployError(err.value)))
           else if Exposed(PortsOf(spec)) == [] then Done(id, Created(NewContainerResult(spec, id, cfg, a.time)))
           else CreateSvc(spec, id, a.name))
    case CreateSvc(spec, id, dep) =>
      var (c', err) := AddService(c, ServiceFor(spec, id, cfg, CreateLabels(spec, id)), a);
      (c', if err.Some? then Rollback(id, dep, err.value)
           else Done(id, Created(NewContainerResult(spec, id, cfg, a.time))))
    case Rollback(id, dep, error) =>
      (RemoveDeployment(c, dep, a).0, Done(id, Failed(Api(error))))
    case DeleteFind(id) =>
      (c, if a.fault.Some? then Done(id, Failed(Api(a.fault.value)))
          else if |DepsOf(c, id)| == 0 then Done(id, Failed(NotFound(id)))
          else if |DepsOf(c, id)| > 1 then Done(id, Failed(Conflict(ManyDeployments)))
          else DeleteListServices(id, OnlyName(DepsOf(c, id))))
    case DeleteListServices(id, dep) =>
      (c, if a.fault.Some? then Done(id, Failed(Api(a.fault.value)))
          else if !Enumerates(a.order, SvcsOf(c, id)) then Done(id, Failed(Api(Unavailable(0))))
          else DeleteObjects(id, dep, a.order))
    case DeleteObjects(id, dep, rest) =>
      if rest != [] then
        var (c', err) := RemoveService(c, rest[0], a);
        (c', if err.Some? then Done(id, Failed(Api(err.value))) else DeleteObjects(id, dep, rest[1..]))
      else
        var (c', err) := RemoveDeployment(c, dep, a);
        (c', if err.Some? then Done(id, Failed(Api(err.value))) else Done(id, Removed))
  }

  function Stage(p: Proc): nat {
    match p
    case CreateCheck(_, _) => 4
    case CreateDeploy(_, _) => 3
    case CreateSvc(_, _, _) => 2
    case Rollback(_, _, _) => 1
    case DeleteFind(_) => 3
    case DeleteListServices(_, _) => 2
    case DeleteObjects(_, _, _) => 1
    case Done(_, _) => 0
  }

  function Remaining(p: Proc): nat {
    if p.DeleteObjects? then |p.rest| else 0
  }

  /** One operation alone, from its k-th API call on. */
  ghost function RunOp(cfg: K8sConfig, c: Cluster, p: Proc, answers: nat -> Answer, k: nat): (Cluster, Outcome)
    decreases Stage(p), Remaining(p)
  {
    if p.Done? then (c, p.outcome)
    else var (c', p') := Step(cfg, c, p, answers(k)); RunOp(cfg, c', p', answers, k + 1)
  }

  lemma OneCall(cfg: K8sConfig, c: Cluster, p: Proc, answers: nat -> Answer, k: nat)
    requires !p.Done?
    ensures var (c', p') := Step(cfg, c, p, answers(k));
            RunOp(cfg, c, p, answers, k) == if p'.Done? then (c', p'.outcome) else RunOp(cfg, c', p', answers, k + 1)
  {
  }

  // ---- Reading ----

  function PodsOf(c: Cluster, id: string): set<string> {
    set n | n in c.pods && Selects(InstanceSelector(id), c.pods[n].labels)
  }

  predicate IsRollingUpdate(d: Deployment) {
    (d.replicas.Some? && d.updatedReplicas != d.replicas.value) || d.unavailableReplicas > 0
  }

  /** The first running pod of a listing. */
  function FirstRunning(pods: seq<Pod>): Option<Pod> {
    if pods == [] then None
    else if pods[0].phase.PodRunning? then Some(pods[0])
    else FirstRunning(pods[1..])
  }

  function Newest(pods: seq<Pod>): Pod
    requires pods != []
  {
    var n := |pods| - 1;
    if n == 0 then pods[0]
    else if pods[n].created > Newest(pods[..n]).created then pods[n]
    else Newest(pods[..n])
  }

  function ActivePod(pods: seq<Pod>): Pod
    requires pods != []
  {
    if FirstRunning(pods).Some? then FirstRunning(pods).value else Newest(pods)
  }

  /** Pod i is the first running one or, when none runs, the first of the latest created ones. */
  ghost predicate ActiveAt(pods: seq<Pod>, i: int) {
    && 0 <= i < |pods|
    && if exists k :: 0 <= k < |pods| && pods[k].phase == PodRunning then
         pods[i].phase == PodRunning && forall k | 0 <= k < i :: pods[k].phase != PodRunning
       else
         && (forall k | 0 <= k < |pods| :: pods[k].created <= pods[i].created)
         && (forall k | 0 <= k < i :: pods[k].created < pods[i].created)
  }

  method SelectActivePod(pods: seq<Pod>) returns (r: Pod)
    requires pods != []
    ensures r == ActivePod(pods)
    ensures exists i :: ActiveAt(pods, i) && pods[i] == r
  {
    for i := 0 to |pods|
      invariant forall k | 0 <= k < i :: !pods[k].phase.PodRunning?
      invariant FirstRunning(pods) == FirstRunning(pods[i..])
    {
      assert pods[i..][1..] == pods[i + 1..];
      if pods[i].phase.PodRunning? {
        assert ActiveAt(pods, i);
        return pods[i];
      }
    }
    var newest := pods[0];
    ghost var at := 0;
    for i := 1 to |pods|
      invariant 0 <= at < i && newest == pods[at] == Newest(pods[..i])
      invariant forall k | 0 <= k < i :: pods[k].created <= newest.created
      invariant forall k | 0 <= k < at :: pods[k].created < newest.created
    {
      assert pods[..i + 1][..i] == pods[..i];
      if pods[i].created > newest.created {
        newest, at := pods[i], i;
      }
    }
    assert pods[..|pods|] == pods;
    assert ActiveAt(pods, at);
    r := newest;
  }

  lemma {:induction false} FirstRunningAt(pods: seq<Pod>) returns (i: nat)
    requires FirstRunning(pods).Some?
    ensures i < |pods| && pods[i] == FirstRunning(pods).value && pods[i].phase == PodRunning
    ensures forall k | 0 <= k < i :: pods[k].phase != PodRunning
  {
    if pods[0].phase.PodRunning? {
      i := 0;
    } else {
      var j := FirstRunningAt(pods[1..]);
      i := j + 1;
      assert forall k | 1 <= k < |pods| :: pods[k] == pods[1..][k - 1];
    }
  }

  lemma {:induction false} NoneRunning(pods: seq<Pod>)
    requires FirstRunning(pods).None?
    ensures forall k | 0 <= k < |pods| :: pods[k].phase != PodRunning
  {
    if pods != [] {
      NoneRunning(pods[1..]);
      assert forall k | 1 <= k < |pods| :: pods[k] == pods[1..][k - 1];
    }
  }

  lemma {:induction false} NewestAt(pods: seq<Pod>) returns (i: nat)
    requires pods != []
    ensures i < |pods| && pods[i] == Newest(pods)
    ensures forall k | 0 <= k < |pods| :: pods[k].created <= pods[i].created
    ensures forall k | 0 <= k < i :: pods[k].created < pods[i].created
  {
    var n := |pods| - 1;
    if n == 0 {
      i := 0;
    } else {
      i := NewestAt(pods[..n]);
      assert forall k | 0 <= k < n :: pods[k] == pods[..n][k];
      if pods[n].created > Newest(pods[..n]).created {
        i := n;
      }
    }
  }

  lemma ActivePodAt(pods: seq<Pod>) returns (i: nat)
    requires pods != []
    ensures ActiveAt(pods, i) && pods[i] == ActivePod(pods)
  {
    if FirstRunning(pods).Some? {
      i := FirstRunningAt(pods);
    } else {
      NoneRunning(pods);
      i := NewestAt(pods);
    }
  }

  /** A listing of the named objects: each once, in the order the server chose. */
  ghost predicate Lists<T>(objects: map<string, T>, names: set<string>, items: seq<T>) {
    exists order :: ListedIn(objects, names, items, order)
  }

  ghost predicate ListedIn<T>(objects: map<string, T>, names: set<string>, items: seq<T>, order: seq<string>) {
    && Enumerates(order, names) && |items| == |order|
    && forall i | 0 <= i < |items| :: order[i] in objects && items[i] == objects[order[i]]
  }

  /** Adds what the cluster knows about a container's pods and Service, given listings of both. */
  function Enrich(c: Container, d: Deployment, pods: seq<Pod>, svcs: seq<Service>): Result<Container, StoreError> {
    if |pods| > 1 && !(|pods| == 2 && IsRollingUpdate(d)) then Err(Conflict(ManyPods))
    else
      var c' := if |pods| == 0 then EnrichWithoutPod(c, d)
                else if |pods| == 1 then EnrichWithPod(c, pods[0])
                else EnrichWithPod(c, ActivePod(pods));
      Ok(if |svcs| == 1 then EnrichWithService(c', svcs[0]) else c')
  }

  function BuildContainer(d: Deployment, id: string, pods: seq<Pod>, svcs: seq<Service>): Result<Container, StoreError> {
    Enrich(ContainerFromDeployment(d, id), d, pods, svcs)
  }

  /** Get, given listings of the ID's pods and Services. */
  ghost function Get(c: Cluster, id: string, pods: seq<Pod>, svcs: seq<Service>): Result<Container, StoreError> {
    if |DepsOf(c, id)| == 0 then Err(NotFound(id))
    else if |DepsOf(c, id)| > 1 then Err(Conflict(ManyDeployments))
    else BuildContainer(c.deployments[OnlyName(DepsOf(c, id))], id, pods, svcs)
  }

  // ---- The imperative form ----

  class ApiServer {
    var deployments: map<string, Deployment>
    var services: map<string, Service>
    var pods: map<string, Pod>

    ghost function View(): Cluster
      reads this
    {
      Cluster(deployments, services, pods)
    }

    constructor ()
      ensures View() == Cluster(map[], map[], map[])
    {
      deployments, services, pods := map[], map[], map[];
    }

    method ListDeployments(id: string, a: Answer) returns (r: Result<set<string>, ApiError>)
      ensures r == if a.fault.Some? then Err(a.fault.value) else Ok(DepsOf(View(), id))
    {
      if a.fault.Some? {
        return Err(a.fault.value);
      }
      r := Ok(set n | n in deployments && Selects(InstanceSelector(id), deployments[n].labels));
    }

    method ListServices(id: string, a: Answer) returns (r: Result<seq<string>, ApiError>)
      ensures r == if a.fault.Some? then Err(a.fault.value)
                   else if Enumerates(a.order, SvcsOf(View(), id)) then Ok(a.order)
                   else Err(Unavailable(0))
    {
      if a.fault.Some? {
        return Err(a.fault.value);
      }
      var names := set n | n in services && Selects(InstanceSelector(id), services[n].labels);
      var listed := (set n | n in a.order) == names;
      var distinct := forall i, j | 0 <= i < j < |a.order| :: a.order[i] != a.order[j];
      assert listed <==> forall n :: n in a.order <==> n in names by {
        assert forall n :: n in a.order <==> n in (set m | m in a.order);
      }
      r := if listed && distinct then Ok(a.order) else Err(Unavailable(0));
    }

    method CreateDeployment(d: Deployment, a: Answer) returns (err: Option<ApiError>)
      modifies this
      ensures (View(), err) == AddDeployment(old(View()), d, a)
    {
      if a.fault.Some? {
        return a.fault;
      }
      if a.name in deployments {
        return Some(AlreadyExists);
      }
      deployments := deployments[a.name := d.(name := a.name, created := a.time)];
      err := None;
    }

    method CreateService(s: Service, a: Answer) returns (err: Option<ApiError>)
      modifies this
      ensures (View(), err) == AddService(old(View()), s, a)
    {
      if a.fault.Some? {
        return a.fault;
      }
      if a.name in services {
        return Some(AlreadyExists);
      }
      services := services[a.name := s.(name := a.name)];
      err := None;
    }

    method DeleteDeployment(name: string, a: Answer) returns (err: Option<ApiError>)
      modifies this
      ensures (View(), err) == RemoveDeployment(old(View()), name, a)
    {
      if a.fault.Some? {
        return a.fault;
      }
      if name !in deployments {
        return Some(NotFoundInCluster);
      }
      deployments := deployments - {name};
      err := None;
    }

    method DeleteService(name: string, a: Answer) returns (err: Option<ApiError>)
      modifies this
      ensures (View(), err) == RemoveService(old(View()), name, a)
    {
      if a.fault.Some? {
        return a.fault;
      }
      if name !in services {
        return Some(NotFoundInCluster);
      }
      services := services - {name};
      err := None;
    }
  }

  class K8sContainerStore {
    const cfg: K8sConfig
    const api: ApiServer

    constructor (cfg: K8sConfig, api: ApiServer)
      ensures this.cfg == cfg && this.api == api
    {
      this.cfg, this.api := cfg, api;
    }

    method Create(spec: ContainerSpec, id: string, answers: nat -> Answer) returns (r: Outcome)
      modifies api
      ensures (api.View(), r) == RunOp(cfg, old(api.View()), CreateCheck(spec, id), answers, 0)
    {
      ghost var all := RunOp(cfg, api.View(), CreateCheck(spec, id), answers, 0);
      ghost var p := CreateCheck(spec, id);
      var labels := BaseLabels(id);
      if spec.metadata.labels.Some? {
        labels := Merge(labels, spec.metadata.labels.value);
      }
      var existing := api.ListDeployments(id, answers(0));
      OneCall(cfg, api.View(), p, answers, 0);
      if existing.Err? {
        return Failed(Api(existing.error));
      }
      if existing.value != {} {
        return Failed(Conflict(DuplicateId));
      }
      p := CreateDeploy(spec, id);
      var servicePorts := PortsWithVisibility(spec);
      var deploy := BuildDeployment(spec, id, cfg, labels);
      OneCall(cfg, api.View(), p, answers, 1);
      var err := api.CreateDeployment(deploy, answers(1));
      if err.Some? {
        return Failed(CreateDeployError(err.value));
      }
      var now := answers(1).time;
      if |servicePorts| > 0 {
        p := CreateSvc(spec, id, answers(1).name);
        assert all == RunOp(cfg, api.View(), p, answers, 2);
        var svc := BuildService(spec, id, cfg, labels, ResolveServiceType(cfg, servicePorts), servicePorts);
        OneCall(cfg, api.View(), p, answers, 2);
        err := api.CreateService(svc, answers(2));
        if err.Some? {
          p := Rollback(id, answers(1).name, err.value);
          assert all == RunOp(cfg, api.View(), p, answers, 3);
          OneCall(cfg, api.View(), p, answers, 3);
          var _ := api.DeleteDeployment(answers(1).name, answers(3));
          return Failed(Api(err.value));
        }
        now := answers(2).time;
      }
      r := Created(NewContainerResult(spec, id, cfg, now));
    }

    method Delete(id: string, answers: nat -> Answer) returns (r: Outcome)
      modifies api
      ensures (api.View(), r) == RunOp(cfg, old(api.View()), DeleteFind(id), answers, 0)
    {
      ghost var all := RunOp(cfg, api.View(), DeleteFind(id), answers, 0);
      var found := api.ListDeployments(id, answers(0));
      OneCall(cfg, api.View(), DeleteFind(id), answers, 0);
      if found.Err? {
        return Failed(Api(found.error));
      }
      if |found.value| == 0 {
        return Failed(NotFound(id));
      }
      if |found.value| > 1 {
        return Failed(Conflict(ManyDeployments));
      }
      var dep :| dep in found.value;
      assert dep == OnlyName(found.value) by {
        assert found.value == {dep} by { assert |found.value - {dep}| == 0; }
      }
      OneCall(cfg, api.View(), DeleteListServices(id, dep), answers, 1);
      var svcs := api.ListServices(id, answers(1));
      if svcs.Err? {
        return Failed(Api(svcs.error));
      }
      var items := svcs.value;
      var i := 0;
      while i < |items|
        invariant 0 <= i <= |items|
        invariant all == RunOp(cfg, api.View(), DeleteObjects(id, dep, items[i..]), answers, 2 + i)
      {
        OneCall(cfg, api.View(), DeleteObjects(id, dep, items[i..]), answers, 2 + i);
        var err := api.DeleteService(items[i], answers(2 + i));
        if err.Some? {
          return Failed(Api(err.value));
        }
        assert items[i..][1..] == items[i + 1..];
        i := i + 1;
      }
      OneCall(cfg, api.View(), DeleteObjects(id, dep, items[i..]), answers, 2 + i);
      var err := api.DeleteDeployment(dep, answers(2 + i));
      if err.Some? {
        return Failed(Api(err.value));
      }
      r := Removed;
    }
  }
}
