/**
What Create and Delete guarantee when they run without another call on the same ID in between: Create is
all or nothing, Delete is complete, touches nothing else, and can be resumed after any failure.
*/
module StoreOperations {
  import opened Wrappers
  import opened Status
  import opened Errors
  import opened Api
  import opened Kube
  import opened DcmLabels
  import opened Convert
  import opened RoundTrip
  import opened Store

  function StoredDeployment(cfg: K8sConfig, spec: ContainerSpec, id: string, a: Answer): Deployment {
    BuildDeployment(spec, id, cfg, CreateLabels(spec, id)).(name := a.name, created := a.time)
  }

  function StoredService(cfg: K8sConfig, spec: ContainerSpec, id: string, a: Answer): Service {
    ServiceFor(spec, id, cfg, CreateLabels(spec, id)).(name := a.name)
  }

  predicate NeedsService(spec: ContainerSpec) {
    exists i :: 0 <= i < |PortsOf(spec)| && !PortsOf(spec)[i].visibility.Unexposed?
  }

  lemma NeedsServiceIff(spec: ContainerSpec)
    ensures NeedsService(spec) <==> Exposed(PortsOf(spec)) != []
  {
    var ports := PortsOf(spec);
    ExposedAre(ports);
    if NeedsService(spec) {
      var i :| 0 <= i < |ports| && !ports[i].visibility.Unexposed?;
      assert ports[i] in Exposed(ports);
    }
    if Exposed(ports) != [] {
      assert Exposed(ports)[0] in ports;
    }
  }

  /** How a Create that passed the duplicate check ends, call by call. */
  lemma CreateUnfolded(cfg: K8sConfig, c: Cluster, spec: ContainerSpec, id: string, answers: nat -> Answer)
    requires answers(0).fault.None? && DepsOf(c, id) == {}
    ensures var (c', r) := RunOp(cfg, c, CreateCheck(spec, id), answers, 0);
            var (c1, e1) := AddDeployment(c, BuildDeployment(spec, id, cfg, CreateLabels(spec, id)), answers(1));
            var (c2, e2) := AddService(c1, ServiceFor(spec, id, cfg, CreateLabels(spec, id)), answers(2));
            if e1.Some? then (c', r) == (c, Failed(CreateDeployError(e1.value)))
            else if Exposed(PortsOf(spec)) == [] then
              (c', r) == (c1, Created(NewContainerResult(spec, id, cfg, answers(1).time)))
            else if e2.None? then (c', r) == (c2, Created(NewContainerResult(spec, id, cfg, answers(2).time)))
            else (c', r) == (RemoveDeployment(c1, answers(1).name, answers(3)).0, Failed(Api(e2.value)))
  {
    var (c1, e1) := AddDeployment(c, BuildDeployment(spec, id, cfg, CreateLabels(spec, id)), answers(1));
    OneCall(cfg, c, CreateCheck(spec, id), answers, 0);
    OneCall(cfg, c, CreateDeploy(spec, id), answers, 1);
    if e1.None? && Exposed(PortsOf(spec)) != [] {
      OneCall(cfg, c1, CreateSvc(spec, id, answers(1).name), answers, 2);
      var e2 := AddService(c1, ServiceFor(spec, id, cfg, CreateLabels(spec, id)), answers(2)).1;
      if e2.Some? {
        OneCall(cfg, c1, Rollback(id, answers(1).name, e2.value), answers, 3);
      }
    }
  }

  /** The effect of a successful Create: one new Deployment, and one new Service iff some port is exposed. */
  ghost predicate CreateEffect(cfg: K8sConfig, c: Cluster, c': Cluster, spec: ContainerSpec, id: string,
                               answers: nat -> Answer) {
    var d, s := StoredDeployment(cfg, spec, id, answers(1)), StoredService(cfg, spec, id, answers(2));
    && c'.pods == c.pods
    && d.name !in c.deployments && c'.deployments == c.deployments[d.name := d]
    && (if NeedsService(spec) then s.name !in c.services && c'.services == c.services[s.name := s]
        else c'.services == c.services)
  }

  /** What a failed rollback leaves: the one Deployment this Create made, without its Service. */
  ghost predicate Stranded(cfg: K8sConfig, c: Cluster, c': Cluster, spec: ContainerSpec, id: string,
                           answers: nat -> Answer) {
    var d := StoredDeployment(cfg, spec, id, answers(1));
    && NeedsService(spec) && answers(3).fault.Some?
    && d.name !in c.deployments && c' == c.(deployments := c.deployments[d.name := d])
  }

  lemma UndoAdd(c: Cluster, d: Deployment, a: Answer, undo: Answer)
    requires AddDeployment(c, d, a).1.None?
    ensures RemoveDeployment(AddDeployment(c, d, a).0, a.name, undo).0 ==
            if undo.fault.Some? then AddDeployment(c, d, a).0 else c
  {
    var m := c.deployments[a.name := d.(name := a.name, created := a.time)];
    assert m - {a.name} == c.deployments;
  }

  /**
  Create is all or nothing. On success exactly one Deployment is new, under a fresh name, together with
  exactly one new Service if and only if some port is exposed. On an error nothing changed, except that
  when the rollback's own call failed precisely the one Deployment this call created remains.
  */
  lemma CreateIsAllOrNothing(cfg: K8sConfig, c: Cluster, spec: ContainerSpec, id: string, answers: nat -> Answer)
    ensures var (c', r) := RunOp(cfg, c, CreateCheck(spec, id), answers, 0);
            && !r.Removed?
            && (r.Created? ==> DepsOf(c, id) == {} && CreateEffect(cfg, c, c', spec, id, answers))
            && (r.Failed? ==> c' == c || (DepsOf(c, id) == {} && Stranded(cfg, c, c', spec, id, answers)))
  {
    NeedsServiceIff(spec);
    if answers(0).fault.None? && DepsOf(c, id) == {} {
      CreateUnfolded(cfg, c, spec, id, answers);
      var d := BuildDeployment(spec, id, cfg, CreateLabels(spec, id));
      if AddDeployment(c, d, answers(1)).1.None? {
        UndoAdd(c, d, answers(1), answers(3));
      }
    } else {
      OneCall(cfg, c, CreateCheck(spec, id), answers, 0);
    }
  }

  // ---- What Create makes, field by field ----

  function UserLabelsOf(spec: ContainerSpec): Labels {
    if spec.metadata.labels.Some? then spec.metadata.labels.value else map[]
  }

  /** A memory bound is stored as what its string converts to, or as zero when it does not convert. */
  ghost predicate StoresMemory(stored: Option<nat>, text: string) {
    stored.Some? &&
    match Units.ConvertMemory(text)
    case Ok(b) => stored.value == b
    case Err(_) => stored.value == 0
  }

  ghost predicate StoresList<T>(stored: seq<T>, given: Option<seq<T>>) {
    if given.Some? then stored == given.value else stored == []
  }

  ghost predicate StoresProcess(c: PodContainer, p: Option<Process>) {
    if p.None? then c.command == [] && c.args == [] && c.env == []
    else StoresList(c.command, p.value.command) && StoresList(c.args, p.value.args) && StoresList(c.env, p.value.env)
  }

  ghost predicate StoresContainer(c: PodContainer, spec: ContainerSpec) {
    && c.name == spec.metadata.name && c.image == spec.image
    && c.cpuRequest == Some(spec.resources.cpuMin) && c.cpuLimit == Some(spec.resources.cpuMax)
    && StoresMemory(c.memoryRequest, spec.resources.memoryMin) && StoresMemory(c.memoryLimit, spec.resources.memoryMax)
    && StoresProcess(c, spec.process)
    && |c.ports| == |PortsOf(spec)|
    && forall i | 0 <= i < |c.ports| :: c.ports[i] == ToInt32(PortsOf(spec)[i].number)
  }

  /** One replica of the spec's container, in the configured namespace, under the provider's and the user's labels. */
  ghost predicate IsDeploymentFor(d: Deployment, spec: ContainerSpec, id: string, cfg: K8sConfig) {
    && d.replicas == Some(1) && d.namespace == cfg.namespace && d.generateName == spec.metadata.name + "-"
    && Stamped(d.labels, id, UserLabelsOf(spec)) && Stamped(d.podLabels, id, UserLabelsOf(spec))
    && Stamped(d.selector, id, map[])
    && StoresContainer(d.container, spec)
  }

  /** `picks` are the positions of the exposed ports, in order. */
  ghost predicate PicksExposed(picks: seq<nat>, ports: seq<ContainerPort>) {
    && (forall j | 0 <= j < |picks| :: picks[j] < |ports|)
    && (forall j, k | 0 <= j < k < |picks| :: picks[j] < picks[k])
    && (forall i: nat :: i in picks <==> i < |ports| && ports[i].visibility != Unexposed)
  }

  ghost predicate IsServicePortFor(p: ServicePort, number: int) {
    && p.port == ToInt32(number) && p.targetPort == ToInt32(number) && p.protocol == "TCP"
    && p.name == "port-" + (if number >= 0 then Decimal.Numeral(number) else "-" + Decimal.Numeral(-number))
  }

  /** One entry for each exposed port, in order, and the configured type exactly when some port is external. */
  ghost predicate IsServiceFor(s: Service, spec: ContainerSpec, id: string, cfg: K8sConfig) {
    var ports := PortsOf(spec);
    && s.namespace == cfg.namespace && s.generateName == spec.metadata.name + "-"
    && Stamped(s.labels, id, UserLabelsOf(spec)) && Stamped(s.selector, id, map[])
    && s.serviceType == (if exists i :: 0 <= i < |ports| && ports[i].visibility == External then cfg.externalServiceType
                         else ClusterIP)
    && exists picks :: PicksExposed(picks, ports) && |s.ports| == |picks|
         && forall j | 0 <= j < |picks| :: IsServicePortFor(s.ports[j], ports[picks[j]].number)
  }

  /** The spec in the configured namespace, PENDING, created and updated at the same time. */
  ghost predicate IsResultFor(k: Container, spec: ContainerSpec, id: string, cfg: K8sConfig) {
    && k.id == id && k.path == "containers/" + id && k.status == Some(PENDING) && k.service.None?
    && k.updateTime == Some(k.createTime)
    && k.spec.metadata == Metadata(spec.metadata.name, Some(cfg.namespace), spec.metadata.labels)
    && k.spec.image == spec.image && k.spec.network == spec.network && k.spec.process == spec.process
    && k.spec.providerHints == spec.providerHints && k.spec.resources == spec.resources
  }

  lemma OneMorePick(picks: seq<nat>, ports: seq<ContainerPort>)
    requires ports != [] && PicksExposed(picks, ports[..|ports| - 1])
    ensures var n := |ports| - 1;
            PicksExposed(if ports[n].visibility != Unexposed then picks + [n] else picks, ports)
  {
    var n: nat := |ports| - 1;
    assert forall i: nat :: i in picks + [n] <==> i in picks || i == n;
  }

  lemma {:induction false} ExposedPicks(ports: seq<ContainerPort>) returns (picks: seq<nat>)
    ensures PicksExposed(picks, ports) && |Exposed(ports)| == |picks|
    ensures forall j | 0 <= j < |picks| :: Exposed(ports)[j] == ports[picks[j]]
  {
    if ports == [] {
      picks := [];
    } else {
      var n := |ports| - 1;
      picks := ExposedPicks(ports[..n]);
      OneMorePick(picks, ports);
      if ports[n].visibility != Unexposed {
        picks := picks + [n];
      }
    }
  }

  lemma BuiltDeployment(cfg: K8sConfig, spec: ContainerSpec, id: string, a: Answer)
    ensures var d := StoredDeployment(cfg, spec, id, a);
            IsDeploymentFor(d, spec, id, cfg) && d.name == a.name && d.created == a.time
  {
    MergedAreStamped(id, UserLabelsOf(spec));
  }

  lemma BuiltServicePorts(ports: seq<ContainerPort>) returns (picks: seq<nat>)
    ensures PicksExposed(picks, ports) && |ServicePorts(Exposed(ports))| == |picks|
    ensures forall j | 0 <= j < |picks| :: IsServicePortFor(ServicePorts(Exposed(ports))[j], ports[picks[j]].number)
  {
    picks := ExposedPicks(ports);
  }

  lemma BuiltService(cfg: K8sConfig, spec: ContainerSpec, id: string, a: Answer)
    ensures var s := StoredService(cfg, spec, id, a); IsServiceFor(s, spec, id, cfg) && s.name == a.name
  {
    MergedAreStamped(id, UserLabelsOf(spec));
    ExternalIsExposed(PortsOf(spec));
    var picks := BuiltServicePorts(PortsOf(spec));
    assert StoredService(cfg, spec, id, a).ports == ServicePorts(Exposed(PortsOf(spec)));
  }

  /**
  Whenever Create succeeds: the Deployment under the generated name, the Service when some port is exposed,
  and the returned container are the ones the spec asks for, field by field.
  */
  lemma CreateMakesWhatIsAsked(cfg: K8sConfig, c: Cluster, spec: ContainerSpec, id: string, answers: nat -> Answer)
    requires RunOp(cfg, c, CreateCheck(spec, id), answers, 0).1.Created?
    ensures var (c', r) := RunOp(cfg, c, CreateCheck(spec, id), answers, 0);
            && answers(1).name in c'.deployments
            && var d := c'.deployments[answers(1).name];
               && IsDeploymentFor(d, spec, id, cfg) && d.name == answers(1).name && d.created == answers(1).time
               && (NeedsService(spec) ==>
                     && answers(2).name in c'.services
                     && IsServiceFor(c'.services[answers(2).name], spec, id, cfg)
                     && c'.services[answers(2).name].name == answers(2).name)
               && IsResultFor(r.container, spec, id, cfg)
               && r.container.createTime == answers(if NeedsService(spec) then 2 else 1).time
  {
    CreateIsAllOrNothing(cfg, c, spec, id, answers);
    NeedsServiceIff(spec);
    BuiltDeployment(cfg, spec, id, answers(1));
    BuiltService(cfg, spec, id, answers(2));
    OneCall(cfg, c, CreateCheck(spec, id), answers, 0);
    CreateUnfolded(cfg, c, spec, id, answers);
  }

  /** The error with which the API server answers a creation under a name that may be taken. */
  function CreationError(a: Answer, taken: bool): Option<ApiError> {
    if a.fault.Some? then a.fault else if taken then Some(AlreadyExists) else None
  }

  /**
  How Create fails: with the error of the call that failed, except that an existing Deployment of the ID and
  an existing name are reported as conflicts; a failed rollback does not replace the Service call's error.
  */
  lemma CreateErrors(cfg: K8sConfig, c: Cluster, spec: ContainerSpec, id: string, answers: nat -> Answer)
    ensures var r := RunOp(cfg, c, CreateCheck(spec, id), answers, 0).1;
            var depError := CreationError(answers(1), answers(1).name in c.deployments);
            var svcError := CreationError(answers(2), answers(2).name in c.services);
            var checked := answers(0).fault.None? && DepsOf(c, id) == {};
            && (answers(0).fault.Some? ==> r == Failed(Api(answers(0).fault.value)))
            && (r == Failed(Conflict(DuplicateName)) <==> checked && depError == Some(AlreadyExists))
            && (checked && depError.Some? && depError != Some(AlreadyExists) ==> r == Failed(Api(depError.value)))
            && (checked && depError.None? && NeedsService(spec) && svcError.Some? ==> r == Failed(Api(svcError.value)))
            && (r.Created? <==> checked && depError.None? && (NeedsService(spec) ==> svcError.None?))
  {
    NeedsServiceIff(spec);
    OneCall(cfg, c, CreateCheck(spec, id), answers, 0);
    if answers(0).fault.None? && DepsOf(c, id) == {} {
      CreateUnfolded(cfg, c, spec, id, answers);
    }
  }

  /** The objects Create stores are selected for their own ID, for listing, and by each other's selectors. */
  lemma CreatedObjectsAreSelected(cfg: K8sConfig, spec: ContainerSpec, id: string, a: Answer, b: Answer, other: string)
    ensures var d, s := StoredDeployment(cfg, spec, id, a), StoredService(cfg, spec, id, b);
            && (Selects(InstanceSelector(other), d.labels) <==> other == id)
            && (Selects(InstanceSelector(other), s.labels) <==> other == id)
            && Selects(DcmSelector(), d.labels)
            && Selects(d.selector, d.podLabels) && Selects(s.selector, d.podLabels)
  {
    StoredLabels(spec, id);
  }

  /** Create reports a duplicate ID exactly when the check answers and the ID has a Deployment. */
  lemma DuplicateIdIsRejected(cfg: K8sConfig, c: Cluster, spec: ContainerSpec, id: string, answers: nat -> Answer)
    ensures RunOp(cfg, c, CreateCheck(spec, id), answers, 0).1 == Failed(Conflict(DuplicateId)) <==>
            answers(0).fault.None? && DepsOf(c, id) != {}
  {
    if answers(0).fault.None? && DepsOf(c, id) == {} {
      CreateUnfolded(cfg, c, spec, id, answers);
    }
  }

  // ---- Delete ----

  /** `after` differs from `before` at most by the removal of Services of `id` and of the Deployments `deps`. */
  ghost predicate OnlyRemoved(before: Cluster, after: Cluster, id: string, deps: set<string>) {
    && after.pods == before.pods
    && after.deployments == before.deployments - deps
    && after.services.Keys <= before.services.Keys
    && (forall n | n in before.services ::
          if n in after.services then after.services[n] == before.services[n] else n in SvcsOf(before, id))
  }

  lemma OnlyNameOf(names: set<string>)
    requires |names| == 1
    ensures names == {OnlyName(names)}
  {
    var n := OnlyName(names);
    assert |names - {n}| == 0;
  }

  /** The deletion phase: Services in the listed order, then the Deployment. */
  lemma {:induction false} DeleteObjectsRun(cfg: K8sConfig, c: Cluster, id: string, dep: string, rest: seq<string>,
                                            answers: nat -> Answer, k: nat)
    requires dep in c.deployments && Enumerates(rest, SvcsOf(c, id))
    ensures var (c', r) := RunOp(cfg, c, DeleteObjects(id, dep, rest), answers, k);
            && (r == Removed || (r.Failed? && r.error.Api?))
            && OnlyRemoved(c, c', id, if r == Removed then {dep} else {})
            && (r == Removed ==> SvcsOf(c', id) == {})
            && ((forall i: nat | k <= i :: answers(i).fault.None?) ==> r == Removed)
    decreases |rest|
  {
    if rest == [] {
      assert SvcsOf(c, id) == {} by {
        assert forall n :: n in rest <==> n in SvcsOf(c, id);
      }
      assert c.deployments - {} == c.deployments;
    } else {
      var n := rest[0];
      assert n in rest;
      var (c1, err) := RemoveService(c, n, answers(k));
      assert c.deployments - {} == c.deployments;
      if err.None? {
        assert rest == [n] + rest[1..];
        assert SvcsOf(c1, id) == SvcsOf(c, id) - {n};
        DeleteObjectsRun(cfg, c1, id, dep, rest[1..], answers, k + 1);
      }
    }
  }

  lemma DeleteUnfolded(cfg: K8sConfig, c: Cluster, id: string, answers: nat -> Answer)
    ensures var all := RunOp(cfg, c, DeleteFind(id), answers, 0);
            var deps := DepsOf(c, id);
            if answers(0).fault.Some? then all == (c, Failed(Api(answers(0).fault.value)))
            else if |deps| == 0 then all == (c, Failed(NotFound(id)))
            else if |deps| > 1 then all == (c, Failed(Conflict(ManyDeployments)))
            else if answers(1).fault.Some? || !Enumerates(answers(1).order, SvcsOf(c, id)) then
              all.0 == c && all.1.Failed? && all.1.error.Api?
            else all == RunOp(cfg, c, DeleteObjects(id, OnlyName(deps), answers(1).order), answers, 2)
  {
    OneCall(cfg, c, DeleteFind(id), answers, 0);
    var deps := DepsOf(c, id);
    if answers(0).fault.None? && |deps| == 1 {
      OneCall(cfg, c, DeleteListServices(id, OnlyName(deps)), answers, 1);
    }
  }

  /** Call j is the first to fail from call k on, and its error is e. */
  ghost predicate FirstFault(answers: nat -> Answer, k: nat, j: nat, e: ApiError) {
    k <= j && answers(j).fault == Some(e) && forall i: nat | k <= i < j :: answers(i).fault.None?
  }

  lemma {:induction false} DeleteObjectsErrors(cfg: K8sConfig, c: Cluster, id: string, dep: string, rest: seq<string>,
                                               answers: nat -> Answer, k: nat)
    requires dep in c.deployments && Enumerates(rest, SvcsOf(c, id))
    ensures var r := RunOp(cfg, c, DeleteObjects(id, dep, rest), answers, k).1;
            && (r == Removed <==> forall i: nat | k <= i <= k + |rest| :: answers(i).fault.None?)
            && (r != Removed ==>
                  && r.Failed? && r.error.Api?
                  && exists j: nat :: j <= k + |rest| && FirstFault(answers, k, j, r.error.error))
    decreases |rest|
  {
    OneCall(cfg, c, DeleteObjects(id, dep, rest), answers, k);
    if answers(k).fault.Some? {
      assert FirstFault(answers, k, k, answers(k).fault.value);
    } else if rest != [] {
      var n := rest[0];
      assert n in rest && rest == [n] + rest[1..];
      var c1 := RemoveService(c, n, answers(k)).0;
      assert SvcsOf(c1, id) == SvcsOf(c, id) - {n};
      DeleteObjectsErrors(cfg, c1, id, dep, rest[1..], answers, k + 1);
      var r := RunOp(cfg, c1, DeleteObjects(id, dep, rest[1..]), answers, k + 1).1;
      if r != Removed {
        var j: nat :| j <= k + |rest| && FirstFault(answers, k + 1, j, r.error.error);
        assert FirstFault(answers, k, j, r.error.error);
      }
    }
  }

  /**
  How Delete ends for an ID with one Deployment, when the server lists its n Services: removed if none of
  the calls fails, and otherwise with the error of the first one that does.
  */
  lemma DeleteErrors(cfg: K8sConfig, c: Cluster, id: string, answers: nat -> Answer)
    requires |DepsOf(c, id)| == 1 && (answers(1).fault.None? ==> Enumerates(answers(1).order, SvcsOf(c, id)))
    ensures var r := RunOp(cfg, c, DeleteFind(id), answers, 0).1;
            var last := 2 + |answers(1).order|;
            && (r == Removed <==> forall i: nat | i <= last :: answers(i).fault.None?)
            && (r != Removed ==>
                  && r.Failed? && r.error.Api?
                  && exists j: nat :: j <= last && FirstFault(answers, 0, j, r.error.error))
  {
    var r := RunOp(cfg, c, DeleteFind(id), answers, 0).1;
    DeleteUnfolded(cfg, c, id, answers);
    OnlyNameOf(DepsOf(c, id));
    if answers(0).fault.Some? {
      assert FirstFault(answers, 0, 0, answers(0).fault.value);
    } else {
      OneCall(cfg, c, DeleteFind(id), answers, 0);
      OneCall(cfg, c, DeleteListServices(id, OnlyName(DepsOf(c, id))), answers, 1);
      if answers(1).fault.Some? {
        assert FirstFault(answers, 0, 1, answers(1).fault.value);
      } else {
        DeleteObjectsErrors(cfg, c, id, OnlyName(DepsOf(c, id)), answers(1).order, answers, 2);
        if r != Removed {
          var j: nat :| j <= 2 + |answers(1).order| && FirstFault(answers, 2, j, r.error.error);
          assert FirstFault(answers, 0, j, r.error.error);
        }
      }
    }
  }

  /**
  Delete is complete and framed, from every cluster. Success removes the ID's one Deployment and all its
  Services, and nothing else. Every failure leaves all Deployments in place and removes at most Services
  of this ID; with several Deployments of the ID nothing changes and the answer is Conflict.
  */
  lemma DeleteIsCompleteAndFramed(cfg: K8sConfig, c: Cluster, id: string, answers: nat -> Answer)
    ensures var (c', r) := RunOp(cfg, c, DeleteFind(id), answers, 0);
            && !r.Created?
            && (r == Removed ==>
                  && |DepsOf(c, id)| == 1 && OnlyRemoved(c, c', id, DepsOf(c, id))
                  && DepsOf(c', id) == {} && SvcsOf(c', id) == {})
            && (r.Failed? ==> OnlyRemoved(c, c', id, {}) && DepsOf(c', id) == DepsOf(c, id))
            && (|DepsOf(c, id)| != 1 ==> c' == c && r.Failed?)
            && (|DepsOf(c, id)| >= 2 && answers(0).fault.None? ==> r == Failed(Conflict(ManyDeployments)))
            && (answers(0).fault.None? ==> (r == Failed(NotFound(id)) <==> DepsOf(c, id) == {}))
  {
    DeleteUnfolded(cfg, c, id, answers);
    var deps := DepsOf(c, id);
    assert c.deployments - {} == c.deployments;
    if answers(0).fault.None? && |deps| == 1 {
      OnlyNameOf(deps);
      if answers(1).fault.None? && Enumerates(answers(1).order, SvcsOf(c, id)) {
        DeleteObjectsRun(cfg, c, id, OnlyName(deps), answers(1).order, answers, 2);
      }
    }
  }

  /** After a successful Delete, Get reports NotFound, and so does another Delete whose lookup answers. */
  lemma DeletedIsNotFound(cfg: K8sConfig, c: Cluster, id: string, answers: nat -> Answer, again: nat -> Answer)
    requires RunOp(cfg, c, DeleteFind(id), answers, 0).1 == Removed && again(0).fault.None?
    ensures var c' := RunOp(cfg, c, DeleteFind(id), answers, 0).0;
            && RunOp(cfg, c', DeleteFind(id), again, 0) == (c', Failed(NotFound(id)))
            && forall pods, svcs :: Get(c', id, pods, svcs) == Err(NotFound(id))
  {
    DeleteIsCompleteAndFramed(cfg, c, id, answers);
    var c' := RunOp(cfg, c, DeleteFind(id), answers, 0).0;
    DeleteUnfolded(cfg, c', id, again);
  }

  /**
  A failed Delete can be resumed: unless the ID had no or several Deployments to begin with, a retry whose
  calls all answer removes the container, whatever the first attempt got done.
  */
  lemma DeleteIsResumable(cfg: K8sConfig, c: Cluster, id: string, answers: nat -> Answer, retry: nat -> Answer)
    requires |DepsOf(c, id)| == 1
    requires RunOp(cfg, c, DeleteFind(id), answers, 0).1.Failed?
    requires forall i: nat :: retry(i).fault.None?
    requires Enumerates(retry(1).order, SvcsOf(RunOp(cfg, c, DeleteFind(id), answers, 0).0, id))
    ensures var c' := RunOp(cfg, c, DeleteFind(id), answers, 0).0;
            var (c'', r) := RunOp(cfg, c', DeleteFind(id), retry, 0);
            && r == Removed
            && OnlyRemoved(c, c'', id, DepsOf(c, id)) && DepsOf(c'', id) == {} && SvcsOf(c'', id) == {}
  {
    DeleteIsCompleteAndFramed(cfg, c, id, answers);
    var c' := RunOp(cfg, c, DeleteFind(id), answers, 0).0;
    DeleteUnfolded(cfg, c', id, retry);
    OnlyNameOf(DepsOf(c, id));
    DeleteObjectsRun(cfg, c', id, OnlyName(DepsOf(c', id)), retry(1).order, retry, 2);
    DeleteIsCompleteAndFramed(cfg, c', id, retry);
  }

  /** The Deployment that a failed rollback leaves behind is removed by a later Delete whose calls answer. */
  lemma FailedRollbackIsRecoverable(cfg: K8sConfig, c: Cluster, spec: ContainerSpec, id: string,
                                    answers: nat -> Answer, later: nat -> Answer)
    requires SvcsOf(c, id) == {}
    requires RunOp(cfg, c, CreateCheck(spec, id), answers, 0).1.Failed?
    requires RunOp(cfg, c, CreateCheck(spec, id), answers, 0).0 != c
    requires (forall i: nat :: later(i).fault.None?) && later(1).order == []
    ensures var c' := RunOp(cfg, c, CreateCheck(spec, id), answers, 0).0;
            RunOp(cfg, c', DeleteFind(id), later, 0) == (c, Removed)
  {
    CreateIsAllOrNothing(cfg, c, spec, id, answers);
    var d := StoredDeployment(cfg, spec, id, answers(1));
    CreatedObjectsAreSelected(cfg, spec, id, answers(1), answers(2), id);
    RemoveStranded(cfg, c, d, id, later);
  }

  lemma RemoveStranded(cfg: K8sConfig, c: Cluster, d: Deployment, id: string, later: nat -> Answer)
    requires DepsOf(c, id) == {} && SvcsOf(c, id) == {}
    requires d.name !in c.deployments && Selects(InstanceSelector(id), d.labels)
    requires (forall i: nat :: later(i).fault.None?) && later(1).order == []
    ensures RunOp(cfg, c.(deployments := c.deployments[d.name := d]), DeleteFind(id), later, 0) == (c, Removed)
  {
    var c' := c.(deployments := c.deployments[d.name := d]);
    assert DepsOf(c', id) == {d.name};
    assert SvcsOf(c', id) == SvcsOf(c, id);
    OnlyNameOf(DepsOf(c', id));
    DeleteUnfolded(cfg, c', id, later);
    OneCall(cfg, c', DeleteObjects(id, d.name, []), later, 2);
    assert c'.deployments - {d.name} == c.deployments;
  }
}
