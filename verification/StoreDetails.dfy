/**
What a Get reports, told from the cluster's objects: the Deployment's spec, the active pod's status, address
and last transition, and the Service's details and port visibilities.
*/
module StoreDetails {
  import opened Wrappers
  import opened Status
  import opened Errors
  import opened Api
  import opened Kube
  import opened DcmLabels
  import opened Convert
  import opened RoundTrip
  import opened Store
  import opened StoreOperations
  import StoreReads

  // ---- Pods ----

  /** More pods than a Deployment may have: three or more, or two outside a rollout. */
  ghost predicate TooManyPods(d: Deployment, pods: seq<Pod>) {
    || |pods| > 2
    || (|pods| == 2 && d.unavailableReplicas <= 0 && (d.replicas.None? || d.replicas == Some(d.updatedReplicas)))
  }

  ghost predicate IsLatest(t: Option<int>, conditions: seq<Condition>) {
    && (t.None? <==> forall i | 0 <= i < |conditions| :: conditions[i].transition.None?)
    && (t.Some? ==> exists i :: 0 <= i < |conditions| && conditions[i].transition == t)
    && (forall i | 0 <= i < |conditions| && conditions[i].transition.Some? ::
          t.Some? && conditions[i].transition.value <= t.value)
  }

  function IpOf(k: Container): Option<string> {
    if k.spec.network.Some? then k.spec.network.value.ip else None
  }

  /** The pod's status by its phase, its address when it has one, and its latest transition. */
  ghost predicate ShowsPod(k: Container, p: Pod) {
    && (k.status == Some(PENDING) <==> p.phase == PodPending)
    && (k.status == Some(RUNNING) <==> p.phase == PodRunning)
    && (k.status == Some(FAILED) <==> p.phase == PodFailed)
    && (k.status == Some(UNKNOWN) <==> p.phase == PodUnknown)
    && (k.status == None <==> p.phase !in {PodPending, PodRunning, PodFailed, PodUnknown})
    && IpOf(k) == (if p.podIp != "" then Some(p.podIp) else None)
    && IsLatest(k.updateTime, p.conditions)
  }

  ghost predicate ShowsNoPod(k: Container, d: Deployment) {
    k.status == Some(PENDING) && IpOf(k).None? && IsLatest(k.updateTime, d.conditions)
  }

  // ---- Deployment ----

  ghost predicate ShowsLabels(shown: Option<Labels>, labels: Labels) {
    if forall key | key in labels :: IsReserved(key) then shown.None?
    else
      && shown.Some?
      && (forall key :: key in shown.value <==> key in labels && !IsReserved(key))
      && (forall key | key in shown.value :: shown.value[key] == labels[key])
  }

  ghost predicate ShowsList<T>(shown: Option<seq<T>>, stored: seq<T>) {
    if stored == [] then shown.None? else shown == Some(stored)
  }

  ghost predicate ShowsProcess(p: Option<Process>, c: PodContainer) {
    if c.command == [] && c.args == [] && c.env == [] then p.None?
    else
      && p.Some? && ShowsList(p.value.command, c.command) && ShowsList(p.value.args, c.args)
      && ShowsList(p.value.env, c.env)
  }

  ghost predicate ShowsMemory(text: string, stored: Option<nat>) {
    text == if stored.Some? then Units.MemoryQuantityToApi(stored.value) else ""
  }

  ghost predicate ShowsResources(r: Resources, c: PodContainer) {
    && r.cpuMin == (if c.cpuRequest.Some? then c.cpuRequest.value else 0)
    && r.cpuMax == (if c.cpuLimit.Some? then c.cpuLimit.value else 0)
    && ShowsMemory(r.memoryMin, c.memoryRequest) && ShowsMemory(r.memoryMax, c.memoryLimit)
  }

  ghost predicate ShowsDeployment(k: Container, d: Deployment, id: string) {
    && k.id == id && k.path == "containers/" + id && k.createTime == d.created
    && k.spec.image == d.container.image && k.spec.providerHints.None?
    && k.spec.metadata.name == d.name && k.spec.metadata.namespace == Some(d.namespace)
    && ShowsLabels(k.spec.metadata.labels, d.labels)
    && ShowsProcess(k.spec.process, d.container) && ShowsResources(k.spec.resources, d.container)
    && |PortsOf(k.spec)| == |d.container.ports|
    && forall i | 0 <= i < |PortsOf(k.spec)| :: PortsOf(k.spec)[i].number == d.container.ports[i]
  }

  // ---- Service ----

  ghost predicate ShowsServiceInfo(info: ServiceInfo, s: Service) {
    && info.name == s.name
    && info.clusterIp == (if s.clusterIp != "" then Some(s.clusterIp) else None)
    && info.externalIp == (if s.ingress != [] && s.ingress[0] != "" then Some(s.ingress[0]) else None)
    && (s.serviceType == ClusterIP ==> info.serviceType == "ClusterIP")
    && (s.serviceType == NodePort ==> info.serviceType == "NodePort")
    && (s.serviceType == LoadBalancer ==> info.serviceType == "LoadBalancer")
    && (info.ports.None? <==> s.ports == [])
    && (info.ports.Some? ==>
          && |info.ports.value| == |s.ports|
          && forall i | 0 <= i < |s.ports| ::
               info.ports.value[i] == ServicePortInfo(s.ports[i].port, s.ports[i].targetPort, s.ports[i].protocol))
  }

  /** A port is exposed iff the Service targets its number, and then external iff the Service is reachable from outside. */
  ghost predicate ShowsVisibility(p: ContainerPort, s: Service) {
    && (p.visibility == Unexposed <==> forall i | 0 <= i < |s.ports| :: s.ports[i].targetPort != p.number)
    && (p.visibility != Unexposed ==> (p.visibility == External <==> s.serviceType == NodePort || s.serviceType == LoadBalancer))
  }

  ghost predicate ShowsServices(k: Container, svcs: seq<Service>) {
    if |svcs| == 1 then
      && k.service.Some? && ShowsServiceInfo(k.service.value, svcs[0])
      && forall i | 0 <= i < |PortsOf(k.spec)| :: ShowsVisibility(PortsOf(k.spec)[i], svcs[0])
    else k.service.None? && forall i | 0 <= i < |PortsOf(k.spec)| :: PortsOf(k.spec)[i].visibility == Unexposed
  }

  // ---- Get ----

  ghost predicate ShowsPods(k: Container, d: Deployment, pods: seq<Pod>) {
    if pods == [] then ShowsNoPod(k, d) else exists i :: ActiveAt(pods, i) && ShowsPod(k, pods[i])
  }

  lemma {:induction false} LatestIs(conditions: seq<Condition>)
    ensures IsLatest(Latest(conditions), conditions)
  {
    if conditions != [] {
      var n := |conditions| - 1;
      LatestIs(conditions[..n]);
      assert forall i | 0 <= i < n :: conditions[i] == conditions[..n][i];
    }
  }

  lemma ReadDeployment(d: Deployment, id: string)
    ensures var k := ContainerFromDeployment(d, id);
            && ShowsDeployment(k, d, id) && k.status.None? && k.updateTime.None? && IpOf(k).None? && k.service.None?
            && forall i | 0 <= i < |PortsOf(k.spec)| :: PortsOf(k.spec)[i].visibility == Unexposed
  {
    SelectorsRead(id, d.labels);
  }

  /** What the pods add to a container that shows none yet. */
  lemma PodAdded(k: Container, p: Pod)
    requires k.status.None? && k.updateTime.None? && IpOf(k).None?
    ensures ShowsPod(EnrichWithPod(k, p), p)
  {
    LatestIs(p.conditions);
  }

  lemma ServiceKeepsPods(k: Container, s: Service)
    ensures var e := EnrichWithService(k, s);
            e.status == k.status && e.updateTime == k.updateTime && IpOf(e) == IpOf(k)
  {
  }

  lemma ShownPods(k: Container, d: Deployment, pods: seq<Pod>, svcs: seq<Service>)
    requires Enrich(k, d, pods, svcs).Ok? && k.status.None? && k.updateTime.None? && IpOf(k).None?
    ensures ShowsPods(Enrich(k, d, pods, svcs).value, d, pods)
  {
    var e := Enrich(k, d, pods, svcs).value;
    if pods == [] {
      LatestIs(d.conditions);
      if |svcs| == 1 {
        ServiceKeepsPods(EnrichWithoutPod(k, d), svcs[0]);
      }
    } else {
      var i := ActivePodAt(pods);
      PodAdded(k, pods[i]);
      if |svcs| == 1 {
        ServiceKeepsPods(EnrichWithPod(k, pods[i]), svcs[0]);
      }
      assert ShowsPod(e, pods[i]);
    }
  }

  lemma RevealedShows(ports: seq<ContainerPort>, s: Service, i: nat)
    requires i < |ports| && ports[i].visibility == Unexposed
    ensures ShowsVisibility(Revealed(ports, s)[i], s)
  {
  }

  lemma ServiceShown(k: Container, d: Deployment, pods: seq<Pod>, svcs: seq<Service>)
    requires Enrich(k, d, pods, svcs).Ok? && k.service.None?
    ensures Enrich(k, d, pods, svcs).value.service == if |svcs| == 1 then Some(ServiceInfoOf(svcs[0])) else None
    ensures |svcs| == 1 ==> ShowsServiceInfo(ServiceInfoOf(svcs[0]), svcs[0])
  {
  }

  lemma ShownServices(k: Container, d: Deployment, pods: seq<Pod>, svcs: seq<Service>)
    requires Enrich(k, d, pods, svcs).Ok? && k.service.None?
    requires forall i | 0 <= i < |PortsOf(k.spec)| :: PortsOf(k.spec)[i].visibility == Unexposed
    ensures var e := Enrich(k, d, pods, svcs).value;
            && ShowsServices(e, svcs) && |PortsOf(e.spec)| == |PortsOf(k.spec)|
            && forall i | 0 <= i < |PortsOf(k.spec)| :: PortsOf(e.spec)[i].number == PortsOf(k.spec)[i].number
  {
    StoreReads.EnrichKeepsSpec(k, d, pods, svcs);
    ServiceShown(k, d, pods, svcs);
    if |svcs| == 1 {
      forall i: nat | i < |PortsOf(k.spec)| ensures ShowsVisibility(Revealed(PortsOf(k.spec), svcs[0])[i], svcs[0]) {
        RevealedShows(PortsOf(k.spec), svcs[0], i);
      }
    }
  }

  /**
  For every Deployment, pods and Services: Get's only error about them is the conflict of too many pods, and
  the container it builds shows the Deployment, the active pod and the Service as they are.
  */
  lemma ContainerShowsObjects(d: Deployment, id: string, pods: seq<Pod>, svcs: seq<Service>)
    ensures var r := BuildContainer(d, id, pods, svcs);
            && (if TooManyPods(d, pods) then r == Err(Conflict(ManyPods)) else r.Ok?)
            && (r.Ok? ==>
                  ShowsDeployment(r.value, d, id) && ShowsPods(r.value, d, pods) && ShowsServices(r.value, svcs))
  {
    var k := ContainerFromDeployment(d, id);
    ReadDeployment(d, id);
    if !TooManyPods(d, pods) {
      ShownPods(k, d, pods, svcs);
      ShownServices(k, d, pods, svcs);
      StoreReads.EnrichKeepsSpec(k, d, pods, svcs);
    }
  }

  /** Get, by the number of the ID's Deployments. */
  lemma GetShowsCluster(c: Cluster, id: string, pods: seq<Pod>, svcs: seq<Service>)
    ensures var r := Get(c, id, pods, svcs);
            && (r == Err(NotFound(id)) <==> DepsOf(c, id) == {})
            && (r == Err(Conflict(ManyDeployments)) <==> |DepsOf(c, id)| >= 2)
            && forall name | DepsOf(c, id) == {name} ::
                 var d := c.deployments[name];
                 && (if TooManyPods(d, pods) then r == Err(Conflict(ManyPods)) else r.Ok?)
                 && (r.Ok? ==>
                       ShowsDeployment(r.value, d, id) && ShowsPods(r.value, d, pods) && ShowsServices(r.value, svcs))
  {
    if |DepsOf(c, id)| == 1 {
      OnlyNameOf(DepsOf(c, id));
      ContainerShowsObjects(c.deployments[OnlyName(DepsOf(c, id))], id, pods, svcs);
    }
  }
}
