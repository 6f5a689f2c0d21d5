/** Translation between the API's container spec and Kubernetes Deployments and Services. */
module Convert {
  import opened Wrappers
  import opened Status
  import opened Api
  import opened Kube
  import opened DcmLabels
  import Decimal
  import Units

  function PhaseStatus(phase: PodPhase): Option<ContainerStatus> {
    match phase
    case PodPending => Some(PENDING)
    case PodRunning => Some(RUNNING)
    case PodFailed => Some(FAILED)
    case PodUnknown => Some(UNKNOWN)
    case PodSucceeded => None
    case OtherPhase(_) => None
  }

  // ---- From spec to cluster objects ----

  /** The quantity buildDeployment stores: the zero quantity when the string does not convert. */
  function MemoryOrZero(s: string): nat {
    match Units.ConvertMemory(s)
    case Ok(b) => b
    case Err(_) => 0
  }

  function OrEmpty<T>(xs: Option<seq<T>>): seq<T> {
    if xs.Some? then xs.value else []
  }

  function Commands(p: Option<Process>): seq<string> {
    if p.Some? then OrEmpty(p.value.command) else []
  }

  function Arguments(p: Option<Process>): seq<string> {
    if p.Some? then OrEmpty(p.value.args) else []
  }

  function Environment(p: Option<Process>): seq<EnvVar> {
    if p.Some? then OrEmpty(p.value.env) else []
  }

  function PortNumbers(ports: seq<ContainerPort>): seq<int> {
    seq(|ports|, i requires 0 <= i < |ports| => ToInt32(ports[i].number))
  }

  function BuildDeployment(spec: ContainerSpec, id: string, cfg: K8sConfig, labels: Labels): Deployment {
    var cpu := Units.ConvertCpu(spec.resources.cpuMin, spec.resources.cpuMax);
    var container := PodContainer(
      spec.metadata.name, spec.image,
      Some(cpu.0), Some(cpu.1),
      Some(MemoryOrZero(spec.resources.memoryMin)), Some(MemoryOrZero(spec.resources.memoryMax)),
      Commands(spec.process), Arguments(spec.process), Environment(spec.process),
      PortNumbers(PortsOf(spec)));
    Deployment(spec.metadata.name + "-", "", cfg.namespace, labels, 0, Some(1), BaseLabels(id), labels, container, 0, 0, [])
  }

  function PortName(number: int): string {
    "port-" + (if number < 0 then "-" + Decimal.Numeral(0 - number) else Decimal.Numeral(number))
  }

  function ServicePorts(ports: seq<ContainerPort>): seq<ServicePort> {
    seq(|ports|, i requires 0 <= i < |ports| =>
      ServicePort(PortName(ports[i].number), ToInt32(ports[i].number), ToInt32(ports[i].number), "TCP"))
  }

  function BuildService(spec: ContainerSpec, id: string, cfg: K8sConfig, labels: Labels,
                        serviceType: ServiceType, ports: seq<ContainerPort>): Service {
    Service(spec.metadata.name + "-", "", cfg.namespace, labels, serviceType, BaseLabels(id), ServicePorts(ports), "", [])
  }

  /** The ports that need a Service. */
  function Exposed(ports: seq<ContainerPort>): seq<ContainerPort> {
    if ports == [] then []
    else
      var n := |ports| - 1;
      Exposed(ports[..n]) + (if ports[n].visibility.Unexposed? then [] else [ports[n]])
  }

  method PortsWithVisibility(spec: ContainerSpec) returns (result: seq<ContainerPort>)
    ensures result == Exposed(PortsOf(spec))
    ensures forall p :: p in result <==> p in PortsOf(spec) && !p.visibility.Unexposed?
  {
    result := [];
    var ports := PortsOf(spec);
    for i := 0 to |ports|
      invariant result == Exposed(ports[..i])
      invariant forall p :: p in result <==> p in ports[..i] && !p.visibility.Unexposed?
    {
      assert ports[..i + 1][..i] == ports[..i];
      if !ports[i].visibility.Unexposed? {
        result := result + [ports[i]];
      }
    }
    assert ports[..|ports|] == ports;
  }

  predicate HasExternal(ports: seq<ContainerPort>) {
    exists i :: 0 <= i < |ports| && ports[i].visibility.External?
  }

  function ResolveServiceType(cfg: K8sConfig, ports: seq<ContainerPort>): ServiceType {
    if HasExternal(ports) then cfg.externalServiceType else ClusterIP
  }

  function ServiceFor(spec: ContainerSpec, id: string, cfg: K8sConfig, labels: Labels): Service {
    var ports := Exposed(PortsOf(spec));
    BuildService(spec, id, cfg, labels, ResolveServiceType(cfg, ports), ports)
  }

  // ---- From cluster objects back to a container ----

  function AbsentIfEmpty<T>(xs: seq<T>): Option<seq<T>> {
    if xs == [] then None else Some(xs)
  }

  function ProcessFromContainer(c: PodContainer): Option<Process> {
    if c.command == [] && c.args == [] && c.env == [] then None
    else Some(Process(AbsentIfEmpty(c.command), AbsentIfEmpty(c.args), AbsentIfEmpty(c.env)))
  }

  function ResourcesFromContainer(c: PodContainer): Resources {
    Resources(
      if c.cpuRequest.Some? then c.cpuRequest.value else 0,
      if c.cpuLimit.Some? then c.cpuLimit.value else 0,
      if c.memoryRequest.Some? then Units.MemoryQuantityToApi(c.memoryRequest.value) else "",
      if c.memoryLimit.Some? then Units.MemoryQuantityToApi(c.memoryLimit.value) else "")
  }

  function UnexposedPorts(numbers: seq<int>): seq<ContainerPort> {
    seq(|numbers|, i requires 0 <= i < |numbers| => ContainerPort(numbers[i], Unexposed))
  }

  function ContainerFromDeployment(d: Deployment, id: string): Container {
    var c := d.container;
    var userLabels := UserLabels(d.labels);
    var spec := ContainerSpec(
      c.image,
      Metadata(d.name, Some(d.namespace), if userLabels == map[] then None else Some(userLabels)),
      if c.ports == [] then None else Some(Network(None, Some(UnexposedPorts(c.ports)))),
      ProcessFromContainer(c),
      None,
      ResourcesFromContainer(c));
    Container(id, "containers/" + id, None, spec, None, d.created, None)
  }

  function Latest(conditions: seq<Condition>): Option<int> {
    if conditions == [] then None
    else
      var n := |conditions| - 1;
      var before, t := Latest(conditions[..n]), conditions[n].transition;
      if t.Some? && (before.None? || t.value > before.value) then t else before
  }

  method LatestTransitionTime(conditions: seq<Condition>) returns (latest: Option<int>)
    ensures latest == Latest(conditions)
    ensures latest.None? <==> forall i | 0 <= i < |conditions| :: conditions[i].transition.None?
    ensures latest.Some? ==> exists i :: 0 <= i < |conditions| && conditions[i].transition == latest
    ensures forall i | 0 <= i < |conditions| && conditions[i].transition.Some? ::
              latest.Some? && conditions[i].transition.value <= latest.value
  {
    latest := None;
    for i := 0 to |conditions|
      invariant latest == Latest(conditions[..i])
      invariant latest.None? <==> forall k | 0 <= k < i :: conditions[k].transition.None?
      invariant latest.Some? ==> exists k :: 0 <= k < i && conditions[k].transition == latest
      invariant forall k | 0 <= k < i && conditions[k].transition.Some? ::
                  latest.Some? && conditions[k].transition.value <= latest.value
    {
      assert conditions[..i + 1][..i] == conditions[..i];
      var t := conditions[i].transition;
      if t.Some? && (latest.None? || t.value > latest.value) {
        latest := t;
      }
    }
    assert conditions[..|conditions|] == conditions;
  }

  function EnrichWithPod(c: Container, pod: Pod): Container {
    var status := if PhaseStatus(pod.phase).Some? then PhaseStatus(pod.phase) else c.status;
    var ports := if c.spec.network.Some? then c.spec.network.value.ports else None;
    var network := if pod.podIp == "" then c.spec.network else Some(Network(Some(pod.podIp), ports));
    var updated := if Latest(pod.conditions).Some? then Latest(pod.conditions) else c.updateTime;
    c.(status := status, spec := c.spec.(network := network), updateTime := updated)
  }

  function EnrichWithoutPod(c: Container, d: Deployment): Container {
    var updated := if Latest(d.conditions).Some? then Latest(d.conditions) else c.updateTime;
    c.(status := Some(PENDING), updateTime := updated)
  }

  function InferVisibility(t: ServiceType): Visibility {
    if t.LoadBalancer? || t.NodePort? then External else Internal
  }

  function PortInfos(ports: seq<ServicePort>): seq<ServicePortInfo> {
    seq(|ports|, i requires 0 <= i < |ports| => ServicePortInfo(ports[i].port, ports[i].targetPort, ports[i].protocol))
  }

  predicate Targets(svc: Service, number: int) {
    exists i :: 0 <= i < |svc.ports| && svc.ports[i].targetPort == number
  }

  function Revealed(ports: seq<ContainerPort>, svc: Service): seq<ContainerPort> {
    seq(|ports|, i requires 0 <= i < |ports| =>
      if Targets(svc, ports[i].number) then ports[i].(visibility := InferVisibility(svc.serviceType)) else ports[i])
  }

  function ServiceInfoOf(svc: Service): ServiceInfo {
    ServiceInfo(
      svc.name,
      if svc.clusterIp == "" then None else Some(svc.clusterIp),
      if svc.ingress != [] && svc.ingress[0] != "" then Some(svc.ingress[0]) else None,
      ServiceTypeText(svc.serviceType),
      if svc.ports == [] then None else Some(PortInfos(svc.ports)))
  }

  function WithPorts(c: Container, ports: seq<ContainerPort>): Container
    requires c.spec.network.Some?
  {
    c.(spec := c.spec.(network := Some(c.spec.network.value.(ports := Some(ports)))))
  }

  function EnrichWithService(c: Container, svc: Service): Container {
    var c' := c.(service := Some(ServiceInfoOf(svc)));
    if PortsOf(c.spec) == [] then c' else WithPorts(c', Revealed(PortsOf(c.spec), svc))
  }

  /** The imperative form: collect the target ports in a set, then update the container's ports in place. */
  method EnrichService(c: Container, svc: Service) returns (r: Container)
    ensures r == EnrichWithService(c, svc)
  {
    var targets: set<int> := {};
    var infos: seq<ServicePortInfo> := [];
    for i := 0 to |svc.ports|
      invariant forall n :: n in targets <==> exists k :: 0 <= k < i && svc.ports[k].targetPort == n
      invariant infos == PortInfos(svc.ports)[..i]
    {
      var p := svc.ports[i];
      infos := infos + [ServicePortInfo(p.port, p.targetPort, p.protocol)];
      targets := targets + {p.targetPort};
    }
    assert infos == PortInfos(svc.ports);
    var info := ServiceInfo(svc.name, None, None, ServiceTypeText(svc.serviceType), None);
    if svc.clusterIp != "" {
      info := info.(clusterIp := Some(svc.clusterIp));
    }
    if |svc.ports| > 0 {
      info := info.(ports := Some(infos));
    }
    if |svc.ingress| > 0 && svc.ingress[0] != "" {
      info := info.(externalIp := Some(svc.ingress[0]));
    }
    r := c.(service := Some(info));
    var ports := PortsOf(c.spec);
    if |ports| > 0 {
      var visibility := InferVisibility(svc.serviceType);
      for i := 0 to |ports|
        invariant |ports| == |PortsOf(c.spec)|
        invariant forall k | 0 <= k < |ports| ::
                    ports[k] == if k < i then Revealed(PortsOf(c.spec), svc)[k] else PortsOf(c.spec)[k]
      {
        assert ports[i].number in targets <==> Targets(svc, ports[i].number);
        if ports[i].number in targets {
          ports := ports[i := ports[i].(visibility := visibility)];
        }
      }
      assert ports == Revealed(PortsOf(c.spec), svc);
      r := WithPorts(r, ports);
    }
  }
}
