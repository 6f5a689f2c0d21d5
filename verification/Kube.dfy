/** The Kubernetes objects the provider reads and writes, reduced to the fields it uses. */
module Kube {
  import opened Wrappers
  import opened Api

  type Labels = map<string, string>

  datatype PodPhase = PodPending | PodRunning | PodSucceeded | PodFailed | PodUnknown | OtherPhase(text: string)

  /** A container's waiting and terminated states, each with its reason when present. */
  datatype ContainerState = ContainerState(waiting: Option<string>, terminated: Option<string>)

  /** `transition` is absent for the zero time. */
  datatype Condition = Condition(kind: string, isTrue: bool, message: string, transition: Option<int>)

  datatype Pod = Pod(
    name: string,
    labels: Labels,
    created: int,
    phase: PodPhase,
    podIp: string,
    states: seq<ContainerState>,
    conditions: seq<Condition>)

  datatype PodContainer = PodContainer(
    name: string,
    image: string,
    cpuRequest: Option<int>,
    cpuLimit: Option<int>,
    memoryRequest: Option<nat>,
    memoryLimit: Option<nat>,
    command: seq<string>,
    args: seq<string>,
    env: seq<EnvVar>,
    ports: seq<int>)

  /** `container` is the pod template's first container. */
  datatype Deployment = Deployment(
    generateName: string,
    name: string,
    namespace: string,
    labels: Labels,
    created: int,
    replicas: Option<int>,
    selector: Labels,
    podLabels: Labels,
    container: PodContainer,
    updatedReplicas: int,
    unavailableReplicas: int,
    conditions: seq<Condition>)

  datatype ServiceType = ClusterIP | NodePort | LoadBalancer | OtherType(text: string)

  datatype ServicePort = ServicePort(name: string, port: int, targetPort: int, protocol: string)

  datatype Service = Service(
    generateName: string,
    name: string,
    namespace: string,
    labels: Labels,
    serviceType: ServiceType,
    selector: Labels,
    ports: seq<ServicePort>,
    clusterIp: string,
    ingress: seq<string>)

  datatype K8sConfig = K8sConfig(namespace: string, externalServiceType: ServiceType)

  function PhaseText(phase: PodPhase): string {
    match phase
    case PodPending => "Pending"
    case PodRunning => "Running"
    case PodSucceeded => "Succeeded"
    case PodFailed => "Failed"
    case PodUnknown => "Unknown"
    case OtherPhase(text) => text
  }

  function ServiceTypeText(t: ServiceType): string {
    match t
    case ClusterIP => "ClusterIP"
    case NodePort => "NodePort"
    case LoadBalancer => "LoadBalancer"
    case OtherType(text) => text
  }

  /** Conversion of a 64-bit int to int32, which keeps the low 32 bits. */
  function ToInt32(x: int): int {
    (x + 0x8000_0000) % 0x1_0000_0000 - 0x8000_0000
  }

  lemma ToInt32Wraps(x: int)
    ensures -0x8000_0000 <= ToInt32(x) < 0x8000_0000 && (ToInt32(x) - x) % 0x1_0000_0000 == 0
    ensures -0x8000_0000 <= x < 0x8000_0000 ==> ToInt32(x) == x
  {
  }
}
