/** The container resource of the provider's API. */
module Api {
  import opened Wrappers
  import opened Status

  datatype Visibility = Unexposed | Internal | External

  datatype ContainerPort = ContainerPort(number: int, visibility: Visibility)

  datatype EnvVar = EnvVar(name: string, value: string)

  datatype Process = Process(command: Option<seq<string>>, args: Option<seq<string>>, env: Option<seq<EnvVar>>)

  datatype Network = Network(ip: Option<string>, ports: Option<seq<ContainerPort>>)

  datatype Metadata = Metadata(name: string, namespace: Option<string>, labels: Option<map<string, string>>)

  datatype Resources = Resources(cpuMin: int, cpuMax: int, memoryMin: string, memoryMax: string)

  datatype ContainerSpec = ContainerSpec(
    image: string,
    metadata: Metadata,
    network: Option<Network>,
    process: Option<Process>,
    providerHints: Option<map<string, string>>,
    resources: Resources)

  datatype ServicePortInfo = ServicePortInfo(port: int, targetPort: int, protocol: string)

  datatype ServiceInfo = ServiceInfo(
    name: string,
    clusterIp: Option<string>,
    externalIp: Option<string>,
    serviceType: string,
    ports: Option<seq<ServicePortInfo>>)

  datatype Container = Container(
    id: string,
    path: string,
    service: Option<ServiceInfo>,
    spec: ContainerSpec,
    status: Option<ContainerStatus>,
    createTime: int,
    updateTime: Option<int>)

  /** The ports of a spec, with the absent cases read as no ports. */
  function PortsOf(spec: ContainerSpec): seq<ContainerPort> {
    if spec.network.Some? && spec.network.value.ports.Some? then spec.network.value.ports.value else []
  }
}
