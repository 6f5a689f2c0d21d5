/** The handler's checks before a container is created, which buildDeployment relies on. */
module Validation {
  import opened Wrappers
  import opened Api
  import opened Kube
  import opened DcmLabels
  import opened Convert
  import opened RoundTrip

  datatype ValidationError =
    | ReservedId
    | CpuRange
    | MemoryMin(error: Units.MemoryError)
    | MemoryMax(error: Units.MemoryError)
    | MemoryRange
    | ReservedLabel

  const ReservedContainerIds := {"health"}

  function ValidateResources(res: Resources): Result<(), ValidationError> {
    if res.cpuMin > res.cpuMax then Err(CpuRange)
    else
      match Units.ConvertMemory(res.memoryMin)
      case Err(e) => Err(MemoryMin(e))
      case Ok(min) =>
        match Units.ConvertMemory(res.memoryMax)
        case Err(e) => Err(MemoryMax(e))
        case Ok(max) => if min > max then Err(MemoryRange) else Ok(())
  }

  function ValidateUserLabels(labels: Option<Labels>): Result<(), ValidationError> {
    if labels.None? then Ok(())
    else if exists k :: k in labels.value && k in ReservedKeys then Err(ReservedLabel)
    else Ok(())
  }

  /** The checks in the handler's order. */
  function ValidateCreate(spec: ContainerSpec, id: string): Result<(), ValidationError> {
    if id in ReservedContainerIds then Err(ReservedId)
    else
      match ValidateResources(spec.resources)
      case Err(e) => Err(e)
      case Ok(_) => ValidateUserLabels(spec.metadata.labels)
  }

  /**
  A spec is accepted if and only if the ID is not "health", both memory bounds convert, no minimum exceeds
  its maximum, and the user's labels use none of the provider's keys.
  */
  lemma AcceptedExactly(spec: ContainerSpec, id: string)
    ensures var min, max := Units.ConvertMemory(spec.resources.memoryMin), Units.ConvertMemory(spec.resources.memoryMax);
            ValidateCreate(spec, id).Ok? <==>
              && id != "health"
              && spec.resources.cpuMin <= spec.resources.cpuMax
              && min.Ok? && max.Ok? && min.value <= max.value
              && (spec.metadata.labels.Some? ==> forall k | k in spec.metadata.labels.value :: !IsReserved(k))
  {
  }

  /**
  The errors that buildDeployment ignores cannot occur after validation, in whatever order the unit table
  is ranged over, and the Deployment requests no more than its limits. Conversely, resources that convert
  and are ordered pass validation.
  */
  lemma IgnoredErrorsAreSafe(spec: ContainerSpec, id: string, cfg: K8sConfig, labels: Labels, order: Units.Table)
    requires Units.Reorders(order, Units.ApiToK8s)
    ensures var d := BuildDeployment(spec, id, cfg, labels).container;
            var min := Units.ConvertMemoryIn(order, spec.resources.memoryMin);
            var max := Units.ConvertMemoryIn(order, spec.resources.memoryMax);
            ValidateResources(spec.resources).Ok? <==>
              && min == Ok(d.memoryRequest.value) && max == Ok(d.memoryLimit.value)
              && d.memoryRequest.value <= d.memoryLimit.value
              && d.cpuRequest.value <= d.cpuLimit.value
  {
    Units.IterationOrderIsIrrelevant(order, Units.K8sToApi, spec.resources.memoryMin, 0);
    Units.IterationOrderIsIrrelevant(order, Units.K8sToApi, spec.resources.memoryMax, 0);
  }

  predicate PortsInRange(ports: seq<ContainerPort>) {
    forall i | 0 <= i < |ports| :: 1 <= ports[i].number <= 65535
  }

  /**
  For a spec that passed validation, with port numbers in the API's range, the normal form that Get returns
  keeps the image, the CPU bounds, the command, arguments and environment, the port numbers in order and
  the user's labels.
  */
  lemma NormalFormOfValidSpec(spec: ContainerSpec, id: string, name: string, namespace: string)
    requires ValidateCreate(spec, id).Ok? && PortsInRange(PortsOf(spec))
    ensures var n := NormalForm(spec, name, namespace);
            && n.image == spec.image
            && n.resources.cpuMin == spec.resources.cpuMin && n.resources.cpuMax == spec.resources.cpuMax
            && Commands(n.process) == Commands(spec.process)
            && Arguments(n.process) == Arguments(spec.process)
            && Environment(n.process) == Environment(spec.process)
            && |PortsOf(n)| == |PortsOf(spec)|
            && (forall i | 0 <= i < |PortsOf(n)| :: PortsOf(n)[i].number == PortsOf(spec)[i].number)
            && (if n.metadata.labels.Some? then n.metadata.labels == spec.metadata.labels
                else spec.metadata.labels.None? || spec.metadata.labels.value == map[])
  {
    if spec.metadata.labels.Some? {
      assert UserLabels(spec.metadata.labels.value) == spec.metadata.labels.value;
    }
  }
}
