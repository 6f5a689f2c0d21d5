/**
What a spec becomes on its way through the cluster: the normal form that Get returns for a created
container, and the visibility it reports for each port.
*/
module RoundTrip {
  import opened Wrappers
  import opened Api
  import opened Kube
  import opened DcmLabels
  import opened Convert

  /** The labels Create stamps on the Deployment and the Service. */
  function CreateLabels(spec: ContainerSpec, id: string): Labels {
    if spec.metadata.labels.Some? then Merge(BaseLabels(id), spec.metadata.labels.value) else BaseLabels(id)
  }

  // ---- Normal form ----

  function NormalLabels(labels: Option<Labels>): Option<Labels> {
    if labels.None? || UserLabels(labels.value) == map[] then None else Some(UserLabels(labels.value))
  }

  function NormalList<T>(xs: Option<seq<T>>): Option<seq<T>> {
    if xs == Some([]) then None else xs
  }

  function NormalProcess(p: Option<Process>): Option<Process> {
    if p.None? then None
    else
      var n := Process(NormalList(p.value.command), NormalList(p.value.args), NormalList(p.value.env));
      if n == Process(None, None, None) then None else Some(n)
  }

  function NormalPorts(ports: seq<ContainerPort>): seq<ContainerPort> {
    seq(|ports|, i requires 0 <= i < |ports| => ContainerPort(ToInt32(ports[i].number), Unexposed))
  }

  function NormalMemory(s: string): string {
    Units.MemoryQuantityToApi(MemoryOrZero(s))
  }

  /** The spec as stored in a Deployment called `name` in `namespace`. */
  function NormalForm(spec: ContainerSpec, name: string, namespace: string): ContainerSpec {
    ContainerSpec(
      spec.image,
      Metadata(name, Some(namespace), NormalLabels(spec.metadata.labels)),
      if PortsOf(spec) == [] then None else Some(Network(None, Some(NormalPorts(PortsOf(spec))))),
      NormalProcess(spec.process),
      None,
      Resources(spec.resources.cpuMin, spec.resources.cpuMax,
                NormalMemory(spec.resources.memoryMin), NormalMemory(spec.resources.memoryMax)))
  }

  lemma StoredLabels(spec: ContainerSpec, id: string)
    ensures var labels := CreateLabels(spec, id);
            && Selects(DcmSelector(), labels) && Selects(BaseLabels(id), labels)
            && ExtractInstanceId(labels) == id
            && (forall other :: Selects(InstanceSelector(other), labels) <==> other == id)
            && UserLabels(labels) == if spec.metadata.labels.Some? then UserLabels(spec.metadata.labels.value) else map[]
  {
    var user := if spec.metadata.labels.Some? then spec.metadata.labels.value else map[];
    assert Merge(BaseLabels(id), map[]) == BaseLabels(id);
    forall other ensures Selects(InstanceSelector(other), CreateLabels(spec, id)) <==> other == id {
      MergedLabels(id, user, other);
    }
    MergedLabels(id, user, id);
    assert UserLabels(map[]) == map[];
  }

  /**
  Building a Deployment from a spec and reading it back yields the spec's normal form, for every spec, and
  the Deployment is selected by its own pods' labels.
  */
  lemma DeploymentRoundTrip(spec: ContainerSpec, id: string, cfg: K8sConfig, name: string, created: int)
    ensures var d := BuildDeployment(spec, id, cfg, CreateLabels(spec, id)).(name := name, created := created);
            && ContainerFromDeployment(d, id).spec == NormalForm(spec, name, cfg.namespace)
            && Selects(d.selector, d.podLabels)
  {
    StoredLabels(spec, id);
    var d := BuildDeployment(spec, id, cfg, CreateLabels(spec, id)).(name := name, created := created);
    assert UnexposedPorts(PortNumbers(PortsOf(spec))) == NormalPorts(PortsOf(spec));
    assert (d.container.ports == []) == (PortsOf(spec) == []);
  }

  // ---- Normalising twice ----

  /** The stored amount is zero, or a whole number of mebibytes but not of pebibytes. */
  predicate StableMemory(s: string) {
    var b := MemoryOrZero(s);
    b % Units.Mebi == 0 && (b == 0 || b % Units.Pebi != 0)
  }

  lemma TextOfNonZero(b: nat)
    requires b > 0
    ensures Units.QuantityText(b) != "0"
  {
    if b < 1024 {
      Decimal.NumeralValue(b);
      assert Decimal.Value("0") == 0 by { assert "0"[..0] == ""; }
    } else {
      var (m, e) := Units.Reduce(b);
      Units.ReduceValue(b);
      Decimal.NumeralValue(m);
      assert Decimal.Value("0") == 0 by { assert "0"[..0] == ""; }
      if e == 0 {
        assert Decimal.Numeral(m) + "" == Decimal.Numeral(m);
        assert Units.Power1024(0) == 1;
      } else {
        assert |Units.QuantityText(b)| >= 2;
      }
    }
  }

  lemma NormalMemoryTwice(s: string)
    ensures NormalMemory(NormalMemory(s)) == if StableMemory(s) then NormalMemory(s) else "0"
    ensures NormalMemory(NormalMemory(s)) == NormalMemory(s) <==> StableMemory(s)
  {
    var b := MemoryOrZero(s);
    Units.MemoryRoundTrip(b);
    Units.MemoryRoundTrip(0);
    assert Units.QuantityText(0) == "0";
    if b > 0 {
      TextOfNonZero(b);
    }
  }

  lemma Value1024()
    ensures Decimal.AllDigits("1024") && Decimal.Value("1024") == 1024
  {
    Decimal.ValueOfOneMore("", '1');
    assert "" + ['1'] == "1";
    Decimal.ValueOfOneMore("1", '0');
    assert "1" + ['0'] == "10";
    Decimal.ValueOfOneMore("10", '2');
    assert "10" + ['2'] == "102";
    Decimal.ValueOfOneMore("102", '4');
    assert "102" + ['4'] == "1024";
  }

  lemma Stored1024TB()
    ensures MemoryOrZero("1024TB") == Units.Pebi
  {
    Value1024();
    assert "1024" + "TB" == "1024TB";
    Units.ConvertMemoryOfNumeral("1024", ("TB", "Ti"));
  }

  lemma TextOfPebibyte()
    ensures Units.QuantityText(Units.Pebi) == "1Pi"
  {
    assert Units.Reduce(1024) == (1, 1) by { assert Units.Reduce(1) == (1, 0); }
    assert Units.Reduce(Units.Gibi) == (1, 3) by { assert Units.Reduce(Units.Mebi) == (1, 2); }
    assert Units.Reduce(Units.Pebi) == (1, 5) by { assert Units.Reduce(Units.Tebi) == (1, 4); }
  }

  /** 1024 tebibytes are stored, but read back as one pebibyte, a string that does not convert. */
  lemma PebibyteIsLost()
    ensures NormalMemory("1024TB") == "1Pi"
    ensures Units.ConvertMemory("1Pi") == Err(Units.UnsupportedUnit)
    ensures NormalMemory("1Pi") == "0"
  {
    Stored1024TB();
    TextOfPebibyte();
    Units.MemoryRoundTrip(Units.Pebi);
    Units.MemoryRoundTrip(0);
  }

  lemma OnlyMemoryChanges(spec: ContainerSpec, name: string, namespace: string)
    ensures var once := NormalForm(spec, name, namespace);
            NormalForm(once, name, namespace) ==
            once.(resources := once.resources.(memoryMin := NormalMemory(once.resources.memoryMin),
                                               memoryMax := NormalMemory(once.resources.memoryMax)))
  {
    var once := NormalForm(spec, name, namespace);
    assert NormalPorts(NormalPorts(PortsOf(spec))) == NormalPorts(PortsOf(spec));
    if once.metadata.labels.Some? {
      assert UserLabels(once.metadata.labels.value) == once.metadata.labels.value;
    }
  }

  /**
  Normalising again changes nothing if and only if both stored amounts are zero, or whole numbers of
  mebibytes but not of pebibytes; any other memory string reads back as zero.
  */
  lemma NormalFormTwice(spec: ContainerSpec, name: string, namespace: string)
    ensures var once := NormalForm(spec, name, namespace);
            NormalForm(once, name, namespace) == once <==>
              StableMemory(spec.resources.memoryMin) && StableMemory(spec.resources.memoryMax)
  {
    OnlyMemoryChanges(spec, name, namespace);
    NormalMemoryTwice(spec.resources.memoryMin);
    NormalMemoryTwice(spec.resources.memoryMax);
  }

  // ---- Visibility ----

  predicate IsExternalType(t: ServiceType) {
    t.NodePort? || t.LoadBalancer?
  }

  /** Some port with this (32-bit) number is exposed. */
  predicate NumberExposed(ports: seq<ContainerPort>, number: int) {
    exists i :: 0 <= i < |ports| && ToInt32(ports[i].number) == number && !ports[i].visibility.Unexposed?
  }

  function ReportedVisibility(ports: seq<ContainerPort>, number: int): Visibility {
    if !NumberExposed(ports, number) then Unexposed
    else if HasExternal(ports) then External
    else Internal
  }

  /** The container read back for a created spec, before its pods are taken into account. */
  function ReadBack(spec: ContainerSpec, id: string, d: Deployment, svc: Service): Container {
    var c := ContainerFromDeployment(d, id);
    if Exposed(PortsOf(spec)) == [] then c else EnrichWithService(c, svc)
  }

  lemma {:induction false} ExposedAre(ports: seq<ContainerPort>)
    ensures forall p :: p in Exposed(ports) <==> p in ports && !p.visibility.Unexposed?
  {
    if ports != [] {
      var n := |ports| - 1;
      ExposedAre(ports[..n]);
      assert ports == ports[..n] + [ports[n]];
    }
  }

  lemma ServiceTargets(spec: ContainerSpec, id: string, cfg: K8sConfig, number: int)
    ensures var svc := ServiceFor(spec, id, cfg, CreateLabels(spec, id));
            Targets(svc, number) <==> NumberExposed(PortsOf(spec), number)
  {
    var ports := PortsOf(spec);
    var exposed := Exposed(ports);
    var svc := ServiceFor(spec, id, cfg, CreateLabels(spec, id));
    ExposedAre(ports);
    if Targets(svc, number) {
      var i :| 0 <= i < |svc.ports| && svc.ports[i].targetPort == number;
      assert exposed[i] in exposed;
      var k :| 0 <= k < |ports| && ports[k] == exposed[i];
    }
    if NumberExposed(ports, number) {
      var k :| 0 <= k < |ports| && ToInt32(ports[k].number) == number && !ports[k].visibility.Unexposed?;
      assert ports[k] in exposed;
      var i :| 0 <= i < |exposed| && exposed[i] == ports[k];
      assert svc.ports[i].targetPort == number;
    }
  }

  lemma ExternalIsExposed(ports: seq<ContainerPort>)
    ensures HasExternal(Exposed(ports)) <==> exists i :: 0 <= i < |ports| && ports[i].visibility == External
  {
    ExposedAre(ports);
    if i :| 0 <= i < |ports| && ports[i].visibility == External {
      assert ports[i] in Exposed(ports);
    }
    if HasExternal(Exposed(ports)) {
      var i :| 0 <= i < |Exposed(ports)| && Exposed(ports)[i].visibility.External?;
      assert Exposed(ports)[i] in ports;
    }
  }

  lemma ServiceTypeOfExposed(spec: ContainerSpec, cfg: K8sConfig)
    requires IsExternalType(cfg.externalServiceType)
    ensures InferVisibility(ResolveServiceType(cfg, Exposed(PortsOf(spec)))) ==
            if HasExternal(PortsOf(spec)) then External else Internal
  {
    ExternalIsExposed(PortsOf(spec));
  }

  lemma NothingExposed(ports: seq<ContainerPort>, number: int)
    requires Exposed(ports) == []
    ensures !NumberExposed(ports, number)
  {
    ExposedAre(ports);
    forall k | 0 <= k < |ports| ensures ports[k].visibility.Unexposed? {
      assert ports[k] in ports;
    }
  }

  lemma RevealedPort(spec: ContainerSpec, id: string, cfg: K8sConfig, svc: Service, i: nat)
    requires IsExternalType(cfg.externalServiceType) && i < |PortsOf(spec)|
    requires svc.ports == ServiceFor(spec, id, cfg, CreateLabels(spec, id)).ports
    requires svc.serviceType == ServiceFor(spec, id, cfg, CreateLabels(spec, id)).serviceType
    ensures var number := ToInt32(PortsOf(spec)[i].number);
            Revealed(NormalPorts(PortsOf(spec)), svc)[i] ==
            ContainerPort(number, ReportedVisibility(PortsOf(spec), number))
  {
    var number := ToInt32(PortsOf(spec)[i].number);
    ServiceTypeOfExposed(spec, cfg);
    ServiceTargets(spec, id, cfg, number);
    assert Targets(svc, number) <==> Targets(ServiceFor(spec, id, cfg, CreateLabels(spec, id)), number);
    assert NormalPorts(PortsOf(spec))[i] == ContainerPort(number, Unexposed);
  }

  lemma ReadBackPorts(spec: ContainerSpec, id: string, d: Deployment, svc: Service)
    requires d.container.ports == PortNumbers(PortsOf(spec))
    ensures var normal := NormalPorts(PortsOf(spec));
            PortsOf(ReadBack(spec, id, d, svc).spec) ==
            if Exposed(PortsOf(spec)) == [] then normal else Revealed(normal, svc)
  {
    var normal := NormalPorts(PortsOf(spec));
    assert UnexposedPorts(PortNumbers(PortsOf(spec))) == normal;
    assert PortsOf(ContainerFromDeployment(d, id).spec) == normal;
  }

  /**
  Every port list, with every valid external Service type: the ports come back in order, and a port is
  reported as not exposed iff no entry with its number is exposed, otherwise external iff any port of the
  spec is external.
  */
  lemma VisibilityIsTheJoin(spec: ContainerSpec, id: string, cfg: K8sConfig, d: Deployment, svc: Service)
    requires IsExternalType(cfg.externalServiceType)
    requires d.container == BuildDeployment(spec, id, cfg, CreateLabels(spec, id)).container
    requires svc.ports == ServiceFor(spec, id, cfg, CreateLabels(spec, id)).ports
    requires svc.serviceType == ServiceFor(spec, id, cfg, CreateLabels(spec, id)).serviceType
    ensures var ports, back := PortsOf(spec), PortsOf(ReadBack(spec, id, d, svc).spec);
            && |back| == |ports|
            && forall i | 0 <= i < |ports| ::
                 var number := ToInt32(ports[i].number);
                 back[i] == ContainerPort(number, ReportedVisibility(ports, number))
  {
    var ports := PortsOf(spec);
    ReadBackPorts(spec, id, d, svc);
    forall i | 0 <= i < |ports|
      ensures var number := ToInt32(ports[i].number);
              PortsOf(ReadBack(spec, id, d, svc).spec)[i] == ContainerPort(number, ReportedVisibility(ports, number))
    {
      if Exposed(ports) == [] {
        NothingExposed(ports, ToInt32(ports[i].number));
      } else {
        RevealedPort(spec, id, cfg, svc, i);
      }
    }
  }

  ghost predicate Faithful(ports: seq<ContainerPort>) {
    forall i | 0 <= i < |ports| ::
      ReportedVisibility(ports, ToInt32(ports[i].number)) == ports[i].visibility
  }

  /** Two entries with one number where one is exposed and the other is not. */
  ghost predicate NumbersClash(ports: seq<ContainerPort>) {
    exists i, j :: 0 <= i < |ports| && 0 <= j < |ports|
      && ToInt32(ports[i].number) == ToInt32(ports[j].number)
      && ports[i].visibility.Unexposed? && !ports[j].visibility.Unexposed?
  }

  ghost predicate Mixed(ports: seq<ContainerPort>) {
    HasExternal(ports) && exists i :: 0 <= i < |ports| && ports[i].visibility.Internal?
  }

  /** The reported visibilities are the spec's own iff no numbers clash and internal and external are not mixed. */
  lemma VisibilityFaithfulExactly(ports: seq<ContainerPort>)
    ensures Faithful(ports) <==> !NumbersClash(ports) && !Mixed(ports)
  {
    if NumbersClash(ports) {
      var i, j :| 0 <= i < |ports| && 0 <= j < |ports|
        && ToInt32(ports[i].number) == ToInt32(ports[j].number)
        && ports[i].visibility.Unexposed? && !ports[j].visibility.Unexposed?;
      assert NumberExposed(ports, ToInt32(ports[i].number));
    }
    if Mixed(ports) {
      var i :| 0 <= i < |ports| && ports[i].visibility.Internal?;
      assert ReportedVisibility(ports, ToInt32(ports[i].number)) != Internal;
    }
    if !NumbersClash(ports) && !Mixed(ports) {
      forall i | 0 <= i < |ports| ensures ReportedVisibility(ports, ToInt32(ports[i].number)) == ports[i].visibility {
      }
    }
  }

  /** Next to an external port, an internal one is reported as external. */
  lemma MixedPortsAreMisreported(inner: int, outer: int)
    requires ToInt32(inner) != ToInt32(outer)
    ensures var ports := [ContainerPort(inner, Internal), ContainerPort(outer, External)];
            ReportedVisibility(ports, ToInt32(inner)) == External && !Faithful(ports)
  {
    var ports := [ContainerPort(inner, Internal), ContainerPort(outer, External)];
    assert ports[0].visibility == Internal && ports[1].visibility == External;
    assert ReportedVisibility(ports, ToInt32(ports[0].number)) == External;
  }

  /** Of two entries with one number, the unexposed one is reported with the exposed one's visibility. */
  lemma ClashingPortsAreMisreported(number: int)
    ensures var ports := [ContainerPort(number, Internal), ContainerPort(number, Unexposed)];
            ReportedVisibility(ports, ToInt32(number)) == Internal && !Faithful(ports)
  {
    var ports := [ContainerPort(number, Internal), ContainerPort(number, Unexposed)];
    assert ports[0].visibility == Internal && ports[1].visibility == Unexposed;
    assert ReportedVisibility(ports, ToInt32(ports[1].number)) == Internal;
  }
}
