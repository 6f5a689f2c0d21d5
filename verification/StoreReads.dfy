/** What a Get returns for a container that Create made, whatever pods it has by then. */
module StoreReads {
  import opened Api
  import opened Kube
  import opened Convert
  import opened RoundTrip
  import opened Store
  import opened StoreOperations

  lemma {:induction false} EnumeratedLength(order: seq<string>, names: set<string>)
    requires Enumerates(order, names)
    ensures |order| == |names|
  {
    if order == [] {
      assert names == {} by { assert forall n :: n in order <==> n in names; }
    } else {
      var n := order[0];
      assert order == [n] + order[1..] && n in order;
      EnumeratedLength(order[1..], names - {n});
    }
  }

  lemma ListingOfNone<T>(objects: map<string, T>, items: seq<T>)
    requires Lists(objects, {}, items)
    ensures items == []
  {
    var order :| ListedIn(objects, {}, items, order);
    EnumeratedLength(order, {});
  }

  lemma ListingOfOne<T>(objects: map<string, T>, name: string, items: seq<T>)
    requires name in objects && Lists(objects, {name}, items)
    ensures items == [objects[name]]
  {
    var order :| ListedIn(objects, {name}, items, order);
    EnumeratedLength(order, {name});
    assert order[0] in order;
  }

  /** Pods change a container's status, address and update time, never its other spec fields or its ports. */
  lemma EnrichKeepsSpec(c: Container, d: Deployment, pods: seq<Pod>, svcs: seq<Service>)
    requires Enrich(c, d, pods, svcs).Ok?
    ensures var k := Enrich(c, d, pods, svcs).value;
            && k.id == c.id && k.createTime == c.createTime
            && k.spec.image == c.spec.image && k.spec.metadata == c.spec.metadata
            && k.spec.process == c.spec.process && k.spec.resources == c.spec.resources
            && (k.service.Some? <==> |svcs| == 1 || c.service.Some?)
            && PortsOf(k.spec) == if |svcs| == 1 then Revealed(PortsOf(c.spec), svcs[0]) else PortsOf(c.spec)
  {
    assert |svcs| == 1 && PortsOf(c.spec) == [] ==> Revealed(PortsOf(c.spec), svcs[0]) == [];
  }

  /**
  Create, then Get: for every spec with which Create succeeds for an ID without leftover Services, a Get
  that answers returns the spec's normal form under the generated name, each port with the visibility
  inferred from the Service, and Service details exactly when some port is exposed.
  */
  lemma CreateThenGet(cfg: K8sConfig, c: Cluster, spec: ContainerSpec, id: string, answers: nat -> Answer,
                      pods: seq<Pod>, svcs: seq<Service>)
    requires IsExternalType(cfg.externalServiceType) && SvcsOf(c, id) == {}
    requires RunOp(cfg, c, CreateCheck(spec, id), answers, 0).1.Created?
    requires var c' := RunOp(cfg, c, CreateCheck(spec, id), answers, 0).0;
             Lists(c'.services, SvcsOf(c', id), svcs) && !Get(c', id, pods, svcs).Err?
    ensures var c' := RunOp(cfg, c, CreateCheck(spec, id), answers, 0).0;
            var k := Get(c', id, pods, svcs).value;
            var n := NormalForm(spec, answers(1).name, cfg.namespace);
            && k.id == id && k.createTime == answers(1).time
            && k.spec.image == n.image && k.spec.metadata == n.metadata
            && k.spec.process == n.process && k.spec.resources == n.resources
            && (k.service.Some? <==> NeedsService(spec))
            && |PortsOf(k.spec)| == |PortsOf(spec)|
            && forall i | 0 <= i < |PortsOf(spec)| ::
                 var number := ToInt32(PortsOf(spec)[i].number);
                 PortsOf(k.spec)[i] == ContainerPort(number, ReportedVisibility(PortsOf(spec), number))
  {
    CreateIsAllOrNothing(cfg, c, spec, id, answers);
    CreatedObjectsAreSelected(cfg, spec, id, answers(1), answers(2), id);
    NeedsServiceIff(spec);
    var c' := RunOp(cfg, c, CreateCheck(spec, id), answers, 0).0;
    var d, s := StoredDeployment(cfg, spec, id, answers(1)), StoredService(cfg, spec, id, answers(2));
    CreatedNames(cfg, c, c', spec, id, answers);
    OnlyNameOf(DepsOf(c', id));
    if NeedsService(spec) {
      ListingOfOne(c'.services, s.name, svcs);
    } else {
      ListingOfNone(c'.services, svcs);
    }
    DeploymentRoundTrip(spec, id, cfg, answers(1).name, answers(1).time);
    EnrichKeepsSpec(ContainerFromDeployment(d, id), d, pods, svcs);
    VisibilityIsTheJoin(spec, id, cfg, d, s);
    ReadBackPorts(spec, id, d, s);
  }

  lemma CreatedNames(cfg: K8sConfig, c: Cluster, c': Cluster, spec: ContainerSpec, id: string, answers: nat -> Answer)
    requires CreateEffect(cfg, c, c', spec, id, answers) && DepsOf(c, id) == {} && SvcsOf(c, id) == {}
    ensures DepsOf(c', id) == {answers(1).name}
    ensures SvcsOf(c', id) == if NeedsService(spec) then {answers(2).name} else {}
  {
    CreatedObjectsAreSelected(cfg, spec, id, answers(1), answers(2), id);
  }
}
