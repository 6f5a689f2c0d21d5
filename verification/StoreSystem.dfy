/**
Many Creates and Deletes at once, interleaved API call by API call, where calls on one ID do not overlap
and any API call may fail. Each ID evolves as if it were alone, and the store's invariant holds in every
state of every run.
*/
module StoreSystem {
  import opened Wrappers
  import opened Errors
  import opened Api
  import opened Kube
  import opened DcmLabels
  import opened Convert
  import opened RoundTrip
  import opened Store
  import opened StoreOperations

  /** The cluster, and for each ID its operation under way or its last one finished. */
  datatype System = System(cluster: Cluster, procs: map<string, Proc>)

  datatype Action = Start(p: Proc) | Call(id: string, answer: Answer)

  ghost predicate Enabled(s: System, x: Action) {
    match x
    case Start(p) => (p.CreateCheck? || p.DeleteFind?) && (p.id in s.procs ==> s.procs[p.id].Done?)
    case Call(id, _) => id in s.procs && !s.procs[id].Done?
  }

  ghost function Next(cfg: K8sConfig, s: System, x: Action): System
    requires Enabled(s, x)
  {
    match x
    case Start(p) => s.(procs := s.procs[p.id := p])
    case Call(id, a) =>
      var (c, p) := Step(cfg, s.cluster, s.procs[id], a);
      System(c, s.procs[id := p])
  }

  ghost predicate IsRun(cfg: K8sConfig, s: System, acts: seq<Action>)
    decreases |acts|, 0
  {
    acts == [] || (var n := |acts| - 1; IsRun(cfg, s, acts[..n]) && Enabled(After(cfg, s, acts[..n]), acts[n]))
  }

  ghost function After(cfg: K8sConfig, s: System, acts: seq<Action>): System
    requires IsRun(cfg, s, acts)
    decreases |acts|, 1
  {
    if acts == [] then s else var n := |acts| - 1; Next(cfg, After(cfg, s, acts[..n]), acts[n])
  }

  // ---- The part of the cluster that belongs to one ID ----

  ghost function Part(c: Cluster, id: string): Cluster {
    Cluster(map n | n in DepsOf(c, id) :: c.deployments[n],
            map n | n in SvcsOf(c, id) :: c.services[n],
            map n | n in PodsOf(c, id) :: c.pods[n])
  }

  /** What an operation between two calls knows about its own objects. */
  ghost predicate ProcOk(c: Cluster, p: Proc) {
    match p
    case CreateSvc(_, id, dep) => dep in DepsOf(c, id)
    case Rollback(id, dep, _) => dep in DepsOf(c, id)
    case DeleteListServices(id, dep) => dep in DepsOf(c, id)
    case DeleteObjects(id, dep, rest) => dep in DepsOf(c, id) && Enumerates(rest, SvcsOf(c, id))
    case _ => true
  }

  ghost predicate SystemOk(s: System) {
    forall id | id in s.procs :: s.procs[id].id == id && ProcOk(s.cluster, s.procs[id])
  }

  /** A success that clashes with an existing name is, for the operation, an AlreadyExists failure. */
  function Effective(c: Cluster, p: Proc, a: Answer): Answer {
    if a.fault.None? && ((p.CreateDeploy? && a.name in c.deployments) || (p.CreateSvc? && a.name in c.services))
    then a.(fault := Some(AlreadyExists))
    else a
  }

  lemma EffectiveStep(cfg: K8sConfig, c: Cluster, p: Proc, a: Answer)
    requires !p.Done?
    ensures Step(cfg, c, p, a) == Step(cfg, c, p, Effective(c, p, a))
  {
  }

  lemma SamePart(c: Cluster, c': Cluster, id: string)
    requires Part(c, id) == Part(c', id)
    ensures DepsOf(c, id) == DepsOf(c', id) && SvcsOf(c, id) == SvcsOf(c', id) && PodsOf(c, id) == PodsOf(c', id)
  {
    assert DepsOf(c, id) == Part(c, id).deployments.Keys && DepsOf(c', id) == Part(c', id).deployments.Keys;
    assert SvcsOf(c, id) == Part(c, id).services.Keys && SvcsOf(c', id) == Part(c', id).services.Keys;
    assert PodsOf(c, id) == Part(c, id).pods.Keys && PodsOf(c', id) == Part(c', id).pods.Keys;
  }

  lemma PartOfPart(c: Cluster, id: string)
    ensures DepsOf(Part(c, id), id) == DepsOf(c, id) && SvcsOf(Part(c, id), id) == SvcsOf(c, id)
  {
  }

  lemma OneLabel(id: string, other: string, labels: Labels)
    requires Selects(InstanceSelector(id), labels) && Selects(InstanceSelector(other), labels)
    ensures id == other
  {
    KeysDiffer();
    assert InstanceId in InstanceSelector(id) && InstanceId in InstanceSelector(other);
  }

  // ---- The four mutations, seen from the ID they belong to and from another ----

  lemma DepsAdded(c: Cluster, name: string, d: Deployment, id: string)
    requires name !in c.deployments
    ensures DepsOf(c.(deployments := c.deployments[name := d]), id) ==
            DepsOf(c, id) + (if Selects(InstanceSelector(id), d.labels) then {name} else {})
  {
  }

  lemma SvcsAdded(c: Cluster, name: string, s: Service, id: string)
    requires name !in c.services
    ensures SvcsOf(c.(services := c.services[name := s]), id) ==
            SvcsOf(c, id) + (if Selects(InstanceSelector(id), s.labels) then {name} else {})
  {
  }

  lemma DeploymentAdded(c: Cluster, name: string, d: Deployment, id: string)
    requires name !in c.deployments
    ensures Part(c.(deployments := c.deployments[name := d]), id) ==
            if Selects(InstanceSelector(id), d.labels)
            then Part(c, id).(deployments := Part(c, id).deployments[name := d]) else Part(c, id)
  {
    var c' := c.(deployments := c.deployments[name := d]);
    DepsAdded(c, name, d, id);
    if Selects(InstanceSelector(id), d.labels) {
      assert Part(c', id).deployments == Part(c, id).deployments[name := d];
    } else {
      assert Part(c', id).deployments == Part(c, id).deployments;
    }
  }

  lemma ServiceAdded(c: Cluster, name: string, s: Service, id: string)
    requires name !in c.services
    ensures Part(c.(services := c.services[name := s]), id) ==
            if Selects(InstanceSelector(id), s.labels)
            then Part(c, id).(services := Part(c, id).services[name := s]) else Part(c, id)
  {
    var c' := c.(services := c.services[name := s]);
    SvcsAdded(c, name, s, id);
    if Selects(InstanceSelector(id), s.labels) {
      assert Part(c', id).services == Part(c, id).services[name := s];
    } else {
      assert Part(c', id).services == Part(c, id).services;
    }
  }

  lemma DeploymentRemoved(c: Cluster, name: string, id: string)
    ensures Part(c.(deployments := c.deployments - {name}), id) ==
            Part(c, id).(deployments := Part(c, id).deployments - {name})
  {
    var c' := c.(deployments := c.deployments - {name});
    assert DepsOf(c', id) == DepsOf(c, id) - {name};
    assert Part(c', id).deployments == Part(c, id).deployments - {name};
  }

  lemma ServiceRemoved(c: Cluster, name: string, id: string)
    ensures Part(c.(services := c.services - {name}), id) ==
            Part(c, id).(services := Part(c, id).services - {name})
  {
    var c' := c.(services := c.services - {name});
    assert SvcsOf(c', id) == SvcsOf(c, id) - {name};
    assert Part(c', id).services == Part(c, id).services - {name};
  }

  lemma AddDeploymentParts(c: Cluster, d: Deployment, a: Answer, id: string, other: string)
    requires Selects(InstanceSelector(id), d.labels) && other != id
    requires a.fault.None? ==> a.name !in c.deployments
    ensures var (c', e) := AddDeployment(c, d, a);
            && Part(c', other) == Part(c, other)
            && AddDeployment(Part(c, id), d, a) == (Part(c', id), e)
  {
    if a.fault.None? {
      var stored := d.(name := a.name, created := a.time);
      DeploymentAdded(c, a.name, stored, id);
      DeploymentAdded(c, a.name, stored, other);
      if Selects(InstanceSelector(other), d.labels) {
        OneLabel(id, other, d.labels);
      }
    }
  }

  lemma AddServiceParts(c: Cluster, s: Service, a: Answer, id: string, other: string)
    requires Selects(InstanceSelector(id), s.labels) && other != id
    requires a.fault.None? ==> a.name !in c.services
    ensures var (c', e) := AddService(c, s, a);
            && Part(c', other) == Part(c, other)
            && AddService(Part(c, id), s, a) == (Part(c', id), e)
  {
    if a.fault.None? {
      ServiceAdded(c, a.name, s.(name := a.name), id);
      ServiceAdded(c, a.name, s.(name := a.name), other);
      if Selects(InstanceSelector(other), s.labels) {
        OneLabel(id, other, s.labels);
      }
    }
  }

  lemma RemoveDeploymentParts(c: Cluster, name: string, a: Answer, id: string, other: string)
    requires name in DepsOf(c, id) && other != id
    ensures var (c', e) := RemoveDeployment(c, name, a);
            && Part(c', other) == Part(c, other)
            && RemoveDeployment(Part(c, id), name, a) == (Part(c', id), e)
  {
    if a.fault.None? {
      DeploymentRemoved(c, name, id);
      DeploymentRemoved(c, name, other);
      if name in DepsOf(c, other) {
        OneLabel(id, other, c.deployments[name].labels);
      }
      assert Part(c, other).deployments - {name} == Part(c, other).deployments;
    }
  }

  lemma RemoveServiceParts(c: Cluster, name: string, a: Answer, id: string, other: string)
    requires name in SvcsOf(c, id) && other != id
    ensures var (c', e) := RemoveService(c, name, a);
            && Part(c', other) == Part(c, other)
            && RemoveService(Part(c, id), name, a) == (Part(c', id), e)
  {
    if a.fault.None? {
      ServiceRemoved(c, name, id);
      ServiceRemoved(c, name, other);
      if name in SvcsOf(c, other) {
        OneLabel(id, other, c.services[name].labels);
      }
      assert Part(c, other).services - {name} == Part(c, other).services;
    }
  }

  ghost predicate Separate(cfg: K8sConfig, c: Cluster, p: Proc, a: Answer, other: string)
    requires !p.Done?
  {
    var (c', p') := Step(cfg, c, p, a);
    && p'.id == p.id
    && Part(c', other) == Part(c, other)
    && Step(cfg, Part(c, p.id), p, a) == (Part(c', p.id), p')
  }

  lemma CreateStepParts(cfg: K8sConfig, c: Cluster, p: Proc, a: Answer, other: string)
    requires p.CreateDeploy? || p.CreateSvc?
    requires a == Effective(c, p, a) && other != p.id
    ensures Separate(cfg, c, p, a, other)
  {
    StoredLabels(p.spec, p.id);
    if p.CreateDeploy? {
      AddDeploymentParts(c, BuildDeployment(p.spec, p.id, cfg, CreateLabels(p.spec, p.id)), a, p.id, other);
    } else {
      AddServiceParts(c, ServiceFor(p.spec, p.id, cfg, CreateLabels(p.spec, p.id)), a, p.id, other);
    }
  }

  lemma RemoveStepParts(cfg: K8sConfig, c: Cluster, p: Proc, a: Answer, other: string)
    requires p.Rollback? || p.DeleteObjects?
    requires ProcOk(c, p) && other != p.id
    ensures Separate(cfg, c, p, a, other)
  {
    if p.DeleteObjects? && p.rest != [] {
      assert p.rest[0] in p.rest;
      RemoveServiceParts(c, p.rest[0], a, p.id, other);
    } else {
      RemoveDeploymentParts(c, p.dep, a, p.id, other);
    }
  }

  /**
  One API call of an operation on p.id: no other ID's part changes, and the operation sees and does the
  same when its own part is the whole cluster.
  */
  lemma StepParts(cfg: K8sConfig, c: Cluster, p: Proc, a: Answer, other: string)
    requires !p.Done? && ProcOk(c, p) && other != p.id
    ensures var (c', p') := Step(cfg, c, p, a);
            && p'.id == p.id
            && Part(c', other) == Part(c, other)
            && Step(cfg, Part(c, p.id), p, Effective(c, p, a)) == (Part(c', p.id), p')
  {
    EffectiveStep(cfg, c, p, a);
    var e := Effective(c, p, a);
    assert Separate(cfg, c, p, e, other) by {
      if p.CreateDeploy? || p.CreateSvc? {
        CreateStepParts(cfg, c, p, e, other);
      } else if p.Rollback? || p.DeleteObjects? {
        RemoveStepParts(cfg, c, p, e, other);
      } else {
        PartOfPart(c, p.id);
      }
    }
  }

  lemma ProcOkByPart(c: Cluster, c': Cluster, p: Proc)
    requires Part(c, p.id) == Part(c', p.id) && ProcOk(c, p)
    ensures ProcOk(c', p)
  {
    SamePart(c, c', p.id);
  }

  lemma StepKeepsProcOk(cfg: K8sConfig, c: Cluster, p: Proc, a: Answer)
    requires !p.Done? && ProcOk(c, p)
    ensures var (c', p') := Step(cfg, c, p, a); ProcOk(c', p')
  {
    var (c', p') := Step(cfg, c, p, a);
    match p {
      case CreateDeploy(spec, id) => StoredLabels(spec, id);
      case DeleteFind(id) =>
        if p'.DeleteListServices? {
          OnlyNameOf(DepsOf(c, id));
        }
      case DeleteObjects(id, dep, rest) =>
        if p'.DeleteObjects? {
          assert rest == [rest[0]] + rest[1..] && rest[0] in rest;
          assert SvcsOf(c', id) == SvcsOf(c, id) - {rest[0]};
          assert DepsOf(c', id) == DepsOf(c, id);
        }
      case _ =>
    }
  }

  lemma CallKeepsOthersOk(cfg: K8sConfig, s: System, i: string, a: Answer, id: string)
    requires SystemOk(s) && Enabled(s, Call(i, a)) && id in s.procs && id != i
    ensures ProcOk(Next(cfg, s, Call(i, a)).cluster, s.procs[id])
  {
    StepParts(cfg, s.cluster, s.procs[i], a, id);
    ProcOkByPart(s.cluster, Next(cfg, s, Call(i, a)).cluster, s.procs[id]);
  }

  lemma NextKeepsSystemOk(cfg: K8sConfig, s: System, x: Action)
    requires SystemOk(s) && Enabled(s, x)
    ensures SystemOk(Next(cfg, s, x))
  {
    if x.Call? {
      StepKeepsProcOk(cfg, s.cluster, s.procs[x.id], x.answer);
      StepParts(cfg, s.cluster, s.procs[x.id], x.answer, x.id + "?");
      forall id | id in s.procs && id != x.id ensures ProcOk(Next(cfg, s, x).cluster, s.procs[id]) {
        CallKeepsOthersOk(cfg, s, x.id, x.answer, id);
      }
    }
  }

  lemma {:induction false} RunKeepsSystemOk(cfg: K8sConfig, s: System, acts: seq<Action>)
    requires SystemOk(s) && IsRun(cfg, s, acts)
    ensures SystemOk(After(cfg, s, acts))
  {
    if acts != [] {
      var n := |acts| - 1;
      RunKeepsSystemOk(cfg, s, acts[..n]);
      NextKeepsSystemOk(cfg, After(cfg, s, acts[..n]), acts[n]);
    }
  }

  // ---- Independence of IDs ----

  /** The system with only one ID's objects and operations. */
  ghost function Solo(s: System, id: string): System {
    System(Part(s.cluster, id), map k | k in s.procs && k == id :: s.procs[k])
  }

  predicate Concerns(x: Action, id: string) {
    match x
    case Start(p) => p.id == id
    case Call(i, _) => i == id
  }

  /** An action as its own ID experiences it. */
  ghost function Seen(s: System, x: Action): Action
    requires Enabled(s, x)
  {
    if x.Call? then x.(answer := Effective(s.cluster, s.procs[x.id], x.answer)) else x
  }

  /** The actions of one ID, in order, with the answers it experienced. */
  ghost function OwnActions(cfg: K8sConfig, s: System, acts: seq<Action>, id: string): seq<Action>
    requires IsRun(cfg, s, acts)
  {
    if acts == [] then []
    else
      var n := |acts| - 1;
      OwnActions(cfg, s, acts[..n], id) +
      (if Concerns(acts[n], id) then [Seen(After(cfg, s, acts[..n]), acts[n])] else [])
  }

  lemma SoloStart(cfg: K8sConfig, s: System, p: Proc, id: string)
    requires Enabled(s, Start(p))
    ensures var s' := Next(cfg, s, Start(p));
            if p.id == id then Enabled(Solo(s, id), Start(p)) && Next(cfg, Solo(s, id), Start(p)) == Solo(s', id)
            else Solo(s', id) == Solo(s, id)
  {
    var s' := Next(cfg, s, Start(p));
    assert Solo(s', id).procs == if p.id == id then Solo(s, id).procs[id := p] else Solo(s, id).procs;
  }

  lemma SoloOwnCall(cfg: K8sConfig, s: System, id: string, a: Answer)
    requires SystemOk(s) && Enabled(s, Call(id, a))
    ensures var x := Call(id, Effective(s.cluster, s.procs[id], a));
            && Enabled(Solo(s, id), x)
            && Next(cfg, Solo(s, id), x) == Solo(Next(cfg, s, Call(id, a)), id)
  {
    var p := s.procs[id];
    StepParts(cfg, s.cluster, p, a, id + "?");
    var s' := Next(cfg, s, Call(id, a));
    assert Solo(s', id).procs == Solo(s, id).procs[id := s'.procs[id]];
  }

  lemma SoloOtherCall(cfg: K8sConfig, s: System, i: string, a: Answer, id: string)
    requires SystemOk(s) && Enabled(s, Call(i, a)) && i != id
    ensures Solo(Next(cfg, s, Call(i, a)), id) == Solo(s, id)
  {
    StepParts(cfg, s.cluster, s.procs[i], a, id);
    var s' := Next(cfg, s, Call(i, a));
    assert Solo(s', id).procs == Solo(s, id).procs;
  }

  lemma SoloStep(cfg: K8sConfig, s: System, x: Action, id: string)
    requires SystemOk(s) && Enabled(s, x)
    ensures if Concerns(x, id)
            then Enabled(Solo(s, id), Seen(s, x)) && Next(cfg, Solo(s, id), Seen(s, x)) == Solo(Next(cfg, s, x), id)
            else Solo(Next(cfg, s, x), id) == Solo(s, id)
  {
    match x {
      case Start(p) => SoloStart(cfg, s, p, id);
      case Call(i, a) =>
        if i == id {
          SoloOwnCall(cfg, s, id, a);
        } else {
          SoloOtherCall(cfg, s, i, a, id);
        }
    }
  }

  /**
  Independence: in every interleaving where calls on one ID do not overlap, the objects, the operation in
  progress and the results of an ID are those of the run in which only its own calls happen.
  */
  lemma {:induction false} IdsAreIndependent(cfg: K8sConfig, s: System, acts: seq<Action>, id: string)
    requires SystemOk(s) && IsRun(cfg, s, acts)
    ensures var own := OwnActions(cfg, s, acts, id);
            && IsRun(cfg, Solo(s, id), own)
            && After(cfg, Solo(s, id), own) == Solo(After(cfg, s, acts), id)
  {
    if acts != [] {
      var n := |acts| - 1;
      IdsAreIndependent(cfg, s, acts[..n], id);
      RunKeepsSystemOk(cfg, s, acts[..n]);
      var before := After(cfg, s, acts[..n]);
      SoloStep(cfg, before, acts[n], id);
      var own := OwnActions(cfg, s, acts[..n], id);
      var all := OwnActions(cfg, s, acts, id);
      if Concerns(acts[n], id) {
        assert all == own + [Seen(before, acts[n])];
        assert all[..|all| - 1] == own;
      } else {
        assert all == own;
      }
    }
  }

  /** A run that only lets one operation make its calls, until it is done, is that operation alone. */
  lemma {:induction false} CallsAreTheOperation(cfg: K8sConfig, s: System, id: string, answers: nat -> Answer, acts: seq<Action>)
    requires id in s.procs && IsRun(cfg, s, acts)
    requires forall i | 0 <= i < |acts| :: acts[i] == Call(id, answers(i))
    ensures var s' := After(cfg, s, acts);
            && id in s'.procs
            && RunOp(cfg, s.cluster, s.procs[id], answers, 0) == RunOp(cfg, s'.cluster, s'.procs[id], answers, |acts|)
            && (s'.procs[id].Done? ==>
                  RunOp(cfg, s.cluster, s.procs[id], answers, 0) == (s'.cluster, s'.procs[id].outcome))
  {
    if acts != [] {
      var n := |acts| - 1;
      CallsAreTheOperation(cfg, s, id, answers, acts[..n]);
      var before := After(cfg, s, acts[..n]);
      OneCall(cfg, before.cluster, before.procs[id], answers, n);
    }
  }

  // ---- The store's invariant under faults ----

  ghost predicate Tidy(c: Cluster, id: string) {
    && |DepsOf(c, id)| <= 1
    && |SvcsOf(c, id)| <= 1
    && (SvcsOf(c, id) != {} ==> DepsOf(c, id) != {})
  }

  ghost predicate ProcTidy(c: Cluster, p: Proc) {
    match p
    case CreateDeploy(_, id) => DepsOf(c, id) == {}
    case CreateSvc(_, id, dep) => DepsOf(c, id) == {dep} && SvcsOf(c, id) == {}
    case Rollback(id, dep, _) => DepsOf(c, id) == {dep} && SvcsOf(c, id) == {}
    case _ => true
  }

  ghost predicate StoreInv(s: System) {
    && SystemOk(s)
    && (forall id :: Tidy(s.cluster, id))
    && (forall id | id in s.procs :: ProcTidy(s.cluster, s.procs[id]))
  }

  lemma FirstDeployment(c: Cluster, d: Deployment, a: Answer, id: string)
    requires Selects(InstanceSelector(id), d.labels) && Tidy(c, id) && DepsOf(c, id) == {}
    ensures var (c', e) := AddDeployment(c, d, a);
            Tidy(c', id) && (e.None? ==> DepsOf(c', id) == {a.name} && SvcsOf(c', id) == {})
  {
    var (c', e) := AddDeployment(c, d, a);
    if e.None? {
      assert DepsOf(c', id) == {a.name} && SvcsOf(c', id) == SvcsOf(c, id);
    }
  }

  lemma FirstService(c: Cluster, s: Service, a: Answer, id: string, dep: string)
    requires Selects(InstanceSelector(id), s.labels) && DepsOf(c, id) == {dep} && SvcsOf(c, id) == {}
    ensures var (c', e) := AddService(c, s, a); Tidy(c', id) && (e.Some? ==> c' == c)
  {
    var (c', e) := AddService(c, s, a);
    if e.None? {
      assert SvcsOf(c', id) == {a.name} && DepsOf(c', id) == DepsOf(c, id);
    }
  }

  lemma BuiltForId(cfg: K8sConfig, spec: ContainerSpec, id: string)
    ensures Selects(InstanceSelector(id), BuildDeployment(spec, id, cfg, CreateLabels(spec, id)).labels)
    ensures Selects(InstanceSelector(id), ServiceFor(spec, id, cfg, CreateLabels(spec, id)).labels)
  {
    StoredLabels(spec, id);
  }

  lemma CreateStepKeepsTidy(cfg: K8sConfig, c: Cluster, p: Proc, a: Answer)
    requires p.CreateDeploy? || p.CreateSvc?
    requires Tidy(c, p.id) && ProcTidy(c, p)
    ensures var (c', p') := Step(cfg, c, p, a); Tidy(c', p.id) && ProcTidy(c', p')
  {
    BuiltForId(cfg, p.spec, p.id);
    if p.CreateDeploy? {
      FirstDeployment(c, BuildDeployment(p.spec, p.id, cfg, CreateLabels(p.spec, p.id)), a, p.id);
    } else {
      FirstService(c, ServiceFor(p.spec, p.id, cfg, CreateLabels(p.spec, p.id)), a, p.id, p.dep);
    }
  }

  lemma RollbackKeepsTidy(c: Cluster, id: string, dep: string, a: Answer)
    requires DepsOf(c, id) == {dep} && SvcsOf(c, id) == {}
    ensures Tidy(RemoveDeployment(c, dep, a).0, id)
  {
    var c' := RemoveDeployment(c, dep, a).0;
    if c' != c {
      assert DepsOf(c', id) == {} && SvcsOf(c', id) == SvcsOf(c, id);
    }
  }

  lemma OwnStepKeepsTidy(cfg: K8sConfig, c: Cluster, p: Proc, a: Answer)
    requires !p.Done? && ProcOk(c, p) && Tidy(c, p.id) && ProcTidy(c, p)
    ensures var (c', p') := Step(cfg, c, p, a); Tidy(c', p.id) && ProcTidy(c', p')
  {
    if p.CreateDeploy? || p.CreateSvc? {
      CreateStepKeepsTidy(cfg, c, p, a);
    } else if p.Rollback? {
      RollbackKeepsTidy(c, p.id, p.dep, a);
    } else if p.DeleteObjects? {
      DeleteStepKeepsTidy(c, Step(cfg, c, p, a).0, p.id, p.dep, p.rest, a);
    }
  }

  lemma DeleteStepKeepsTidy(c: Cluster, c': Cluster, id: string, dep: string, rest: seq<string>, a: Answer)
    requires dep in DepsOf(c, id) && Enumerates(rest, SvcsOf(c, id)) && Tidy(c, id)
    requires c' == if rest == [] then RemoveDeployment(c, dep, a).0 else RemoveService(c, rest[0], a).0
    ensures Tidy(c', id)
  {
    if a.fault.None? {
      if rest == [] {
        assert SvcsOf(c, id) == {} by { assert forall n :: n in rest <==> n in SvcsOf(c, id); }
        assert SvcsOf(c', id) == SvcsOf(c, id);
        assert DepsOf(c', id) == DepsOf(c, id) - {dep};
      } else {
        assert rest[0] in rest;
        assert SvcsOf(c', id) == SvcsOf(c, id) - {rest[0]};
        assert DepsOf(c', id) == DepsOf(c, id);
      }
    }
  }

  lemma OthersStayTidy(cfg: K8sConfig, s: System, x: Action, id: string)
    requires StoreInv(s) && Enabled(s, x) && x.Call? && id != x.id
    ensures var s' := Next(cfg, s, x);
            Tidy(s'.cluster, id) && (id in s'.procs ==> ProcTidy(s'.cluster, s'.procs[id]))
  {
    StepParts(cfg, s.cluster, s.procs[x.id], x.answer, id);
    SamePart(s.cluster, Next(cfg, s, x).cluster, id);
    assert Tidy(s.cluster, id);
  }

  lemma NextKeepsStoreInv(cfg: K8sConfig, s: System, x: Action)
    requires StoreInv(s) && Enabled(s, x)
    ensures StoreInv(Next(cfg, s, x))
  {
    NextKeepsSystemOk(cfg, s, x);
    if x.Call? {
      var s' := Next(cfg, s, x);
      OwnStepKeepsTidy(cfg, s.cluster, s.procs[x.id], x.answer);
      forall id
        ensures Tidy(s'.cluster, id) && (id in s'.procs ==> ProcTidy(s'.cluster, s'.procs[id]))
      {
        if id != x.id {
          OthersStayTidy(cfg, s, x, id);
        }
      }
    }
  }

  /**
  In every state of every run, with arbitrary failures of calls and of rollbacks, each ID has at most one
  Deployment and at most one Service, and no Service exists without a Deployment of the same ID.
  */
  lemma {:induction false} StoreInvariantUnderFaults(cfg: K8sConfig, s: System, acts: seq<Action>)
    requires StoreInv(s) && IsRun(cfg, s, acts)
    ensures StoreInv(After(cfg, s, acts))
    ensures forall id :: Tidy(After(cfg, s, acts).cluster, id)
  {
    if acts != [] {
      var n := |acts| - 1;
      StoreInvariantUnderFaults(cfg, s, acts[..n]);
      NextKeepsStoreInv(cfg, After(cfg, s, acts[..n]), acts[n]);
    }
  }

  /** The invariant holds to begin with in a cluster without objects of the provider. */
  lemma EmptyClusterIsTidy(pods: map<string, Pod>)
    ensures StoreInv(System(Cluster(map[], map[], pods), map[]))
  {
    var c := Cluster(map[], map[], pods);
    assert forall id :: DepsOf(c, id) == {} && SvcsOf(c, id) == {};
  }
}
