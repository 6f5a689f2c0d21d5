/** Deriving an instance's status from its Deployment and its pods. */
module Reconcile {
  import opened Wrappers
  import opened Status
  import opened Kube
  import Convert
  import Store

  datatype Report = Report(status: ContainerStatus, message: string)

  /** The first waiting or terminated reason that is not empty. */
  function FailureReason(states: seq<ContainerState>): string {
    if states == [] then ""
    else if states[0].waiting.Some? && states[0].waiting.value != "" then states[0].waiting.value
    else if states[0].terminated.Some? && states[0].terminated.value != "" then states[0].terminated.value
    else FailureReason(states[1..])
  }

  const ReplicaFailure := "ReplicaFailure"

  function FirstReplicaFailure(conditions: seq<Condition>): Option<Condition> {
    if conditions == [] then None
    else if conditions[0].kind == ReplicaFailure && conditions[0].isTrue then Some(conditions[0])
    else FirstReplicaFailure(conditions[1..])
  }

  /** The report, or None when nothing is to be published. */
  function ReconcileStatus(deploy: Option<Deployment>, pod: Option<Pod>): Option<Report> {
    if deploy.None? && pod.None? then Some(Report(DELETED, "resource no longer exists"))
    else if pod.Some? then
      match Convert.PhaseStatus(pod.value.phase)
      case None => None
      case Some(status) =>
        var reason := FailureReason(pod.value.states);
        Some(Report(status, if status == FAILED && reason != "" then reason else PhaseText(pod.value.phase)))
    else if deploy.value.replicas == Some(0) then Some(Report(FAILED, "deployment scaled to zero"))
    else
      match FirstReplicaFailure(deploy.value.conditions)
      case Some(c) => Some(Report(FAILED, if c.message != "" then c.message else "replica failure"))
      case None => Some(Report(PENDING, "waiting for pods"))
  }

  lemma {:induction false} ReplicaFailureFound(conditions: seq<Condition>)
    ensures FirstReplicaFailure(conditions).Some? <==>
            exists i :: 0 <= i < |conditions| && conditions[i].kind == ReplicaFailure && conditions[i].isTrue
  {
    if conditions != [] {
      ReplicaFailureFound(conditions[1..]);
      assert forall i | 1 <= i < |conditions| :: conditions[i] == conditions[1..][i - 1];
    }
  }

  /**
  Without a pod: always published; DELETED iff the Deployment is gone too, FAILED iff it is scaled to zero or
  reports a replica failure, and PENDING otherwise.
  */
  lemma StatusWithoutPod(deploy: Option<Deployment>)
    ensures var r := ReconcileStatus(deploy, None);
            && r.Some?
            && (r.value.status == DELETED <==> deploy.None?)
            && (r.value.status == FAILED <==>
                  deploy.Some? &&
                  (deploy.value.replicas == Some(0) ||
                   exists i :: 0 <= i < |deploy.value.conditions|
                     && deploy.value.conditions[i].kind == ReplicaFailure && deploy.value.conditions[i].isTrue))
            && r.value.status in {DELETED, FAILED, PENDING}
  {
    if deploy.Some? {
      ReplicaFailureFound(deploy.value.conditions);
    }
  }

  // ---- What a report says, told from the objects ----

  /** A status can be derived: there is no pod, or its phase is one of the four that have a status. */
  ghost predicate Publishable(deploy: Option<Deployment>, pod: Option<Pod>) {
    pod.Some? ==> pod.value.phase in {PodPending, PodRunning, PodFailed, PodUnknown}
  }

  /** The Deployment itself reports that it cannot have pods. */
  ghost predicate CannotHavePods(d: Deployment) {
    d.replicas == Some(0) ||
    exists i :: 0 <= i < |d.conditions| && d.conditions[i].kind == "ReplicaFailure" && d.conditions[i].isTrue
  }

  /** With a pod its phase decides; without one, DELETED, FAILED or PENDING by the Deployment. */
  ghost predicate TellsStatus(status: ContainerStatus, deploy: Option<Deployment>, pod: Option<Pod>) {
    if pod.Some? then
      && (status == PENDING <==> pod.value.phase == PodPending)
      && (status == RUNNING <==> pod.value.phase == PodRunning)
      && (status == FAILED <==> pod.value.phase == PodFailed)
      && (status == UNKNOWN <==> pod.value.phase == PodUnknown)
    else
      && (status == DELETED <==> deploy.None?)
      && (status == FAILED <==> deploy.Some? && CannotHavePods(deploy.value))
      && status != RUNNING && status != UNKNOWN
  }

  /** The reason of a container's state: that of waiting if it has one, otherwise that of termination. */
  ghost predicate HasReason(state: ContainerState, reason: string) {
    && reason != ""
    && (state.waiting == Some(reason)
        || ((state.waiting.None? || state.waiting == Some("")) && state.terminated == Some(reason)))
  }

  ghost predicate Reasonless(state: ContainerState) {
    (state.waiting.None? || state.waiting == Some("")) && (state.terminated.None? || state.terminated == Some(""))
  }

  ghost predicate FirstReason(reason: string, states: seq<ContainerState>) {
    exists i :: 0 <= i < |states| && HasReason(states[i], reason) && forall k | 0 <= k < i :: Reasonless(states[k])
  }

  /** The first reason any container gives, or the phase when none gives one. */
  ghost predicate TellsFailure(message: string, states: seq<ContainerState>) {
    if forall i | 0 <= i < |states| :: Reasonless(states[i]) then message == "Failed" else FirstReason(message, states)
  }

  /** The first true ReplicaFailure condition's message, or a general one when it is empty. */
  ghost predicate TellsReplicaFailure(message: string, conditions: seq<Condition>) {
    exists i :: 0 <= i < |conditions|
      && conditions[i].kind == "ReplicaFailure" && conditions[i].isTrue
      && message == (if conditions[i].message != "" then conditions[i].message else "replica failure")
      && forall k | 0 <= k < i :: !(conditions[k].kind == "ReplicaFailure" && conditions[k].isTrue)
  }

  ghost predicate TellsMessage(message: string, deploy: Option<Deployment>, pod: Option<Pod>) {
    if pod.Some? then
      && (pod.value.phase == PodFailed ==> TellsFailure(message, pod.value.states))
      && (pod.value.phase == PodPending ==> message == "Pending")
      && (pod.value.phase == PodRunning ==> message == "Running")
      && (pod.value.phase == PodUnknown ==> message == "Unknown")
    else if deploy.None? then message == "resource no longer exists"
    else if deploy.value.replicas == Some(0) then message == "deployment scaled to zero"
    else if CannotHavePods(deploy.value) then TellsReplicaFailure(message, deploy.value.conditions)
    else message == "waiting for pods"
  }

  lemma ReasonOfRest(states: seq<ContainerState>, reason: string)
    requires states != [] && Reasonless(states[0]) && FirstReason(reason, states[1..])
    ensures FirstReason(reason, states)
  {
    var j :| 0 <= j < |states| - 1 && HasReason(states[1..][j], reason)
             && forall k | 0 <= k < j :: Reasonless(states[1..][k]);
    assert forall i | 1 <= i < |states| :: states[i] == states[1..][i - 1];
    assert HasReason(states[j + 1], reason);
  }

  lemma {:induction false} FailureReasonFound(states: seq<ContainerState>)
    ensures FailureReason(states) == "" <==> forall i | 0 <= i < |states| :: Reasonless(states[i])
    ensures FailureReason(states) != "" ==> FirstReason(FailureReason(states), states)
  {
    if states != [] {
      FailureReasonFound(states[1..]);
      if !Reasonless(states[0]) {
        assert HasReason(states[0], FailureReason(states));
      } else {
        assert forall i | 1 <= i < |states| :: states[i] == states[1..][i - 1];
        if FailureReason(states) != "" {
          ReasonOfRest(states, FailureReason(states));
        }
      }
    }
  }

  lemma {:induction false} FirstReplicaFailureFound(conditions: seq<Condition>)
    requires FirstReplicaFailure(conditions).Some?
    ensures var c := FirstReplicaFailure(conditions).value;
            TellsReplicaFailure(if c.message != "" then c.message else "replica failure", conditions)
  {
    if !(conditions[0].kind == ReplicaFailure && conditions[0].isTrue) {
      FirstReplicaFailureFound(conditions[1..]);
      var c := FirstReplicaFailure(conditions).value;
      var message := if c.message != "" then c.message else "replica failure";
      var j :| 0 <= j < |conditions| - 1
        && conditions[1..][j].kind == "ReplicaFailure" && conditions[1..][j].isTrue
        && message == (if conditions[1..][j].message != "" then conditions[1..][j].message else "replica failure")
        && forall k | 0 <= k < j :: !(conditions[1..][k].kind == "ReplicaFailure" && conditions[1..][k].isTrue);
      assert conditions[j + 1] == conditions[1..][j];
      assert forall k | 1 <= k < |conditions| :: conditions[k] == conditions[1..][k - 1];
    }
  }

  /**
  For every Deployment and pod, present or not: a report is made exactly when a status can be derived, and
  its status and its message are those the objects tell.
  */
  lemma ReportTellsObjects(deploy: Option<Deployment>, pod: Option<Pod>)
    ensures var r := ReconcileStatus(deploy, pod);
            && (r.Some? <==> Publishable(deploy, pod))
            && (r.Some? ==> TellsStatus(r.value.status, deploy, pod) && TellsMessage(r.value.message, deploy, pod))
  {
    if pod.Some? {
      FailureReasonFound(pod.value.states);
    } else if deploy.Some? {
      ReplicaFailureFound(deploy.value.conditions);
      if deploy.value.replicas != Some(0) && FirstReplicaFailure(deploy.value.conditions).Some? {
        FirstReplicaFailureFound(deploy.value.conditions);
      }
    }
  }

  function PhasePriority(phase: PodPhase): int {
    match phase
    case PodFailed => 4
    case PodUnknown => 3
    case PodPending => 2
    case PodRunning => 1
    case PodSucceeded => 0
    case OtherPhase(_) => 0
  }

  /** The earliest listed pod of the greatest priority. */
  function WorstPod(pods: seq<Pod>): Option<Pod> {
    if pods == [] then None
    else
      var n := |pods| - 1;
      match WorstPod(pods[..n])
      case None => Some(pods[n])
      case Some(w) => if PhasePriority(pods[n].phase) > PhasePriority(w.phase) then Some(pods[n]) else Some(w)
  }

  /** Item i is of the greatest priority listed, and none before it is. */
  ghost predicate FirstWorst(items: seq<Pod>, i: int) {
    && 0 <= i < |items|
    && (forall k | 0 <= k < |items| :: PhasePriority(items[k].phase) <= PhasePriority(items[i].phase))
    && (forall k | 0 <= k < i :: PhasePriority(items[k].phase) < PhasePriority(items[i].phase))
  }

  /** lookupPodByIndex over the indexed pods, in the order the index returns them. */
  method LookupPod(items: seq<Pod>) returns (worst: Option<Pod>)
    ensures worst == WorstPod(items)
    ensures worst.None? <==> items == []
    ensures worst.Some? ==> worst.value in items
    ensures worst.Some? ==> forall p | p in items :: PhasePriority(p.phase) <= PhasePriority(worst.value.phase)
    ensures worst.Some? ==> exists i :: FirstWorst(items, i) && items[i] == worst.value
  {
    if |items| == 0 {
      return None;
    }
    if |items| == 1 {
      assert items[..0] == [];
      assert FirstWorst(items, 0);
      return Some(items[0]);
    }
    worst := None;
    var worstPriority := -1;
    ghost var at := 0;
    for i := 0 to |items|
      invariant worst == WorstPod(items[..i])
      invariant worstPriority == if worst.None? then -1 else PhasePriority(worst.value.phase)
      invariant worst.None? <==> i == 0
      invariant worst.Some? ==> worst.value in items
      invariant forall k | 0 <= k < i :: PhasePriority(items[k].phase) <= worstPriority
      invariant i > 0 ==> 0 <= at < i && worst == Some(items[at])
      invariant i > 0 ==> forall k | 0 <= k < at :: PhasePriority(items[k].phase) < worstPriority
    {
      assert items[..i + 1][..i] == items[..i];
      var p := PhasePriority(items[i].phase);
      if p > worstPriority {
        worstPriority := p;
        worst := Some(items[i]);
        at := i;
      }
    }
    assert items[..|items|] == items;
    assert FirstWorst(items, at);
  }

  // ---- Severity ----

  /** How concerning a published status is; nothing published counts least. */
  function Severity(status: Option<ContainerStatus>): int {
    match status
    case Some(FAILED) => 4
    case Some(UNKNOWN) => 3
    case Some(PENDING) => 2
    case Some(RUNNING) => 1
    case Some(DELETED) => 0
    case None => 0
  }

  function StatusOf(report: Option<Report>): Option<ContainerStatus> {
    if report.Some? then Some(report.value.status) else None
  }

  function PodStatus(pod: Pod): Option<ContainerStatus> {
    StatusOf(ReconcileStatus(None, Some(pod)))
  }

  lemma {:induction false} WorstPodIsWorst(pods: seq<Pod>)
    requires pods != []
    ensures WorstPod(pods).Some? && WorstPod(pods).value in pods
    ensures forall p | p in pods :: PhasePriority(p.phase) <= PhasePriority(WorstPod(pods).value.phase)
  {
    var n := |pods| - 1;
    if n > 0 {
      WorstPodIsWorst(pods[..n]);
    }
    forall p | p in pods ensures p == pods[n] || (n > 0 && p in pods[..n]) {
      var i :| 0 <= i < |pods| && pods[i] == p;
      assert i < n ==> pods[..n][i] == p;
    }
  }

  /**
  The status published for an instance with pods has the greatest severity any of its pods has, whatever
  its Deployment; nothing is published iff every pod has succeeded or is in an unrecognised phase.
  */
  lemma WorstStatusIsPublished(deploy: Option<Deployment>, pods: seq<Pod>)
    requires pods != []
    ensures var status := StatusOf(ReconcileStatus(deploy, WorstPod(pods)));
            && (exists p :: p in pods && PodStatus(p) == status)
            && (forall p | p in pods :: Severity(PodStatus(p)) <= Severity(status))
            && (status.None? <==> forall p | p in pods :: p.phase.PodSucceeded? || p.phase.OtherPhase?)
  {
    WorstPodIsWorst(pods);
    var w := WorstPod(pods).value;
    assert PodStatus(w) == StatusOf(ReconcileStatus(deploy, Some(w)));
    forall p | p in pods ensures Severity(PodStatus(p)) == PhasePriority(p.phase) {
    }
  }

  /** The published status does not depend on the order in which the index returns the pods. */
  lemma IndexOrderIsIrrelevant(deploy: Option<Deployment>, pods: seq<Pod>, others: seq<Pod>)
    requires forall p :: p in pods <==> p in others
    ensures StatusOf(ReconcileStatus(deploy, WorstPod(pods))) == StatusOf(ReconcileStatus(deploy, WorstPod(others)))
  {
    if pods == [] {
      NoMembers(others);
    } else {
      assert pods[0] in others;
      WorstPodIsWorst(pods);
      WorstPodIsWorst(others);
    }
  }

  lemma NoMembers(pods: seq<Pod>)
    ensures pods != [] ==> exists p :: p in pods
  {
    if pods != [] {
      assert pods[0] in pods;
    }
  }

  /**
  Whenever Get answers, for any number of pods in any order, the monitor's status for the same objects is at
  least as severe as the one Get reports.
  */
  lemma MonitorIsAtLeastAsSevereAsGet(id: string, d: Deployment, pods: seq<Pod>, svcs: seq<Service>)
    requires Store.BuildContainer(d, id, pods, svcs).Ok?
    ensures Severity(Store.BuildContainer(d, id, pods, svcs).value.status)
            <= Severity(StatusOf(ReconcileStatus(Some(d), WorstPod(pods))))
  {
    if pods == [] {
      StatusWithoutPod(Some(d));
    } else {
      var i := Store.ActivePodAt(pods);
      WorstStatusIsPublished(Some(d), pods);
      ShownStatus(id, d, pods, svcs, pods[i]);
    }
  }

  lemma ShownStatus(id: string, d: Deployment, pods: seq<Pod>, svcs: seq<Service>, p: Pod)
    requires Store.BuildContainer(d, id, pods, svcs).Ok? && pods != [] && p == Store.ActivePod(pods)
    ensures Store.BuildContainer(d, id, pods, svcs).value.status == PodStatus(p)
  {
    if |pods| == 1 {
      var _ := Store.ActivePodAt(pods);
    }
  }

  lemma OnlyPodIsWorst(pods: seq<Pod>)
    requires |pods| == 1
    ensures WorstPod(pods) == Some(pods[0])
  {
    assert pods[..0] == [];
  }

  /**
  For a Deployment with at most one pod, Get and the monitor report the same status, including none at all
  for a pod that has succeeded, except exactly when there is no pod and the Deployment reports why: then
  Get says PENDING and the monitor FAILED.
  */
  lemma GetAgreesWithMonitor(id: string, d: Deployment, pods: seq<Pod>, svcs: seq<Service>)
    requires |pods| <= 1
    ensures var got := Store.BuildContainer(d, id, pods, svcs);
            && got.Ok?
            && (got.value.status == StatusOf(ReconcileStatus(Some(d), WorstPod(pods))) <==>
                  pods != [] || !CannotHavePods(d))
  {
    if |pods| == 1 {
      OnlyPodIsWorst(pods);
    } else {
      StatusWithoutPod(Some(d));
    }
  }

  /** A Deployment scaled to zero: the monitor reports FAILED where Get says PENDING. */
  lemma ScaledToZeroIsReportedDifferently(id: string, d: Deployment, svcs: seq<Service>)
    requires d.replicas == Some(0)
    ensures Store.BuildContainer(d, id, [], svcs).value.status == Some(PENDING)
    ensures StatusOf(ReconcileStatus(Some(d), WorstPod([]))) == Some(FAILED)
  {
    GetAgreesWithMonitor(id, d, [], svcs);
  }
}
