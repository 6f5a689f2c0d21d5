/** The labels by which the provider recognises its own objects. */
module DcmLabels {
  import opened Kube

  const ManagedBy := "dcm.project/managed-by"
  const InstanceId := "dcm.project/dcm-instance-id"
  const ServiceKind := "dcm.project/dcm-service-type"
  const ManagedByDcm := "dcm"
  const ContainerKind := "container"

  const ReservedKeys := {ManagedBy, InstanceId, ServiceKind}

  function BaseLabels(id: string): Labels {
    map[ManagedBy := ManagedByDcm, InstanceId := id, ServiceKind := ContainerKind]
  }

  function InstanceSelector(id: string): Labels {
    map[InstanceId := id, ManagedBy := ManagedByDcm]
  }

  function DcmSelector(): Labels {
    map[ManagedBy := ManagedByDcm, ServiceKind := ContainerKind]
  }

  /** Label selection by equality. */
  predicate Selects(selector: Labels, labels: Labels) {
    forall k | k in selector :: k in labels && labels[k] == selector[k]
  }

  /** The base labels win over the user's on a collision. */
  function Merge(base: Labels, user: Labels): Labels {
    user + base
  }

  function UserLabels(labels: Labels): Labels {
    map k | k in labels && k !in ReservedKeys :: labels[k]
  }

  /** The instance ID an object is labelled with; empty when there is none. */
  function ExtractInstanceId(labels: Labels): string {
    if InstanceId in labels then labels[InstanceId] else ""
  }

  lemma KeysDiffer()
    ensures ManagedBy != InstanceId && ManagedBy != ServiceKind && InstanceId != ServiceKind
  {
    assert |ManagedBy| == 22 && |InstanceId| == 27 && |ServiceKind| == 28;
  }

  /**
  Whatever labels the user supplies, even reserved ones, the merged labels are selected by the provider's
  selector and by exactly one instance selector, the object's own; the user's other labels come back.
  */
  lemma MergedLabels(id: string, user: Labels, other: string)
    ensures var labels := Merge(BaseLabels(id), user);
            && Selects(DcmSelector(), labels) && Selects(BaseLabels(id), labels)
            && (Selects(InstanceSelector(other), labels) <==> other == id)
            && ExtractInstanceId(labels) == id
            && UserLabels(labels) == UserLabels(user)
  {
    KeysDiffer();
    var labels := Merge(BaseLabels(id), user);
    assert labels[InstanceId] == id && labels[ManagedBy] == ManagedByDcm && labels[ServiceKind] == ContainerKind;
    assert InstanceId in InstanceSelector(other) && InstanceSelector(other)[InstanceId] == other;
  }

  ghost predicate Carries(labels: Labels, key: string, value: string) {
    key in labels && labels[key] == value
  }

  ghost predicate IsReserved(key: string) {
    key in {"dcm.project/managed-by", "dcm.project/dcm-instance-id", "dcm.project/dcm-service-type"}
  }

  /** The provider's three labels, and the user's labels under any other key, with nothing else. */
  ghost predicate Stamped(labels: Labels, id: string, user: Labels) {
    && Carries(labels, "dcm.project/managed-by", "dcm")
    && Carries(labels, "dcm.project/dcm-instance-id", id)
    && Carries(labels, "dcm.project/dcm-service-type", "container")
    && (forall k | k in user && !IsReserved(k) :: Carries(labels, k, user[k]))
    && (forall k | k in labels :: IsReserved(k) || k in user)
  }

  lemma MergedAreStamped(id: string, user: Labels)
    ensures Stamped(Merge(BaseLabels(id), user), id, user) && Stamped(BaseLabels(id), id, map[])
  {
    KeysDiffer();
    var base := BaseLabels(id);
    assert base[ManagedBy] == "dcm" && base[InstanceId] == id && base[ServiceKind] == "container";
    forall k ensures k in base <==> IsReserved(k) {
    }
  }

  /** What the two selectors demand of an object's labels, and which labels are the user's. */
  lemma SelectorsRead(id: string, labels: Labels)
    ensures Selects(InstanceSelector(id), labels) <==>
            Carries(labels, "dcm.project/dcm-instance-id", id) && Carries(labels, "dcm.project/managed-by", "dcm")
    ensures Selects(DcmSelector(), labels) <==>
            Carries(labels, "dcm.project/managed-by", "dcm") && Carries(labels, "dcm.project/dcm-service-type", "container")
    ensures forall k :: k in UserLabels(labels) <==> k in labels && !IsReserved(k)
    ensures forall k | k in UserLabels(labels) :: UserLabels(labels)[k] == labels[k]
  {
    KeysDiffer();
    var instance, dcm := InstanceSelector(id), DcmSelector();
    assert InstanceId in instance && instance[InstanceId] == id && ManagedBy in instance && instance[ManagedBy] == "dcm";
    assert ManagedBy in dcm && dcm[ManagedBy] == "dcm" && ServiceKind in dcm && dcm[ServiceKind] == "container";
  }

  /** A managed object that carries an instance ID is selected by that instance's selector. */
  lemma ManagedIsSelected(labels: Labels)
    requires Selects(DcmSelector(), labels) && InstanceId in labels
    ensures Selects(InstanceSelector(ExtractInstanceId(labels)), labels)
  {
    SelectorsRead(labels[InstanceId], labels);
  }
}
