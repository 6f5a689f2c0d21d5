/**
Listing what the store made: in every state that interleaved Creates and Deletes with failures can reach,
following List's tokens returns, exactly once for each ID that has a Deployment, what Get returns for it.
*/
module StoreListing {
  import opened Wrappers
  import opened Api
  import opened Kube
  import opened DcmLabels
  import opened Convert
  import opened RoundTrip
  import opened Store
  import opened StoreSystem
  import opened PageToken
  import opened Pagination

  /** The Deployments a List fetches. */
  function Managed(c: Cluster): set<string> {
    set n | n in c.deployments && Selects(DcmSelector(), c.deployments[n].labels)
  }

  function IdOf(d: Deployment): string {
    ExtractInstanceId(d.labels)
  }

  /** A Deployment under its name that some ID's selector finds if and only if List does. */
  ghost predicate CataloguedAs(name: string, d: Deployment) {
    && d.name == name
    && (Selects(DcmSelector(), d.labels) ==> InstanceId in d.labels)
    && (forall id | Selects(InstanceSelector(id), d.labels) :: Selects(DcmSelector(), d.labels))
  }

  ghost predicate Catalogued(c: Cluster) {
    forall n | n in c.deployments :: CataloguedAs(n, c.deployments[n])
  }

  lemma StepKeepsCatalogue(cfg: K8sConfig, c: Cluster, p: Proc, a: Answer)
    requires Catalogued(c) && !p.Done?
    ensures Catalogued(Step(cfg, c, p, a).0)
  {
    if p.CreateDeploy? {
      StoredLabels(p.spec, p.id);
      KeysDiffer();
      var labels := CreateLabels(p.spec, p.id);
      assert InstanceId in BaseLabels(p.id) && InstanceId in labels;
      assert CataloguedAs(a.name, BuildDeployment(p.spec, p.id, cfg, labels).(name := a.name, created := a.time));
    }
  }

  /** Names and labels of the cluster's Deployments stay in order in every run. */
  lemma {:induction false} RunKeepsCatalogue(cfg: K8sConfig, s: System, acts: seq<StoreSystem.Action>)
    requires Catalogued(s.cluster) && IsRun(cfg, s, acts)
    ensures Catalogued(After(cfg, s, acts).cluster)
  {
    if acts != [] {
      var n := |acts| - 1;
      RunKeepsCatalogue(cfg, s, acts[..n]);
      var before := After(cfg, s, acts[..n]);
      if acts[n].Call? {
        StepKeepsCatalogue(cfg, before.cluster, before.procs[acts[n].id], acts[n].answer);
      }
    }
  }

  // ---- What a fetch returns ----

  /** A fetch of the managed Deployments, in the order the server chose. */
  ghost predicate Fetches(c: Cluster, ds: seq<Deployment>) {
    Lists(c.deployments, Managed(c), ds)
  }

  lemma FetchedAre(c: Cluster, ds: seq<Deployment>)
    requires Catalogued(c) && Fetches(c, ds)
    ensures DistinctNames(ds)
    ensures forall d: Deployment :: d in ds <==> d.name in Managed(c) && c.deployments[d.name] == d
  {
    var order :| ListedIn(c.deployments, Managed(c), ds, order);
    assert forall i | 0 <= i < |ds| :: order[i] in order;
    forall d: Deployment | d.name in Managed(c) && c.deployments[d.name] == d ensures d in ds {
      assert d.name in order;
      var i :| 0 <= i < |order| && order[i] == d.name;
      assert ds[i] == d;
    }
  }

  lemma SameMembers(a: seq<Deployment>, b: seq<Deployment>)
    requires DistinctNames(a) && DistinctNames(b) && forall d :: d in a <==> d in b
    ensures multiset(a) == multiset(b)
  {
    forall d ensures multiset(a)[d] == multiset(b)[d] {
      if d in a {
        var i :| 0 <= i < |a| && a[i] == d;
        var j :| 0 <= j < |b| && b[j] == d;
        OneOf(a, i);
        OneOf(b, j);
      }
    }
  }

  lemma FetchesAreListable(c: Cluster, build: Builder, fetches: nat -> seq<Deployment>)
    requires Catalogued(c) && forall k: nat :: Fetches(c, fetches(k))
    requires |fetches(0)| <= MaxInt && ConflictFree(build, fetches(0))
    ensures Listable(build, fetches(0), fetches)
  {
    FetchedAre(c, fetches(0));
    forall k: nat ensures multiset(fetches(k)) == multiset(fetches(0)) {
      FetchedAre(c, fetches(k));
      SameMembers(fetches(k), fetches(0));
    }
    SortKeeps(fetches(0));
    forall i | 0 <= i < |SortByName(fetches(0))| ensures build(SortByName(fetches(0))[i]).Ok? {
      assert SortByName(fetches(0))[i] in fetches(0);
    }
  }

  // ---- Entries and IDs ----

  lemma ManagedId(c: Cluster, name: string)
    requires Catalogued(c) && name in Managed(c)
    ensures name in DepsOf(c, IdOf(c.deployments[name]))
  {
    assert CataloguedAs(name, c.deployments[name]);
    ManagedIsSelected(c.deployments[name].labels);
  }

  lemma IdIsManaged(c: Cluster, id: string, name: string)
    requires Catalogued(c) && name in DepsOf(c, id)
    ensures name in Managed(c) && IdOf(c.deployments[name]) == id
  {
    var d := c.deployments[name];
    assert CataloguedAs(name, d);
    KeysDiffer();
    assert InstanceId in InstanceSelector(id) && InstanceSelector(id)[InstanceId] == id;
  }

  lemma OneDeploymentPerId(c: Cluster, m: string, n: string)
    requires Catalogued(c) && m in Managed(c) && n in Managed(c)
    requires IdOf(c.deployments[m]) == IdOf(c.deployments[n]) && Tidy(c, IdOf(c.deployments[m]))
    ensures m == n && |DepsOf(c, IdOf(c.deployments[m]))| == 1
  {
    ManagedId(c, m);
    ManagedId(c, n);
    assert |DepsOf(c, IdOf(c.deployments[m])) - {m}| == 0;
  }

  /** The entries are, exactly once for each ID with a Deployment, what Get returns for it. */
  ghost predicate AllGets(c: Cluster, entries: seq<Container>, podsOf: string -> seq<Pod>, svcsOf: string -> seq<Service>) {
    && (forall i | 0 <= i < |entries| ::
          var id := entries[i].id; DepsOf(c, id) != {} && Get(c, id, podsOf(id), svcsOf(id)) == Ok(entries[i]))
    && (forall id | DepsOf(c, id) != {} :: exists i :: 0 <= i < |entries| && entries[i].id == id)
    && (forall i, j | 0 <= i < j < |entries| :: entries[i].id != entries[j].id)
  }

  lemma EntryIsOwnGet(c: Cluster, d: Deployment, entry: Container, podsOf: string -> seq<Pod>, svcsOf: string -> seq<Service>)
    requires Catalogued(c) && d.name in Managed(c) && c.deployments[d.name] == d && Tidy(c, IdOf(d))
    requires EntryBuilder(podsOf, svcsOf)(d) == Ok(entry)
    ensures entry.id == IdOf(d) && DepsOf(c, entry.id) != {}
    ensures Get(c, entry.id, podsOf(entry.id), svcsOf(entry.id)) == Ok(entry)
  {
    assert CataloguedAs(d.name, d);
    OneDeploymentPerId(c, d.name, d.name);
    EntryIsGet(c, podsOf, svcsOf, d.name);
  }

  lemma IdHasEntry(c: Cluster, sorted: seq<Deployment>, id: string)
    requires Catalogued(c) && DepsOf(c, id) != {}
    requires forall d: Deployment :: d in sorted <==> d.name in Managed(c) && c.deployments[d.name] == d
    ensures exists i :: 0 <= i < |sorted| && IdOf(sorted[i]) == id
  {
    var name :| name in DepsOf(c, id);
    IdIsManaged(c, id, name);
    assert CataloguedAs(name, c.deployments[name]);
    assert c.deployments[name] in sorted;
  }

  lemma SortedEntriesAreGets(c: Cluster, sorted: seq<Deployment>, entries: seq<Container>, podsOf: string -> seq<Pod>,
                             svcsOf: string -> seq<Service>)
    requires Catalogued(c) && (forall id :: Tidy(c, id)) && DistinctNames(sorted)
    requires forall d: Deployment :: d in sorted <==> d.name in Managed(c) && c.deployments[d.name] == d
    requires |entries| == |sorted|
    requires forall i | 0 <= i < |sorted| :: EntryBuilder(podsOf, svcsOf)(sorted[i]) == Ok(entries[i])
    ensures AllGets(c, entries, podsOf, svcsOf)
  {
    forall i | 0 <= i < |entries|
      ensures entries[i].id == IdOf(sorted[i]) && DepsOf(c, entries[i].id) != {}
      ensures var id := entries[i].id; Get(c, id, podsOf(id), svcsOf(id)) == Ok(entries[i])
    {
      assert sorted[i] in sorted && Tidy(c, IdOf(sorted[i]));
      EntryIsOwnGet(c, sorted[i], entries[i], podsOf, svcsOf);
    }
    forall id | DepsOf(c, id) != {} ensures exists i :: 0 <= i < |entries| && entries[i].id == id {
      IdHasEntry(c, sorted, id);
      var i :| 0 <= i < |sorted| && IdOf(sorted[i]) == id;
      assert entries[i].id == id;
    }
    forall i, j | 0 <= i < j < |entries| ensures entries[i].id != entries[j].id {
      if entries[i].id == entries[j].id {
        assert sorted[i] in sorted && sorted[j] in sorted && Tidy(c, IdOf(sorted[i]));
        OneDeploymentPerId(c, sorted[i].name, sorted[j].name);
      }
    }
  }

  /**
  In every state reached from an orderly one by interleaved Creates and Deletes with arbitrary failures, on
  which the cluster then stays unchanged and no ID has conflicting pods: following List's tokens from the
  empty one, with any page sizes and any order of each fetch, ends and returns, exactly once for each ID
  with a Deployment, what Get returns for that ID.
  */
  lemma ListingIsAllGets(cfg: K8sConfig, s: System, acts: seq<StoreSystem.Action>, fetches: nat -> seq<Deployment>,
                         sizes: nat -> int, podsOf: string -> seq<Pod>, svcsOf: string -> seq<Service>)
    requires StoreInv(s) && Catalogued(s.cluster) && IsRun(cfg, s, acts)
    requires forall k: nat :: Fetches(After(cfg, s, acts).cluster, fetches(k))
    requires |fetches(0)| <= MaxInt && ConflictFree(EntryBuilder(podsOf, svcsOf), fetches(0))
    ensures var build := EntryBuilder(podsOf, svcsOf);
            && Entries(build, SortByName(fetches(0))).Ok?
            && var entries := Entries(build, SortByName(fetches(0))).value;
               && AllGets(After(cfg, s, acts).cluster, entries, podsOf, svcsOf)
               && var list := Listing(PageTokens, build, fetches, sizes);
                  && Serves(PageTokens, list, entries, sizes) && PageTokens.decode("").Ok?
                  && Follow(PageTokens, list, entries, sizes, "", 0).0 == entries
  {
    var c, build := After(cfg, s, acts).cluster, EntryBuilder(podsOf, svcsOf);
    StoreInvariantUnderFaults(cfg, s, acts);
    RunKeepsCatalogue(cfg, s, acts);
    FetchesAreListable(c, build, fetches);
    PaginationIsComplete(build, fetches(0), fetches, sizes);
    FetchedAre(c, fetches(0));
    var sorted := SortByName(fetches(0));
    SortKeeps(fetches(0));
    DistinctByMultiset(fetches(0), sorted);
    SortedEntriesAreGets(c, sorted, Entries(build, sorted).value, podsOf, svcsOf);
  }

  /** An empty cluster is orderly. */
  lemma EmptyClusterIsOrderly(pods: map<string, Pod>)
    ensures StoreInv(System(Cluster(map[], map[], pods), map[])) && Catalogued(Cluster(map[], map[], pods))
  {
    EmptyClusterIsTidy(pods);
  }

  /** In particular: everything Creates and Deletes can make of an empty cluster is listed as Get reports it. */
  lemma ListingFromEmpty(cfg: K8sConfig, pods: map<string, Pod>, acts: seq<StoreSystem.Action>,
                         fetches: nat -> seq<Deployment>, sizes: nat -> int, podsOf: string -> seq<Pod>,
                         svcsOf: string -> seq<Service>)
    requires IsRun(cfg, System(Cluster(map[], map[], pods), map[]), acts)
    requires forall k: nat :: Fetches(After(cfg, System(Cluster(map[], map[], pods), map[]), acts).cluster, fetches(k))
    requires |fetches(0)| <= MaxInt && ConflictFree(EntryBuilder(podsOf, svcsOf), fetches(0))
    ensures var build := EntryBuilder(podsOf, svcsOf);
            && Entries(build, SortByName(fetches(0))).Ok?
            && var entries := Entries(build, SortByName(fetches(0))).value;
               && AllGets(After(cfg, System(Cluster(map[], map[], pods), map[]), acts).cluster, entries, podsOf, svcsOf)
               && var list := Listing(PageTokens, build, fetches, sizes);
                  && Serves(PageTokens, list, entries, sizes) && PageTokens.decode("").Ok?
                  && Follow(PageTokens, list, entries, sizes, "", 0).0 == entries
  {
    EmptyClusterIsOrderly(pods);
    ListingIsAllGets(cfg, System(Cluster(map[], map[], pods), map[]), acts, fetches, sizes, podsOf, svcsOf);
  }
}
