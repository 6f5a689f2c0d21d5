/**
List: fetch every Deployment of the provider in whatever order, sort by name, and cut out the page the
token asks for.
*/
module Pagination {
  import opened Arithmetic
  import opened Wrappers
  import opened Errors
  import opened Api
  import opened Kube
  import opened DcmLabels
  import opened Store
  import opened PageToken

  const DefaultPageSize := 50

  datatype Page = Page(containers: seq<Container>, nextToken: Option<string>)

  // ---- Names in byte order ----

  predicate Less(a: string, b: string) {
    b != "" && (a == "" || a[0] < b[0] || (a[0] == b[0] && Less(a[1..], b[1..])))
  }

  lemma {:induction false} LessTrans(a: string, b: string, c: string)
    requires Less(a, b) && Less(b, c)
    ensures Less(a, c)
  {
    if a != "" && a[0] == b[0] && b[0] == c[0] {
      LessTrans(a[1..], b[1..], c[1..]);
    }
  }

  lemma {:induction false} LessTotal(a: string, b: string)
    ensures Less(a, b) <==> a != b && !Less(b, a)
  {
    if a != "" && b != "" && a[0] == b[0] {
      LessTotal(a[1..], b[1..]);
      assert a == [a[0]] + a[1..] && b == [b[0]] + b[1..];
    }
  }

  /** Lexicographic order by characters: a proper prefix, or the smaller character at the first difference. */
  ghost predicate Precedes(a: string, b: string) {
    exists k :: PrecedesAt(a, b, k)
  }

  ghost predicate PrecedesAt(a: string, b: string, k: int) {
    0 <= k <= |a| && k < |b| && a[..k] == b[..k] && (k < |a| ==> a[k] < b[k])
  }

  lemma FirstCharacters(a: string, b: string, k: int)
    requires PrecedesAt(a, b, k)
    ensures k > 0 ==> a != "" && b != "" && a[0] == b[0]
  {
    if k > 0 {
      assert a[..k][0] == b[..k][0];
    }
  }

  lemma {:induction false} LessIsLexicographic(a: string, b: string)
    ensures Less(a, b) <==> Precedes(a, b)
  {
    if a == "" || b == "" || a[0] != b[0] {
      if b != "" {
        assert Less(a, b) ==> PrecedesAt(a, b, 0);
      }
      forall k | PrecedesAt(a, b, k) ensures k == 0 {
        FirstCharacters(a, b, k);
      }
    } else {
      LessIsLexicographic(a[1..], b[1..]);
      if k :| PrecedesAt(a[1..], b[1..], k) {
        assert a[..k + 1] == [a[0]] + a[1..][..k] && b[..k + 1] == [b[0]] + b[1..][..k];
        assert PrecedesAt(a, b, k + 1);
      }
      if k :| PrecedesAt(a, b, k) {
        assert k > 0;
        assert a[1..][..k - 1] == a[..k][1..] && b[1..][..k - 1] == b[..k][1..];
        assert PrecedesAt(a[1..], b[1..], k - 1);
      }
    }
  }

  // ---- Sorting ----

  function Insert(ds: seq<Deployment>, d: Deployment): seq<Deployment> {
    if ds == [] then [d]
    else
      var n := |ds| - 1;
      if Less(d.name, ds[n].name) then Insert(ds[..n], d) + [ds[n]] else ds + [d]
  }

  /** What sort.Slice leaves in the fetched items. */
  function SortByName(ds: seq<Deployment>): seq<Deployment> {
    if ds == [] then [] else Insert(SortByName(ds[..|ds| - 1]), ds[|ds| - 1])
  }

  ghost predicate Ascending(ds: seq<Deployment>) {
    forall i, j | 0 <= i < j < |ds| :: Less(ds[i].name, ds[j].name)
  }

  ghost predicate DistinctNames(ds: seq<Deployment>) {
    forall i, j | 0 <= i < j < |ds| :: ds[i].name != ds[j].name
  }

  lemma {:induction false} InsertKeeps(ds: seq<Deployment>, d: Deployment)
    ensures multiset(Insert(ds, d)) == multiset(ds) + multiset{d}
    ensures |Insert(ds, d)| == |ds| + 1
    ensures forall x :: x in Insert(ds, d) <==> x in ds || x == d
  {
    if ds != [] {
      var n := |ds| - 1;
      assert ds == ds[..n] + [ds[n]];
      if Less(d.name, ds[n].name) {
        InsertKeeps(ds[..n], d);
      }
    }
  }

  lemma {:induction false} InsertSorts(ds: seq<Deployment>, d: Deployment)
    requires Ascending(ds) && forall i | 0 <= i < |ds| :: ds[i].name != d.name
    ensures Ascending(Insert(ds, d))
  {
    if ds != [] {
      var n := |ds| - 1;
      var last := ds[n];
      LessTotal(d.name, last.name);
      if Less(d.name, last.name) {
        InsertSorts(ds[..n], d);
        InsertKeeps(ds[..n], d);
        var front := Insert(ds[..n], d);
        forall i | 0 <= i < |front| ensures Less(front[i].name, last.name) {
          assert front[i] in front;
        }
      } else {
        forall i | 0 <= i < n ensures Less(ds[i].name, d.name) {
          LessTrans(ds[i].name, last.name, d.name);
        }
      }
    }
  }

  lemma {:induction false} SortKeepsAll(ds: seq<Deployment>)
    ensures multiset(SortByName(ds)) == multiset(ds) && |SortByName(ds)| == |ds|
  {
    if ds != [] {
      var n := |ds| - 1;
      SortKeepsAll(ds[..n]);
      InsertKeeps(SortByName(ds[..n]), ds[n]);
      assert ds == ds[..n] + [ds[n]];
    }
  }

  lemma SortKeeps(ds: seq<Deployment>)
    ensures multiset(SortByName(ds)) == multiset(ds) && |SortByName(ds)| == |ds|
    ensures forall x :: x in SortByName(ds) <==> x in ds
  {
    SortKeepsAll(ds);
    assert forall x :: x in SortByName(ds) <==> x in multiset(SortByName(ds));
  }

  lemma {:induction false} SortAscends(ds: seq<Deployment>)
    requires DistinctNames(ds)
    ensures Ascending(SortByName(ds))
  {
    if ds != [] {
      var n := |ds| - 1;
      SortAscends(ds[..n]);
      SortKeeps(ds[..n]);
      var front := SortByName(ds[..n]);
      forall i | 0 <= i < |front| ensures front[i].name != ds[n].name {
        assert front[i] in front;
      }
      InsertSorts(front, ds[n]);
    }
  }

  lemma SortSorts(ds: seq<Deployment>)
    requires DistinctNames(ds)
    ensures Ascending(SortByName(ds)) && multiset(SortByName(ds)) == multiset(ds)
    ensures |SortByName(ds)| == |ds|
  {
    SortAscends(ds);
    SortKeeps(ds);
  }

  lemma SameLast(a: seq<Deployment>, b: seq<Deployment>)
    requires a != [] && b != [] && Ascending(a) && Ascending(b) && multiset(a) == multiset(b)
    ensures a[|a| - 1] == b[|b| - 1]
  {
    var x, y := a[|a| - 1], b[|b| - 1];
    assert x in multiset(b) && y in multiset(a);
    var i :| 0 <= i < |b| && b[i] == x;
    var j :| 0 <= j < |a| && a[j] == y;
    LessTotal(x.name, y.name);
    assert i < |b| - 1 ==> Less(x.name, y.name);
    assert j < |a| - 1 ==> Less(y.name, x.name);
  }

  lemma WithoutLast(a: seq<Deployment>)
    requires a != []
    ensures multiset(a[..|a| - 1]) == multiset(a) - multiset{a[|a| - 1]}
  {
    assert a == a[..|a| - 1] + [a[|a| - 1]];
  }

  /** Distinct names leave only one sorted order. */
  lemma {:induction false} SortedOrderIsUnique(a: seq<Deployment>, b: seq<Deployment>)
    requires Ascending(a) && Ascending(b) && multiset(a) == multiset(b)
    ensures a == b
  {
    assert |a| == |multiset(a)| && |b| == |multiset(b)|;
    if a != [] {
      SameLast(a, b);
      WithoutLast(a);
      WithoutLast(b);
      SortedOrderIsUnique(a[..|a| - 1], b[..|b| - 1]);
      assert a == a[..|a| - 1] + [a[|a| - 1]] && b == b[..|b| - 1] + [b[|b| - 1]];
    }
  }

  // ---- One page ----

  /** How a Deployment becomes an entry of the page. */
  type Builder = Deployment -> Result<Container, StoreError>

  /** buildContainer, when the cluster lists each ID's pods and Services as given. */
  function EntryBuilder(podsOf: string -> seq<Pod>, svcsOf: string -> seq<Service>): Builder {
    (d: Deployment) =>
      var id := ExtractInstanceId(d.labels);
      BuildContainer(d, id, podsOf(id), svcsOf(id))
  }

  /** The containers of the Deployments, or the first error. */
  function Entries(build: Builder, ds: seq<Deployment>): Result<seq<Container>, StoreError> {
    if ds == [] then Ok([])
    else
      var n := |ds| - 1;
      match Entries(build, ds[..n])
      case Err(e) => Err(e)
      case Ok(cs) =>
        match build(ds[n])
        case Err(e) => Err(e)
        case Ok(c) => Ok(cs + [c])
  }

  function PageSize(maxPageSize: int): int {
    if maxPageSize <= 0 then DefaultPageSize else maxPageSize
  }

  function PageEnd(start: nat, size: int, total: nat): (end: nat)
    requires start <= total && size > 0
    ensures start <= end <= total
  {
    start + Min(size, total - start)
  }

  function NextToken(tokens: TokenCodec, end: nat, total: nat): Option<string> {
    if end < total then Some(tokens.encode(end)) else None
  }

  function PageOf(tokens: TokenCodec, build: Builder, sorted: seq<Deployment>, size: int, offset: nat): Result<Page, StoreError>
    requires size > 0
  {
    var start: nat := Min(offset, |sorted|);
    var end := PageEnd(start, size, |sorted|);
    match Entries(build, sorted[start..end])
    case Err(e) => Err(e)
    case Ok(cs) => Ok(Page(cs, NextToken(tokens, end, |sorted|)))
  }

  function ListPage(tokens: TokenCodec, build: Builder, fetched: seq<Deployment>, maxPageSize: int, token: string): Result<Page, StoreError> {
    match tokens.decode(token)
    case Err(e) => Err(e)
    case Ok(offset) => PageOf(tokens, build, SortByName(fetched), PageSize(maxPageSize), offset)
  }

  /** The loop over a page's Deployments. */
  method BuildEntries(build: Builder, paged: seq<Deployment>) returns (r: Result<seq<Container>, StoreError>)
    ensures r == Entries(build, paged)
  {
    var containers: seq<Container> := [];
    for i := 0 to |paged|
      invariant Entries(build, paged[..i]) == Ok(containers)
    {
      assert paged[..i + 1][..i] == paged[..i];
      var c := build(paged[i]);
      if c.Err? {
        FirstError(build, paged, i + 1);
        return Err(c.error);
      }
      containers := containers + [c.value];
    }
    assert paged[..|paged|] == paged;
    r := Ok(containers);
  }

  /** The imperative form; every slice stays in range for every token that decodes, forged or not. */
  method List(tokens: TokenCodec, build: Builder, listing: Result<seq<Deployment>, ApiError>, maxPageSize: int, token: string)
    returns (r: Result<Page, StoreError>)
    ensures listing.Ok? ==> r == ListPage(tokens, build, listing.value, maxPageSize, token)
    ensures tokens.decode(token).Err? ==> r == Err(tokens.decode(token).error)
    ensures tokens.decode(token).Ok? && listing.Err? ==> r == Err(Api(listing.error))
  {
    var size := maxPageSize;
    if size <= 0 {
      size := DefaultPageSize;
    }
    var decoded := tokens.decode(token);
    if decoded.Err? {
      return Err(decoded.error);
    }
    var offset := decoded.value;
    if listing.Err? {
      return Err(Api(listing.error));
    }
    var items := SortByName(listing.value);
    var total := |items|;
    if offset > total {
      offset := total;
    }
    var paged := items[offset..];
    var limit := Min(size, |paged|);
    paged := paged[..limit];
    assert paged == items[offset..offset + limit];
    var containers := BuildEntries(build, paged);
    if containers.Err? {
      return Err(containers.error);
    }
    var next: Option<string> := None;
    if offset + limit < total {
      next := Some(tokens.encode(offset + limit));
    }
    r := Ok(Page(containers.value, next));
  }

  lemma {:induction false} FirstError(build: Builder, ds: seq<Deployment>, n: nat)
    requires n <= |ds| && Entries(build, ds[..n]).Err?
    ensures Entries(build, ds) == Entries(build, ds[..n])
  {
    if n < |ds| {
      var m := |ds| - 1;
      assert ds[..m][..n] == ds[..n];
      FirstError(build, ds[..m], n);
    } else {
      assert ds[..n] == ds;
    }
  }

  /** A page fails exactly when one of its entries does, with the first such error. */
  lemma {:induction false} EntriesFail(build: Builder, ds: seq<Deployment>)
    ensures Entries(build, ds).Ok? <==> forall i | 0 <= i < |ds| :: build(ds[i]).Ok?
    ensures Entries(build, ds).Err? ==>
              exists i :: 0 <= i < |ds| && build(ds[i]) == Err(Entries(build, ds).error)
                && forall k | 0 <= k < i :: build(ds[k]).Ok?
  {
    if ds != [] {
      var n := |ds| - 1;
      EntriesFail(build, ds[..n]);
      assert forall i | 0 <= i < n :: ds[i] == ds[..n][i];
    }
  }

  // ---- Following the tokens ----

  /** No entry has a conflict. */
  ghost predicate ConflictFree(build: Builder, ds: seq<Deployment>) {
    forall i | 0 <= i < |ds| :: build(ds[i]).Ok?
  }

  /** An unchanged cluster: every fetch returns the same Deployments, in any order. */
  ghost predicate Unchanged(all: seq<Deployment>, fetches: nat -> seq<Deployment>) {
    forall k: nat :: multiset(fetches(k)) == multiset(all)
  }

  lemma {:induction false} EntriesOk(build: Builder, ds: seq<Deployment>)
    requires ConflictFree(build, ds)
    ensures Entries(build, ds).Ok? && |Entries(build, ds).value| == |ds|
    ensures forall i | 0 <= i < |ds| :: build(ds[i]) == Ok(Entries(build, ds).value[i])
  {
    if ds != [] {
      EntriesOk(build, ds[..|ds| - 1]);
    }
  }

  lemma {:induction false} DistinctByMultiset(a: seq<Deployment>, b: seq<Deployment>)
    requires DistinctNames(a) && multiset(a) == multiset(b)
    ensures DistinctNames(b)
  {
    forall i, j | 0 <= i < j < |b| ensures b[i].name != b[j].name {
      if b[i].name == b[j].name {
        TwoOf(b, i, j);
        assert b[i] in multiset(a) && b[j] in multiset(a);
        var k :| 0 <= k < |a| && a[k] == b[i];
        var m :| 0 <= m < |a| && a[m] == b[j];
        assert k == m;
        OneOf(a, k);
      }
    }
  }

  lemma TwoOf(b: seq<Deployment>, i: nat, j: nat)
    requires i < j < |b|
    ensures b[i] == b[j] ==> multiset(b)[b[i]] >= 2
  {
    assert b == b[..i] + [b[i]] + b[i + 1..j] + [b[j]] + b[j + 1..];
  }

  lemma OneOf(a: seq<Deployment>, k: nat)
    requires k < |a| && DistinctNames(a)
    ensures multiset(a)[a[k]] == 1
  {
    assert a == a[..k] + [a[k]] + a[k + 1..];
    assert a[k] !in a[..k] && a[k] !in a[k + 1..];
  }

  /** The order in which a page's Deployments were fetched does not matter. */
  lemma FetchOrderIsIrrelevant(all: seq<Deployment>, fetched: seq<Deployment>)
    requires DistinctNames(all) && multiset(fetched) == multiset(all)
    ensures SortByName(fetched) == SortByName(all)
  {
    DistinctByMultiset(all, fetched);
    SortSorts(all);
    SortSorts(fetched);
    SortedOrderIsUnique(SortByName(fetched), SortByName(all));
  }

  ghost predicate Listable(build: Builder, all: seq<Deployment>, fetches: nat -> seq<Deployment>) {
    && DistinctNames(all) && |all| <= MaxInt
    && ConflictFree(build, SortByName(all))
    && Unchanged(all, fetches)
  }

  /** Where a token's page starts. */
  ghost function StartOf(tokens: TokenCodec, token: string, total: nat): nat
    requires tokens.decode(token).Ok?
  {
    Min(tokens.decode(token).value, total)
  }

  /** The page of a sorted list that starts at `start`. */
  ghost predicate IsPage(tokens: TokenCodec, page: Page, entries: seq<Container>, start: nat, size: int) {
    && start <= |entries| && size > 0
    && var end := PageEnd(start, size, |entries|);
       && page.containers == entries[start..end]
       && (page.nextToken.None? <==> end == |entries|)
       && (page.nextToken.Some? ==> page.nextToken.value != "" && tokens.decode(page.nextToken.value) == Ok(end))
  }

  lemma CutPage(tokens: TokenCodec, entries: seq<Container>, start: nat, size: int)
    requires Sound(tokens) && start <= |entries| <= MaxInt && size > 0
    ensures var end := PageEnd(start, size, |entries|);
            IsPage(tokens, Page(entries[start..end], NextToken(tokens, end, |entries|)), entries, start, size)
  {
  }

  lemma EntriesSlice(build: Builder, sorted: seq<Deployment>, start: nat, end: nat)
    requires ConflictFree(build, sorted) && start <= end <= |sorted|
    ensures Entries(build, sorted).Ok? && |Entries(build, sorted).value| == |sorted|
    ensures Entries(build, sorted[start..end]) == Ok(Entries(build, sorted).value[start..end])
  {
    EntriesOk(build, sorted);
    EntriesOk(build, sorted[start..end]);
    assert Entries(build, sorted[start..end]).value == Entries(build, sorted).value[start..end];
  }

  lemma PageOfIsPage(tokens: TokenCodec, build: Builder, sorted: seq<Deployment>, size: int, offset: nat)
    requires Sound(tokens) && ConflictFree(build, sorted) && size > 0 && |sorted| <= MaxInt
    ensures Entries(build, sorted).Ok? && PageOf(tokens, build, sorted, size, offset).Ok?
    ensures IsPage(tokens, PageOf(tokens, build, sorted, size, offset).value, Entries(build, sorted).value,
                   Min(offset, |sorted|), size)
  {
    var start: nat := Min(offset, |sorted|);
    EntriesSlice(build, sorted, start, PageEnd(start, size, |sorted|));
    CutPage(tokens, Entries(build, sorted).value, start, size);
  }

  /** Every page, whatever the order of its fetch, is cut from the same list of entries. */
  lemma OnePage(tokens: TokenCodec, build: Builder, all: seq<Deployment>, fetches: nat -> seq<Deployment>, k: nat,
                maxPageSize: int, token: string)
    requires Listable(build, all, fetches) && Sound(tokens) && tokens.decode(token).Ok?
    ensures var page := ListPage(tokens, build, fetches(k), maxPageSize, token);
            var entries := Entries(build, SortByName(all));
            && page.Ok? && entries.Ok? && |entries.value| == |all|
            && IsPage(tokens, page.value, entries.value, StartOf(tokens, token, |all|), PageSize(maxPageSize))
  {
    var sorted := SortByName(all);
    SortSorts(all);
    FetchOrderIsIrrelevant(all, fetches(k));
    EntriesOk(build, sorted);
    PageOfIsPage(tokens, build, sorted, PageSize(maxPageSize), tokens.decode(token).value);
  }

  /** A way to list: the k-th call, with a token, to its page. */
  type Lister = (nat, string) -> Result<Page, StoreError>

  /** Every call with a valid token answers with the page of `entries` that the token and its size ask for. */
  ghost predicate Serves(tokens: TokenCodec, list: Lister, entries: seq<Container>, sizes: nat -> int) {
    forall k: nat, token: string | tokens.decode(token).Ok? ::
      && list(k, token).Ok?
      && IsPage(tokens, list(k, token).value, entries, StartOf(tokens, token, |entries|), PageSize(sizes(k)))
  }

  /** Lists from `token` on, following each next-page token, and returns all entries and the page count. */
  ghost function Follow(tokens: TokenCodec, list: Lister, entries: seq<Container>, sizes: nat -> int,
                        token: string, k: nat): (seq<Container>, nat)
    requires Serves(tokens, list, entries, sizes) && tokens.decode(token).Ok?
    decreases |entries| - StartOf(tokens, token, |entries|)
  {
    var page := list(k, token).value;
    if page.nextToken.None? then (page.containers, 1)
    else
      var (rest, pages) := Follow(tokens, list, entries, sizes, page.nextToken.value, k + 1);
      (page.containers + rest, pages + 1)
  }

  lemma {:induction false} FollowFrom(tokens: TokenCodec, list: Lister, entries: seq<Container>, sizes: nat -> int,
                                      token: string, k: nat)
    requires Serves(tokens, list, entries, sizes) && tokens.decode(token).Ok?
    ensures Follow(tokens, list, entries, sizes, token, k).0 == entries[StartOf(tokens, token, |entries|)..]
    decreases |entries| - StartOf(tokens, token, |entries|)
  {
    var page := list(k, token).value;
    if page.nextToken.Some? {
      FollowFrom(tokens, list, entries, sizes, page.nextToken.value, k + 1);
    }
  }

  lemma {:induction false} PagesFrom(tokens: TokenCodec, list: Lister, entries: seq<Container>, sizes: nat -> int,
                                     size: int, token: string, k: nat)
    requires Serves(tokens, list, entries, sizes) && tokens.decode(token).Ok?
    requires size > 0 && forall i: nat :: sizes(i) == size
    ensures var left := |entries| - StartOf(tokens, token, |entries|);
            var pages := Follow(tokens, list, entries, sizes, token, k).1;
            pages >= 1 && left <= pages * size && (pages - 1) * size < (if left == 0 then 1 else left)
    decreases |entries| - StartOf(tokens, token, |entries|)
  {
    var page := list(k, token).value;
    if page.nextToken.Some? {
      PagesFrom(tokens, list, entries, sizes, size, page.nextToken.value, k + 1);
      var rest := Follow(tokens, list, entries, sizes, page.nextToken.value, k + 1).1;
      assert (rest + 1) * size == rest * size + size && (rest - 1) * size == rest * size - size;
    } else {
      assert 1 * size == size && 0 * size == 0;
    }
  }

  /** Calling List against a cluster whose k-th fetch and k-th page size are given. */
  function Listing(tokens: TokenCodec, build: Builder, fetches: nat -> seq<Deployment>, sizes: nat -> int): Lister {
    (k: nat, token: string) => ListPage(tokens, build, fetches(k), sizes(k), token)
  }

  lemma ListingServes(tokens: TokenCodec, build: Builder, all: seq<Deployment>, fetches: nat -> seq<Deployment>,
                      sizes: nat -> int)
    requires Listable(build, all, fetches) && Sound(tokens)
    ensures Entries(build, SortByName(all)).Ok?
    ensures Serves(tokens, Listing(tokens, build, fetches, sizes), Entries(build, SortByName(all)).value, sizes)
  {
    EntriesOk(build, SortByName(all));
    forall k: nat, token: string | tokens.decode(token).Ok?
      ensures var list := Listing(tokens, build, fetches, sizes);
              var entries := Entries(build, SortByName(all)).value;
              && list(k, token).Ok?
              && IsPage(tokens, list(k, token).value, entries, StartOf(tokens, token, |entries|), PageSize(sizes(k)))
    {
      OnePage(tokens, build, all, fetches, k, sizes(k), token);
    }
  }

  lemma AscendingByName(all: seq<Deployment>)
    requires DistinctNames(all)
    ensures var sorted := SortByName(all);
            forall i, j | 0 <= i < j < |sorted| :: Precedes(sorted[i].name, sorted[j].name)
  {
    var sorted := SortByName(all);
    SortSorts(all);
    forall i, j | 0 <= i < j < |sorted| ensures Precedes(sorted[i].name, sorted[j].name) {
      LessIsLexicographic(sorted[i].name, sorted[j].name);
    }
  }

  /** What a page of the entries from `start` on holds when `asked` entries are asked for. */
  ghost predicate Holds(page: Page, entries: seq<Container>, start: nat, asked: int) {
    var end := Min(start + (if asked <= 0 then 50 else asked), |entries|);
    && start <= end <= |entries|
    && page.containers == entries[start..end]
    && (page.nextToken.Some? <==> end < |entries|)
    && (page.nextToken.Some? ==> PageTokens.decode(page.nextToken.value) == Ok(end))
  }

  lemma PageIsHeld(page: Page, entries: seq<Container>, start: nat, asked: int)
    requires IsPage(PageTokens, page, entries, start, PageSize(asked))
    ensures Holds(page, entries, start, asked)
  {
  }

  /**
  One page: the entries from the token's offset on, as many as asked for, or 50 when zero or less are asked
  for, or all that are left; and a next token exactly when some are left after it.
  */
  lemma PageHolds(build: Builder, all: seq<Deployment>, fetches: nat -> seq<Deployment>, k: nat, maxPageSize: int,
                  token: string)
    requires Listable(build, all, fetches) && PageTokens.decode(token).Ok?
    ensures var page := ListPage(PageTokens, build, fetches(k), maxPageSize, token);
            var entries := Entries(build, SortByName(all));
            && page.Ok? && entries.Ok? && |entries.value| == |all|
            && Holds(page.value, entries.value, Min(PageTokens.decode(token).value, |all|), maxPageSize)
  {
    PageTokensAreSound();
    OnePage(PageTokens, build, all, fetches, k, maxPageSize, token);
    PageIsHeld(ListPage(PageTokens, build, fetches(k), maxPageSize, token).value,
               Entries(build, SortByName(all)).value, StartOf(PageTokens, token, |all|), maxPageSize);
  }

  /**
  Pagination is complete: on an unchanged cluster without conflicts, following the provider's own tokens
  from the empty one, with any sequence of page sizes and although every call fetches in its own order,
  ends and returns every Deployment's entry exactly once, in ascending order of names.
  */
  lemma PaginationIsComplete(build: Builder, all: seq<Deployment>, fetches: nat -> seq<Deployment>, sizes: nat -> int)
    requires Listable(build, all, fetches)
    ensures var sorted := SortByName(all);
            && (forall i, j | 0 <= i < j < |sorted| :: Precedes(sorted[i].name, sorted[j].name))
            && multiset(sorted) == multiset(all)
            && Entries(build, sorted).Ok?
            && var entries := Entries(build, sorted).value;
               && |entries| == |sorted| == |all|
               && (forall i | 0 <= i < |sorted| :: build(sorted[i]) == Ok(entries[i]))
               && var list := Listing(PageTokens, build, fetches, sizes);
                  && Serves(PageTokens, list, entries, sizes) && PageTokens.decode("").Ok?
                  && Follow(PageTokens, list, entries, sizes, "", 0).0 == entries
  {
    AscendingByName(all);
    SortSorts(all);
    EntriesOk(build, SortByName(all));
    PageTokensAreSound();
    ListingServes(PageTokens, build, all, fetches, sizes);
    FollowFrom(PageTokens, Listing(PageTokens, build, fetches, sizes), Entries(build, SortByName(all)).value, sizes, "", 0);
  }

  /** With a fixed page size k, n Deployments take the least number of pages p >= 1 with n <= p * k. */
  lemma PageCount(build: Builder, all: seq<Deployment>, fetches: nat -> seq<Deployment>, sizes: nat -> int, size: int)
    requires Listable(build, all, fetches)
    requires size > 0 && forall i: nat :: sizes(i) == size
    ensures Entries(build, SortByName(all)).Ok?
    ensures var list, entries := Listing(PageTokens, build, fetches, sizes), Entries(build, SortByName(all)).value;
            && Serves(PageTokens, list, entries, sizes) && PageTokens.decode("").Ok?
            && var p := Follow(PageTokens, list, entries, sizes, "", 0).1;
               p >= 1 && |all| <= p * size && (p > 1 ==> (p - 1) * size < |all|)
  {
    SortSorts(all);
    EntriesOk(build, SortByName(all));
    PageTokensAreSound();
    ListingServes(PageTokens, build, all, fetches, sizes);
    var list, entries := Listing(PageTokens, build, fetches, sizes), Entries(build, SortByName(all)).value;
    PagesFrom(PageTokens, list, entries, sizes, size, "", 0);
    AtLeastOne(Follow(PageTokens, list, entries, sizes, "", 0).1 - 1, size);
  }

  lemma AtLeastOne(a: int, b: int)
    requires a >= 0 && b > 0
    ensures a > 0 ==> a * b >= 1
  {
  }

  /**
  With one Deployment for the ID, a listed Deployment's entry is what Get returns for that ID when the
  cluster lists the ID's pods and Services in the same way.
  */
  lemma EntryIsGet(c: Cluster, podsOf: string -> seq<Pod>, svcsOf: string -> seq<Service>, name: string)
    requires name in c.deployments && Selects(DcmSelector(), c.deployments[name].labels)
    requires InstanceId in c.deployments[name].labels
    requires |DepsOf(c, ExtractInstanceId(c.deployments[name].labels))| == 1
    ensures var d := c.deployments[name];
            var id := ExtractInstanceId(d.labels);
            EntryBuilder(podsOf, svcsOf)(d) == Get(c, id, podsOf(id), svcsOf(id))
  {
    OnlyDeployment(c, name);
  }

  lemma OnlyDeployment(c: Cluster, name: string)
    requires name in c.deployments && Selects(DcmSelector(), c.deployments[name].labels)
    requires InstanceId in c.deployments[name].labels
    requires |DepsOf(c, ExtractInstanceId(c.deployments[name].labels))| == 1
    ensures DepsOf(c, ExtractInstanceId(c.deployments[name].labels)) == {name}
  {
    var deps := DepsOf(c, ExtractInstanceId(c.deployments[name].labels));
    ManagedIsSelected(c.deployments[name].labels);
    assert name in deps;
    assert |deps - {name}| == 0;
  }
}
