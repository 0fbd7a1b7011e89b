/** Two accepted uploads after which the list query never ends: an owner in the middle of a chain
    is registered again, as an FQ of what it owns. */
module OwnerTurnedFq {
  import opened Collections
  import opened Digraphs
  import opened Hierarchy
  import opened Idempotence
  import opened MergedGraph
  import opened Names
  import opened Options
  import opened Registry
  import opened RegistryLinks
  import opened SampleUploads
  import opened StoreInvariant
  import opened SubtreeQuery
  import opened Tables
  import opened UploadAcceptance
  import opened UploadTypes
  import opened UploadValidation
  import opened WriteTheorems

  /** What fetchCandidateRoots selects: an Entity that nobody owns. */
  ghost predicate IsListRoot(t: Tables, id: nat) {
    && (exists k :: k in t.entities && t.entities[k].id == id && t.entities[k].registrationType == Entity)
    && forall e :: e in t.edges ==> e.1 != id
  }

  /** `r` owns `a` and `a` owns `b`. */
  function Chain(r: string, a: string, b: string): UploadSheets {
    Owning([r, a, b], [(r, a), (a, b)], "60")
  }

  ghost predicate ThreeNames(r: string, a: string, b: string) {
    && r != a && r != b && a != b && IsKey(r) && IsKey(a) && IsKey(b)
    && SafeName(r) && SafeName(a) && SafeName(b)
  }

  lemma ChainShares(base: Shares, r: string, a: string, b: string)
    requires ThreeNames(r, a, b) && base == map[]
    ensures MergeShares(base, OwnershipRowsOf(Chain(r, a, b))) == map[(r, a) := 6000, (a, b) := 6000]
  {
    var edges := [(r, a), (a, b)];
    var rows := OwnershipRowsOf(Chain(r, a, b));
    SamplePercents();
    OwningRow([r, a, b], edges, "60", 0);
    OwningRow([r, a, b], edges, "60", 1);
    assert rows[..1] == [rows[0]] && rows[..1][..0] == [];
    assert MergeShares(base, rows[..1]) == map[(r, a) := 6000];
  }

  lemma ChainSound(r: string, a: string, b: string)
    requires ThreeNames(r, a, b)
    ensures SoundShares(map[(r, a) := 6000, (a, b) := 6000])
  {
    var order := [b, a, r];
    assert order[0] == b && order[1] == a && order[2] == r;
    OneOwnerSound(map[(r, a) := 6000, (a, b) := 6000], order);
  }

  lemma ChainConnects(r: string, a: string, b: string)
    requires ThreeNames(r, a, b)
    ensures AreKeys([r, a, b]) && Connects([(r, a), (a, b)], [r, a, b])
    ensures forall n :: n in [r, a, b] ==> SafeName(n)
  {
    SplitJoin(r, a);
    SplitJoin(a, b);
  }

  lemma ChainAccepted(r: string, a: string, b: string, today: int, maxRows: nat)
    requires ThreeNames(r, a, b) && maxRows >= 3
    ensures Accepted(EMPTY_TABLES, Chain(r, a, b), today, maxRows)
  {
    ChainConnects(r, a, b);
    SamplePercents();
    OwningAccepted(EMPTY_TABLES, [r, a, b], [(r, a), (a, b)], "60", today, maxRows);
    EmptyShares();
    ChainShares(ShareMap(EMPTY_TABLES), r, a, b);
    ChainSound(r, a, b);
    AcceptedParts(EMPTY_TABLES, Chain(r, a, b), today, maxRows, map[(r, a) := 6000, (a, b) := 6000]);
  }

  lemma RegisteringLeavesShares(t: Tables, a: string, b: string)
    ensures SharesAfter(t, Registering(a, b)) == ShareMap(t)
  {
    assert OwnershipRowsOf(Registering(a, b)) == [];
  }

  lemma RegisteringPasses(t: Tables, a: string, b: string, today: int, maxRows: nat)
    requires SoundShares(ShareMap(t)) && IsKey(a) && IsKey(b) && a != b && maxRows >= 2
    ensures Accepted(t, Registering(a, b), today, maxRows)
  {
    RegisteringAccepted(t, a, b, today, maxRows);
    RegisteringLeavesShares(t, a, b);
    AcceptedParts(t, Registering(a, b), today, maxRows, ShareMap(t));
  }

  lemma TwoKeys(rows: seq<UploadEntityRow>, a: string, b: string)
    requires |rows| == 2 && EntityKey(rows[0]) == a && EntityKey(rows[1]) == b
    ensures forall k :: IsKeyOf(rows, k) ==> k == a || k == b
    ensures SafeName(a) && SafeName(b) ==> forall r :: r in rows ==> SafeName(EntityKey(r))
  {
  }

  lemma RegisteringIsSafe(a: string, b: string)
    requires IsKey(a) && IsKey(b) && SafeName(a) && SafeName(b)
    ensures SafeUpload(Registering(a, b))
  {
    RegisteringRows(a, b);
    TwoKeys(BatchOf(Registering(a, b)).entityRows, a, b);
  }

  lemma FirstUpdate(ids: IdByName, rows: seq<UploadEntityRow>, u: DomesticUpdate)
    requires |rows| == 2 && UpdateOfRow(ids, rows[0]) == [u]
    ensures u in DomesticUpdates(ids, rows)
  {
    assert u in UpdateOfRow(ids, rows[0]) && rows[0] in rows;
    FlatMapMembers(UpdateOfRow, ids, rows, u);
  }

  /** After the second upload `a` is stored as an FQ of `b`. */
  lemma RegisteredAsFq(t: Tables, a: string, b: string)
    requires IsKey(a) && IsKey(b) && a != b && EntitiesReflect(t, BatchOf(Registering(a, b)).entityRows)
    ensures a in t.entities && b in t.entities && FqUnder(t, t.entities[b].id, t.entities[a].id)
  {
    var rows := BatchOf(Registering(a, b)).entityRows;
    RegisteringRows(a, b);
    assert Stored(t, rows[0]) && Stored(t, rows[1]);
    var u := DomesticUpdate(a, Some(t.entities[b].id));
    FirstUpdate(AllIds(t), rows, u);
    assert InEffect(t, u);
  }

  lemma ShareIsEdge(t: Tables, p: string, c: string)
    requires (p, c) in ShareMap(t)
    ensures p in t.entities && c in t.entities && (t.entities[p].id, t.entities[c].id) in t.edges
  {
  }

  /** The top of the chain stays an Entity that nobody owns. */
  lemma TopIsListRoot(t: Tables, r: string, a: string, b: string)
    requires IdsUnique(t) && EdgesResolve(t) && r != a && r != b
    requires r in t.entities && t.entities[r].registrationType == Entity
    requires ShareMap(t) == map[(r, a) := 6000, (a, b) := 6000]
    ensures IsListRoot(t, t.entities[r].id)
  {
    forall e | e in t.edges
      ensures e.1 != t.entities[r].id
    {
      EdgeByName(t, e);
      var named := (KeyOfId(t, e.0), KeyOfId(t, e.1));
      assert named == (r, a) || named == (a, b);
    }
  }

  lemma LoopBelowRoot(t: Tables, links: seq<Link>, r: nat, a: nat, b: nat)
    requires ListsChildLinks(t, links) && (r, a) in t.edges && (a, b) in t.edges && FqUnder(t, b, a)
    ensures !NoLiveLoop(links, [r])
  {
    var g := GraphOf(links);
    EdgesAreLinks(t, links);
    assert (r, a) in t.edges.Keys && (a, b) in t.edges.Keys;
    EdgeReaches(g, r, a);
    assert r in [r] && IsLive(links, [r], a);
    assert IsCycle(g, [a, b, a]) && [a, b, a][0] == a;
  }

  lemma FirstUploadLands(t': Tables, r: string, a: string, b: string, today: int, limits: Limits)
    requires limits.chunkSize > 0 && limits.maxRows >= 3 && ThreeNames(r, a, b)
    requires IsStep(EMPTY_TABLES, Upload(Chain(r, a, b), today), limits, t')
    ensures Landed(EMPTY_TABLES, BatchOf(Chain(r, a, b)), t') && Invariant(t')
  {
    EmptyTablesInvariant();
    ChainAccepted(r, a, b, today, limits.maxRows);
    ChainConnects(r, a, b);
    OwningIsSafe([r, a, b], [(r, a), (a, b)], "60");
    NothingToFile(Chain(r, a, b), limits.chunkSize);
    AcceptedStep(EMPTY_TABLES, Upload(Chain(r, a, b), today), limits, t');
  }

  lemma FirstUpload(t': Tables, r: string, a: string, b: string)
    requires ThreeNames(r, a, b) && Landed(EMPTY_TABLES, BatchOf(Chain(r, a, b)), t')
    ensures ShareMap(t') == map[(r, a) := 6000, (a, b) := 6000]
    ensures r in t'.entities && t'.entities[r].registrationType == Entity
  {
    LandedShares(EMPTY_TABLES, Chain(r, a, b), t');
    EmptyShares();
    ChainShares(ShareMap(EMPTY_TABLES), r, a, b);
    LandedEntities(EMPTY_TABLES, BatchOf(Chain(r, a, b)), t');
    ChainConnects(r, a, b);
    OwningKeys([r, a, b], [(r, a), (a, b)], "60");
    assert Stored(t', BatchOf(Chain(r, a, b)).entityRows[0]);
  }

  lemma SecondUploadLands(t: Tables, t': Tables, a: string, b: string, today: int, limits: Limits)
    requires limits.chunkSize > 0 && limits.maxRows >= 3 && Invariant(t)
    requires IsKey(a) && IsKey(b) && a != b && SafeName(a) && SafeName(b)
    requires IsStep(t, Upload(Registering(a, b), today), limits, t')
    ensures Landed(t, BatchOf(Registering(a, b)), t') && Invariant(t')
  {
    RegisteringPasses(t, a, b, today, limits.maxRows);
    RegisteringIsSafe(a, b);
    NothingToFile(Registering(a, b), limits.chunkSize);
    AcceptedStep(t, Upload(Registering(a, b), today), limits, t');
  }

  lemma SecondUpload(t: Tables, t': Tables, a: string, b: string)
    requires IsKey(a) && IsKey(b) && a != b && Landed(t, BatchOf(Registering(a, b)), t')
    ensures ShareMap(t') == ShareMap(t)
    ensures a in t'.entities && b in t'.entities && FqUnder(t', t'.entities[b].id, t'.entities[a].id)
  {
    LandedShares(t, Registering(a, b), t');
    RegisteringLeavesShares(t, a, b);
    LandedEntities(t, BatchOf(Registering(a, b)), t');
    RegisteredAsFq(t', a, b);
  }

  lemma RegisteringNames(r: string, a: string, b: string)
    requires IsKey(a) && IsKey(b) && r != a && r != b
    ensures !IsKeyOf(BatchOf(Registering(a, b)).entityRows, r)
  {
    RegisteringRows(a, b);
    TwoKeys(BatchOf(Registering(a, b)).entityRows, a, b);
  }

  lemma TopUntouched(t: Tables, t': Tables, r: string, a: string, b: string)
    requires ThreeNames(r, a, b) && Landed(t, BatchOf(Registering(a, b)), t')
    requires r in t.entities && t.entities[r].registrationType == Entity
    ensures r in t'.entities && t'.entities[r].registrationType == Entity
  {
    RegisteringNames(r, a, b);
    OthersUntouched(t, BatchOf(Registering(a, b)), r);
  }

  /** Whatever the three names: in every run of the two uploads the list page has a root from which
      the recursive query never ends. */
  lemma ListQueryNeverEnds(states: seq<Tables>, r: string, a: string, b: string, today: int, later: int,
                           limits: Limits, links: seq<Link>)
    requires limits.chunkSize > 0 && limits.maxRows >= 3 && ThreeNames(r, a, b)
    requires IsHistory(states, [Upload(Chain(r, a, b), today), Upload(Registering(a, b), later)], limits)
    requires ListsChildLinks(states[2], links)
    ensures Invariant(states[2]) && r in states[2].entities
    ensures var root := states[2].entities[r].id;
      IsListRoot(states[2], root) && forall n: nat :: WalksOf(links, [root], n) != []
  {
    var uploads := [Upload(Chain(r, a, b), today), Upload(Registering(a, b), later)];
    var t := states[2];
    assert StepAt(states, uploads, limits, 0) && StepAt(states, uploads, limits, 1);
    FirstUploadLands(states[1], r, a, b, today, limits);
    FirstUpload(states[1], r, a, b);
    SecondUploadLands(states[1], t, a, b, later, limits);
    SecondUpload(states[1], t, a, b);
    TopUntouched(states[1], t, r, a, b);
    TopIsListRoot(t, r, a, b);
    ShareIsEdge(t, r, a);
    ShareIsEdge(t, a, b);
    LoopBelowRoot(t, links, t.entities[r].id, t.entities[a].id, t.entities[b].id);
    QueryEndsExact(links, [t.entities[r].id]);
  }
}
