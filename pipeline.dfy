/** The resource fetcher/writer: for every non-empty worklist, in the fixed
    type order, one lookup per queued key against the type's database, and
    one file per returned document. Both versions of the exporter are
    covered: `Current` (project.ts) and `Legacy` (index.ts). */
module Pipeline {
  import opened Interfaces
  import opened Worklists
  import opened DocumentStore
  import opened FileTree

  /** Which version of the exporter runs. */
  datatype Variant = Current | Legacy

  /** What the exporter takes from outside: its version, the source and
      target organisation ids from the environment, the source database, and
      the flow dependency resolver (checkFlowDependencies, whose definition
      is not part of this model and is taken as an arbitrary function). */
  datatype Env = Env(
    variant: Variant,
    sourceOrg: string,
    targetOrg: string,
    store: Store,
    resolveDeps: Doc -> Doc)

  /** One lookup sent to the database. */
  datatype Request = Request(db: string, collection: string, filter: Filter)

  function DbPrefix(v: Variant): string
  {
    if v == Current then "service-" else ""
  }

  /** The database a worklist's documents live in. */
  function DbName(v: Variant, rtype: string): (r: string)
    ensures |DbPrefix(v)| <= |r| && r[..|DbPrefix(v)|] == DbPrefix(v)
    ensures rtype != "databaseconnections" && rtype != "nlpconnectors" ==> r == DbPrefix(v) + rtype
  {
    if rtype == "databaseconnections" then DbPrefix(v) + "database-connections"
    else if rtype == "nlpconnectors" then DbPrefix(v) + "nlp-connectors"
    else DbPrefix(v) + rtype
  }

  /** The backing database of each worklist of TYPE_KEYS, without the prefix. */
  const BACKING: seq<string> :=
    ["flows", "lexicons", "playbooks", "endpoints", "forms",
     "nlp-connectors", "database-connections", "secrets", "settings"]

  lemma BackingDistinct()
    ensures Distinct(BACKING)
  {
  }

  lemma {:induction false} DbNameAt(v: Variant, i: nat)
    requires i < |TYPE_KEYS|
    ensures DbName(v, TYPE_KEYS[i]) == DbPrefix(v) + BACKING[i]
  {
    if i == 5 || i == 6 {
    } else {
      assert TYPE_KEYS[i] != "databaseconnections" && TYPE_KEYS[i] != "nlpconnectors";
    }
  }

  /** The two irregular names, and no two worklists sharing a database. */
  lemma DbNames(v: Variant)
    ensures DbName(v, "databaseconnections") == DbPrefix(v) + "database-connections"
    ensures DbName(v, "nlpconnectors") == DbPrefix(v) + "nlp-connectors"
    ensures forall i, j :: 0 <= i < |TYPE_KEYS| && 0 <= j < |TYPE_KEYS| && i != j ==>
      DbName(v, TYPE_KEYS[i]) != DbName(v, TYPE_KEYS[j])
  {
    var n := |DbPrefix(v)|;
    forall i, j | 0 <= i < |TYPE_KEYS| && 0 <= j < |TYPE_KEYS| && i != j
      ensures DbName(v, TYPE_KEYS[i]) != DbName(v, TYPE_KEYS[j])
    {
      DbNameAt(v, i);
      DbNameAt(v, j);
      BackingDistinct();
      assert (DbPrefix(v) + BACKING[i])[n..] == BACKING[i];
      assert (DbPrefix(v) + BACKING[j])[n..] == BACKING[j];
    }
  }

  /** The query for key `k` of worklist `rtype`: flows by parentId, all
      others by _id. */
  function QueryFor(rtype: string, k: Key): (f: Filter)
    ensures f.key == k
    ensures f.ByParentId? <==> rtype == "flows"
  {
    if rtype == "flows" then ByParentId(k) else ById(k)
  }

  // ---------------------------------------------------------------------------
  // Preparing a document for writing

  /** The flow is marked as trained. */
  predicate Trained(d: Doc)
  {
    d.newIntents.Some? && d.newIntents.value.trained == Value(true)
  }

  /** The flow carries a (non-empty) model id. */
  predicate HasModel(d: Doc)
  {
    d.newIntents.Some? && d.newIntents.value.modelId.Value? && d.newIntents.value.modelId.value != ""
  }

  /** Forces retraining: a true `trained` becomes false, a truthy `modelId`
      becomes null, and nothing else changes. */
  function ResetTraining(d: Doc): (r: Doc)
    ensures r.id == d.id && r.parentId == d.parentId && r.rest == d.rest
    ensures r.newIntents.Some? == d.newIntents.Some?
    ensures !Trained(r) && !HasModel(r)
    ensures Trained(d) ==> r.newIntents.value.trained == Value(false)
    ensures HasModel(d) ==> r.newIntents.value.modelId == Null
    ensures r.newIntents.Some? && !Trained(d) ==> r.newIntents.value.trained == d.newIntents.value.trained
    ensures r.newIntents.Some? && !HasModel(d) ==> r.newIntents.value.modelId == d.newIntents.value.modelId
    ensures !Trained(d) && !HasModel(d) ==> r == d
  {
    match d.newIntents
    case None => d
    case Some(ni) =>
      var ni1 := if ni.trained == Value(true) then ni.(trained := Value(false)) else ni;
      var ni2 := if ni1.modelId.Value? && ni1.modelId.value != "" then ni1.(modelId := Null) else ni1;
      d.(newIntents := Some(ni2))
  }

  /** The document as written: in the current version a flow has its
      dependencies resolved and its training reset; everything else is
      written as fetched. */
  function Prepare(env: Env, rtype: string, d: Doc): (r: Doc)
    ensures env.variant == Current && rtype == "flows" ==> !Trained(r) && !HasModel(r)
    ensures env.variant == Legacy || rtype != "flows" ==> r == d
  {
    if env.variant == Current && rtype == "flows" then ResetTraining(env.resolveDeps(d)) else d
  }

  /** Where a resource file goes: `<root>/<type>/<id>.json`. */
  function ResourcePath(root: Path, rtype: string, id: string): (r: Path)
    ensures Under(root + [rtype], r) && |r| == |root| + 2 && r[|root| + 1] == id + ".json"
  {
    root + [rtype, id + ".json"]
  }

  /** The path a fetched document is written to, named by its `_id` after
      preparation. */
  function PathOf(env: Env, root: Path, rtype: string, d: Doc): (r: Path)
    ensures Under(root + [rtype], r) && |r| == |root| + 2 && r[|root| + 1] == Prepare(env, rtype, d).id + ".json"
    ensures env.variant == Legacy || rtype != "flows" ==> r == ResourcePath(root, rtype, d.id)
  {
    ResourcePath(root, rtype, Prepare(env, rtype, d).id)
  }

  /** What a fetched document's file holds. */
  function BodyOf(env: Env, rtype: string, d: Doc): (r: FileBody)
    ensures r.DocFile? && r.doc == Prepare(env, rtype, d)
    ensures env.variant == Legacy ==> r == DocFile(d, false)
    ensures env.variant == Current ==> r.normalized
    ensures rtype != "flows" ==> r.doc == d
    ensures env.variant == Current && rtype == "flows" ==> !Trained(r.doc) && !HasModel(r.doc)
  {
    DocFile(Prepare(env, rtype, d), env.variant == Current)
  }

  // ---------------------------------------------------------------------------
  // Specification of the loops

  /** storeResources: each document written in turn. */
  function StoreAll(env: Env, root: Path, rtype: string, docs: seq<Doc>, files: Files): (r: Files)
    ensures files.Keys <= r.Keys
    decreases |docs|
  {
    if docs == [] then files
    else StoreAll(env, root, rtype, docs[1..], files[PathOf(env, root, rtype, docs[0]) := BodyOf(env, rtype, docs[0])])
  }

  /** The documents one lookup returns. */
  function Lookup(env: Env, rtype: string, k: Key): seq<Doc>
  {
    Find(env.store, DbName(env.variant, rtype), rtype, QueryFor(rtype, k))
  }

  /** Everything the lookups for `keys` return, in order. */
  function Fetched(env: Env, rtype: string, keys: seq<Key>): seq<Doc>
  {
    if keys == [] then [] else Lookup(env, rtype, keys[0]) + Fetched(env, rtype, keys[1..])
  }

  /** The inner loop: one lookup per key, its results stored. */
  function FetchKeys(env: Env, root: Path, rtype: string, keys: seq<Key>, files: Files): (r: Files)
    ensures files.Keys <= r.Keys
  {
    if keys == [] then files
    else FetchKeys(env, root, rtype, keys[1..], StoreAll(env, root, rtype, Lookup(env, rtype, keys[0]), files))
  }

  /** The outer loop over the worklists named by `types`, skipping empty ones. */
  function FetchTypes(env: Env, root: Path, w: Worklists, types: seq<string>, files: Files): (r: Files)
    ensures files.Keys <= r.Keys
  {
    if types == [] then files
    else
      var keys := Queue(w, types[0]);
      var files' := if |keys| > 0 then FetchKeys(env, root, types[0], keys, files) else files;
      FetchTypes(env, root, w, types[1..], files')
  }

  /** The lookups sent for `keys` of worklist `rtype`. */
  function Requests(v: Variant, rtype: string, keys: seq<Key>): (r: seq<Request>)
    ensures |r| == |keys|
  {
    if keys == [] then []
    else [Request(DbName(v, rtype), rtype, QueryFor(rtype, keys[0]))] + Requests(v, rtype, keys[1..])
  }

  /** The lookups sent for all worklists named by `types`, in that order. */
  function Plan(v: Variant, w: Worklists, types: seq<string>): seq<Request>
  {
    if types == [] then [] else Block(v, w, types[0]) + Plan(v, w, types[1..])
  }

  /** The lookups sent for worklist `t`: none when it is empty. */
  function Block(v: Variant, w: Worklists, t: string): (r: seq<Request>)
    ensures |r| == |Queue(w, t)|
  {
    if |Queue(w, t)| > 0 then Requests(v, t, Queue(w, t)) else []
  }

  // ---------------------------------------------------------------------------
  // The imperative loops

  /** Writes one file per document; in the current version flows are first
      passed to the dependency resolver and have their training reset. */
  method StoreResources(env: Env, root: Path, rtype: string, docs: seq<Doc>, disk: Disk)
    modifies disk
    ensures disk.files == StoreAll(env, root, rtype, docs, old(disk.files))
  {
    for i := 0 to |docs|
      invariant StoreAll(env, root, rtype, docs[i..], disk.files) == StoreAll(env, root, rtype, docs, old(disk.files))
    {
      assert docs[i..][0] == docs[i] && docs[i..][1..] == docs[i + 1..];
      var d := docs[i];
      if env.variant == Current && rtype == "flows" {
        d := env.resolveDeps(d);
        d := ResetTraining(d);
      }
      disk.Write(ResourcePath(root, rtype, d.id), DocFile(d, env.variant == Current));
    }
    assert docs[|docs|..] == [];
  }

  /** The inner loop for one non-empty worklist: looks up every key in the
      type's database and stores what comes back. The current version stores
      only non-empty results; the legacy one always calls the store step.
      Returns the lookups sent. */
  method RetrieveType(env: Env, root: Path, rtype: string, keys: seq<Key>, disk: Disk) returns (sent: seq<Request>)
    modifies disk
    ensures sent == Requests(env.variant, rtype, keys)
    ensures disk.files == FetchKeys(env, root, rtype, keys, old(disk.files))
  {
    sent := [];
    var dbName := DbName(env.variant, rtype);
    for ki := 0 to |keys|
      invariant sent + Requests(env.variant, rtype, keys[ki..]) == Requests(env.variant, rtype, keys)
      invariant FetchKeys(env, root, rtype, keys[ki..], disk.files) == FetchKeys(env, root, rtype, keys, old(disk.files))
    {
      assert keys[ki..][0] == keys[ki] && keys[ki..][1..] == keys[ki + 1..];
      var query := QueryFor(rtype, keys[ki]);
      var found := Find(env.store, dbName, rtype, query);
      var request := Request(dbName, rtype, query);
      var later := Requests(env.variant, rtype, keys[ki + 1..]);
      assert Requests(env.variant, rtype, keys[ki..]) == [request] + later;
      assert (sent + [request]) + later == sent + ([request] + later);
      ghost var files := disk.files;
      sent := sent + [request];
      if |found| > 0 || env.variant == Legacy {
        StoreResources(env, root, rtype, found, disk);
      }
      assert disk.files == StoreAll(env, root, rtype, Lookup(env, rtype, keys[ki]), files);
    }
    assert keys[|keys|..] == [];
  }

  lemma {:induction false} PlanAppend(v: Variant, w: Worklists, a: seq<string>, b: seq<string>)
    ensures Plan(v, w, a + b) == Plan(v, w, a) + Plan(v, w, b)
    decreases |a|
  {
    if a == [] {
      assert a + b == b;
    } else {
      assert (a + b)[0] == a[0] && (a + b)[1..] == a[1..] + b;
      PlanAppend(v, w, a[1..], b);
      var head := Block(v, w, a[0]);
      assert Plan(v, w, a + b) == head + Plan(v, w, a[1..] + b);
      assert head + (Plan(v, w, a[1..]) + Plan(v, w, b)) == (head + Plan(v, w, a[1..])) + Plan(v, w, b);
    }
  }

  lemma PlanSnoc(v: Variant, w: Worklists, types: seq<string>, i: nat)
    requires i < |types|
    ensures Plan(v, w, types[..i + 1])
      == Plan(v, w, types[..i]) + Block(v, w, types[i])
  {
    assert types[..i + 1] == types[..i] + [types[i]];
    PlanAppend(v, w, types[..i], [types[i]]);
  }

  lemma {:induction false} FetchTypesAppend(env: Env, root: Path, w: Worklists, a: seq<string>, b: seq<string>, files: Files)
    ensures FetchTypes(env, root, w, a + b, files) == FetchTypes(env, root, w, b, FetchTypes(env, root, w, a, files))
    decreases |a|
  {
    if a == [] {
      assert a + b == b;
    } else {
      assert (a + b)[0] == a[0] && (a + b)[1..] == a[1..] + b;
      var f1 := if |Queue(w, a[0])| > 0 then FetchKeys(env, root, a[0], Queue(w, a[0]), files) else files;
      FetchTypesAppend(env, root, w, a[1..], b, f1);
    }
  }

  lemma FetchTypesSnoc(env: Env, root: Path, w: Worklists, types: seq<string>, i: nat, files: Files)
    requires i < |types|
    ensures var f := FetchTypes(env, root, w, types[..i], files);
      FetchTypes(env, root, w, types[..i + 1], files)
      == if |Queue(w, types[i])| > 0 then FetchKeys(env, root, types[i], Queue(w, types[i]), f) else f
  {
    assert types[..i + 1] == types[..i] + [types[i]];
    FetchTypesAppend(env, root, w, types[..i], [types[i]], files);
  }

  /** Visits the worklists in the order `types` (the key order of the
      worklist object), skipping empty ones. Returns the lookups sent. */
  method RetrieveResources(env: Env, root: Path, w: Worklists, types: seq<string>, disk: Disk)
    returns (sent: seq<Request>)
    requires forall t :: t in types ==> t in w
    modifies disk
    ensures sent == Plan(env.variant, w, types)
    ensures disk.files == FetchTypes(env, root, w, types, old(disk.files))
  {
    sent := [];
    ghost var files0 := disk.files;
    for ti := 0 to |types|
      invariant sent == Plan(env.variant, w, types[..ti])
      invariant disk.files == FetchTypes(env, root, w, types[..ti], files0)
    {
      var rtype := types[ti];
      PlanSnoc(env.variant, w, types, ti);
      FetchTypesSnoc(env, root, w, types, ti, files0);
      if |w[rtype]| > 0 {
        var more := RetrieveType(env, root, rtype, w[rtype], disk);
        sent := sent + more;
      } else {
        assert sent + [] == sent;
      }
    }
    assert types[..|types|] == types;
  }
}
