/** Properties of the fetch/store specification: which lookups are sent, in
    what order, and what each written file holds. */
module PipelineFacts {
  import opened Interfaces
  import opened Worklists
  import opened DocumentStore
  import opened FileTree
  import opened Pipeline

  // ---------------------------------------------------------------------------
  // Writing documents

  /** storeResources writes a file for every document, at the path given by
      the document's own id, and nothing else; when several documents share a
      path, the last of them wins. */
  lemma {:induction false} StoreAllAt(env: Env, root: Path, rtype: string, docs: seq<Doc>, files: Files, p: Path)
    ensures p in StoreAll(env, root, rtype, docs, files) <==>
      p in files || exists i :: 0 <= i < |docs| && PathOf(env, root, rtype, docs[i]) == p
    ensures forall i ::
      (0 <= i < |docs| && PathOf(env, root, rtype, docs[i]) == p
       && (forall j :: i < j < |docs| ==> PathOf(env, root, rtype, docs[j]) != p)) ==>
      StoreAll(env, root, rtype, docs, files)[p] == BodyOf(env, rtype, docs[i])
    ensures (forall i :: 0 <= i < |docs| ==> PathOf(env, root, rtype, docs[i]) != p) ==>
      SameAt(StoreAll(env, root, rtype, docs, files), files, p)
  {
    StoreAllHas(env, root, rtype, docs, files, p);
    StoreAllLast(env, root, rtype, docs, files, p);
    StoreAllUntouched(env, root, rtype, docs, files, p);
  }

  lemma {:induction false} StoreAllHas(env: Env, root: Path, rtype: string, docs: seq<Doc>, files: Files, p: Path)
    ensures p in StoreAll(env, root, rtype, docs, files) <==>
      p in files || exists i :: 0 <= i < |docs| && PathOf(env, root, rtype, docs[i]) == p
    decreases |docs|
  {
    if docs != [] {
      var files' := files[PathOf(env, root, rtype, docs[0]) := BodyOf(env, rtype, docs[0])];
      var rest := docs[1..];
      StoreAllHas(env, root, rtype, rest, files', p);
      if exists i :: 0 <= i < |docs| && PathOf(env, root, rtype, docs[i]) == p {
        var i :| 0 <= i < |docs| && PathOf(env, root, rtype, docs[i]) == p;
        if i > 0 { assert rest[i - 1] == docs[i]; }
      }
      if exists i :: 0 <= i < |rest| && PathOf(env, root, rtype, rest[i]) == p {
        var i :| 0 <= i < |rest| && PathOf(env, root, rtype, rest[i]) == p;
        assert docs[i + 1] == rest[i];
      }
    }
  }

  lemma StoreAllLast(env: Env, root: Path, rtype: string, docs: seq<Doc>, files: Files, p: Path)
    ensures forall i ::
      (0 <= i < |docs| && PathOf(env, root, rtype, docs[i]) == p
       && (forall j :: i < j < |docs| ==> PathOf(env, root, rtype, docs[j]) != p)) ==>
      p in StoreAll(env, root, rtype, docs, files)
      && StoreAll(env, root, rtype, docs, files)[p] == BodyOf(env, rtype, docs[i])
  {
    forall i | 0 <= i < |docs| && PathOf(env, root, rtype, docs[i]) == p
               && (forall j :: i < j < |docs| ==> PathOf(env, root, rtype, docs[j]) != p)
      ensures p in StoreAll(env, root, rtype, docs, files)
              && StoreAll(env, root, rtype, docs, files)[p] == BodyOf(env, rtype, docs[i])
    {
      StoreAllLastAt(env, root, rtype, docs, files, p, i);
    }
  }

  /** The file at `p` is that of document `i` when no later document has path `p`. */
  lemma {:induction false} StoreAllLastAt(env: Env, root: Path, rtype: string, docs: seq<Doc>, files: Files, p: Path, i: nat)
    requires i < |docs| && PathOf(env, root, rtype, docs[i]) == p
    requires forall j :: i < j < |docs| ==> PathOf(env, root, rtype, docs[j]) != p
    ensures p in StoreAll(env, root, rtype, docs, files)
            && StoreAll(env, root, rtype, docs, files)[p] == BodyOf(env, rtype, docs[i])
    decreases |docs|
  {
    var files' := files[PathOf(env, root, rtype, docs[0]) := BodyOf(env, rtype, docs[0])];
    var rest := docs[1..];
    assert StoreAll(env, root, rtype, docs, files) == StoreAll(env, root, rtype, rest, files');
    if i == 0 {
      forall j | 0 <= j < |rest| ensures PathOf(env, root, rtype, rest[j]) != p {
        assert rest[j] == docs[j + 1];
      }
      StoreAllUntouched(env, root, rtype, rest, files', p);
    } else {
      forall j | i - 1 < j < |rest| ensures PathOf(env, root, rtype, rest[j]) != p {
        assert rest[j] == docs[j + 1];
      }
      assert rest[i - 1] == docs[i];
      StoreAllLastAt(env, root, rtype, rest, files', p, i - 1);
    }
  }

  lemma {:induction false} StoreAllUntouched(env: Env, root: Path, rtype: string, docs: seq<Doc>, files: Files, p: Path)
    ensures (forall i :: 0 <= i < |docs| ==> PathOf(env, root, rtype, docs[i]) != p) ==>
      SameAt(StoreAll(env, root, rtype, docs, files), files, p)
    decreases |docs|
  {
    if docs != [] && forall i :: 0 <= i < |docs| ==> PathOf(env, root, rtype, docs[i]) != p {
      var files' := files[PathOf(env, root, rtype, docs[0]) := BodyOf(env, rtype, docs[0])];
      var rest := docs[1..];
      forall i | 0 <= i < |rest| ensures PathOf(env, root, rtype, rest[i]) != p {
        assert rest[i] == docs[i + 1];
      }
      StoreAllUntouched(env, root, rtype, rest, files', p);
    }
  }

  /** Every path storeResources writes lies in `<root>/<rtype>`. */
  lemma StoreAllElsewhere(env: Env, root: Path, rtype: string, docs: seq<Doc>, files: Files, p: Path)
    requires !Under(root + [rtype], p)
    ensures SameAt(StoreAll(env, root, rtype, docs, files), files, p)
  {
    forall i | 0 <= i < |docs| ensures PathOf(env, root, rtype, docs[i]) != p {
      var q := PathOf(env, root, rtype, docs[i]);
      assert q[..|root + [rtype]|] == root + [rtype];
    }
    StoreAllAt(env, root, rtype, docs, files, p);
  }

  /** What storeResources leaves at `p` depends only on what was at `p`. */
  lemma {:induction false} StoreAllPointwise(env: Env, root: Path, rtype: string, docs: seq<Doc>, f: Files, g: Files, p: Path)
    requires SameAt(f, g, p)
    ensures SameAt(StoreAll(env, root, rtype, docs, f), StoreAll(env, root, rtype, docs, g), p)
    decreases |docs|
  {
    if docs != [] {
      var q := PathOf(env, root, rtype, docs[0]);
      var b := BodyOf(env, rtype, docs[0]);
      StoreAllPointwise(env, root, rtype, docs[1..], f[q := b], g[q := b], p);
    }
  }

  lemma {:induction false} StoreAllAppend(env: Env, root: Path, rtype: string, a: seq<Doc>, b: seq<Doc>, files: Files)
    ensures StoreAll(env, root, rtype, a + b, files) == StoreAll(env, root, rtype, b, StoreAll(env, root, rtype, a, files))
    decreases |a|
  {
    if a == [] {
      assert a + b == b;
    } else {
      assert (a + b)[0] == a[0] && (a + b)[1..] == a[1..] + b;
      StoreAllAppend(env, root, rtype, a[1..], b,
        files[PathOf(env, root, rtype, a[0]) := BodyOf(env, rtype, a[0])]);
    }
  }

  /** The loop over the keys of one worklist writes, in order, everything its
      lookups return, as if all results were stored in one go. */
  lemma {:induction false} FetchKeysStoresFetched(env: Env, root: Path, rtype: string, keys: seq<Key>, files: Files)
    ensures FetchKeys(env, root, rtype, keys, files) == StoreAll(env, root, rtype, Fetched(env, rtype, keys), files)
    decreases |keys|
  {
    if keys != [] {
      var found := Lookup(env, rtype, keys[0]);
      FetchKeysStoresFetched(env, root, rtype, keys[1..], StoreAll(env, root, rtype, found, files));
      StoreAllAppend(env, root, rtype, found, Fetched(env, rtype, keys[1..]), files);
    }
  }

  /** A document returned for worklist `rtype` is one of that type's
      database and collection that matches one of the queued keys. */
  lemma {:induction false} FetchedFrom(env: Env, rtype: string, keys: seq<Key>, d: Doc)
    ensures d in Fetched(env, rtype, keys) <==>
      exists i :: 0 <= i < |keys| && d in Collection(env.store, DbName(env.variant, rtype), rtype)
                                  && Matches(QueryFor(rtype, keys[i]), d)
    decreases |keys|
  {
    if keys != [] {
      FetchedFrom(env, rtype, keys[1..], d);
      assert forall i :: 0 < i < |keys| ==> keys[i] == keys[1..][i - 1];
      if exists i :: 0 <= i < |keys[1..]| && d in Collection(env.store, DbName(env.variant, rtype), rtype)
                                         && Matches(QueryFor(rtype, keys[1..][i]), d) {
        var i :| 0 <= i < |keys[1..]| && d in Collection(env.store, DbName(env.variant, rtype), rtype)
                                      && Matches(QueryFor(rtype, keys[1..][i]), d);
        assert keys[i + 1] == keys[1..][i];
      }
    }
  }

  lemma {:induction false} FetchedAppend(env: Env, rtype: string, a: seq<Key>, b: seq<Key>)
    ensures Fetched(env, rtype, a + b) == Fetched(env, rtype, a) + Fetched(env, rtype, b)
    decreases |a|
  {
    if a == [] {
      assert a + b == b;
    } else {
      assert (a + b)[0] == a[0] && (a + b)[1..] == a[1..] + b;
      FetchedAppend(env, rtype, a[1..], b);
    }
  }

  /** A dangling key, whose lookup returns nothing, writes no file and does
      not stop the loop: the files end up as if it had never been queued. */
  lemma DanglingKeyWritesNothing(env: Env, root: Path, rtype: string, a: seq<Key>, k: Key, b: seq<Key>, files: Files)
    requires Lookup(env, rtype, k) == []
    ensures FetchKeys(env, root, rtype, a + [k] + b, files) == FetchKeys(env, root, rtype, a + b, files)
  {
    FetchKeysStoresFetched(env, root, rtype, a + [k] + b, files);
    FetchKeysStoresFetched(env, root, rtype, a + b, files);
    FetchedAppend(env, rtype, a + [k], b);
    FetchedAppend(env, rtype, a, [k]);
    FetchedAppend(env, rtype, a, b);
    assert [k][1..] == [];
    assert Fetched(env, rtype, [k]) == [];
    assert Fetched(env, rtype, a + [k]) == Fetched(env, rtype, a);
  }

  // ---------------------------------------------------------------------------
  // The loop over worklists

  /** Paths outside every `<root>/<t>` folder are left alone. */
  lemma {:induction false} FetchTypesElsewhere(env: Env, root: Path, w: Worklists, types: seq<string>, files: Files, p: Path)
    requires forall t :: t in types ==> !Under(root + [t], p)
    ensures SameAt(FetchTypes(env, root, w, types, files), files, p)
    decreases |types|
  {
    if types != [] {
      var t := types[0];
      var files' := if |Queue(w, t)| > 0 then FetchKeys(env, root, t, Queue(w, t), files) else files;
      if |Queue(w, t)| > 0 {
        FetchKeysStoresFetched(env, root, t, Queue(w, t), files);
        StoreAllElsewhere(env, root, t, Fetched(env, t, Queue(w, t)), files, p);
      }
      FetchTypesElsewhere(env, root, w, types[1..], files', p);
    }
  }

  lemma UnderChild(root: Path, t: string, p: Path)
    requires Under(root + [t], p)
    ensures |root| < |p| && p[|root|] == t && Under(root, p)
  {
    assert p[..|root| + 1][|root|] == (root + [t])[|root|];
    assert p[..|root|] == p[..|root| + 1][..|root|];
  }

  /** Inside folder `<root>/<t>`, the whole fetch leaves exactly what storing
      every document fetched for worklist `t`, in order, leaves there: other
      worklists never write into it. */
  lemma {:induction false} FetchTypesAt(env: Env, root: Path, w: Worklists, types: seq<string>, files: Files, t: string, p: Path)
    requires Distinct(types) && t in types
    requires Under(root + [t], p)
    ensures SameAt(FetchTypes(env, root, w, types, files), StoreAll(env, root, t, Fetched(env, t, Queue(w, t)), files), p)
    decreases |types|
  {
    var t0 := types[0];
    var rest := types[1..];
    assert forall i :: 0 <= i < |rest| ==> rest[i] == types[i + 1];
    var files' := if |Queue(w, t0)| > 0 then FetchKeys(env, root, t0, Queue(w, t0), files) else files;
    FetchKeysStoresFetched(env, root, t0, Queue(w, t0), files);
    assert |Queue(w, t0)| == 0 ==> Fetched(env, t0, Queue(w, t0)) == [];
    assert files' == StoreAll(env, root, t0, Fetched(env, t0, Queue(w, t0)), files);
    UnderChild(root, t, p);
    if t0 == t {
      forall u | u in rest ensures !Under(root + [u], p) {
        if Under(root + [u], p) { UnderChild(root, u, p); }
      }
      FetchTypesElsewhere(env, root, w, rest, files', p);
    } else {
      assert !Under(root + [t0], p) by {
        if Under(root + [t0], p) { UnderChild(root, t0, p); }
      }
      StoreAllElsewhere(env, root, t0, Fetched(env, t0, Queue(w, t0)), files, p);
      FetchTypesAt(env, root, w, rest, files', t, p);
      StoreAllPointwise(env, root, t, Fetched(env, t, Queue(w, t)), files', files, p);
    }
  }

  /** The files left after the fetch: outside `<root>/<type>` folders nothing
      changes; inside folder `<root>/<t>`, a path holds a file exactly when it
      held one before or some document fetched for `t` has that path, and the
      file is that of the LAST such document. */
  lemma RetrievedFile(env: Env, root: Path, w: Worklists, files: Files, t: string, p: Path)
    requires t in SLOTS && Under(root + [t], p)
    ensures var after := FetchTypes(env, root, w, TYPE_KEYS, files);
            var docs := Fetched(env, t, Queue(w, t));
            (p in after <==> p in files || exists i :: 0 <= i < |docs| && PathOf(env, root, t, docs[i]) == p)
            && (forall i ::
                  (0 <= i < |docs| && PathOf(env, root, t, docs[i]) == p
                   && (forall j :: i < j < |docs| ==> PathOf(env, root, t, docs[j]) != p)) ==>
                  after[p] == BodyOf(env, t, docs[i]))
  {
    var after := FetchTypes(env, root, w, TYPE_KEYS, files);
    var docs := Fetched(env, t, Queue(w, t));
    var stored := StoreAll(env, root, t, docs, files);
    assert t in TYPE_KEYS;
    TypeKeysDistinct();
    FetchTypesAt(env, root, w, TYPE_KEYS, files, t, p);
    assert p in after <==> p in stored;
    assert p in stored ==> after[p] == stored[p];
    StoreAllAt(env, root, t, docs, files, p);
  }

  /** The fetch writes nothing outside the worklists' folders. */
  lemma RetrievedElsewhere(env: Env, root: Path, w: Worklists, files: Files, p: Path)
    requires !Under(root, p)
    ensures SameAt(FetchTypes(env, root, w, TYPE_KEYS, files), files, p)
  {
    forall u | u in TYPE_KEYS ensures !Under(root + [u], p) {
      if Under(root + [u], p) { UnderChild(root, u, p); }
    }
    FetchTypesElsewhere(env, root, w, TYPE_KEYS, files, p);
  }

  // ---------------------------------------------------------------------------
  // Flow files carry no training state

  /** Every document file in `<root>/flows` is untrained and has no model id. */
  predicate FlowsUntrained(root: Path, files: Files)
  {
    forall p :: p in files && Under(root + ["flows"], p) && files[p].DocFile? ==>
      !Trained(files[p].doc) && !HasModel(files[p].doc)
  }

  lemma {:induction false} StoreAllKeepsFlowsUntrained(env: Env, root: Path, rtype: string, docs: seq<Doc>, files: Files)
    requires env.variant == Current
    requires FlowsUntrained(root, files)
    ensures FlowsUntrained(root, StoreAll(env, root, rtype, docs, files))
    decreases |docs|
  {
    if docs != [] {
      var q := PathOf(env, root, rtype, docs[0]);
      var files' := files[q := BodyOf(env, rtype, docs[0])];
      assert FlowsUntrained(root, files') by {
        if Under(root + ["flows"], q) {
          UnderChild(root, "flows", q);
          assert q[|root|] == rtype;
        }
      }
      StoreAllKeepsFlowsUntrained(env, root, rtype, docs[1..], files');
    }
  }

  /** In the current version, the fetch keeps every flow file untrained. */
  lemma {:induction false} FetchKeepsFlowsUntrained(env: Env, root: Path, w: Worklists, types: seq<string>, files: Files)
    requires env.variant == Current
    requires FlowsUntrained(root, files)
    ensures FlowsUntrained(root, FetchTypes(env, root, w, types, files))
    decreases |types|
  {
    if types != [] {
      var t := types[0];
      if |Queue(w, t)| > 0 {
        FetchKeysStoresFetched(env, root, t, Queue(w, t), files);
        StoreAllKeepsFlowsUntrained(env, root, t, Fetched(env, t, Queue(w, t)), files);
        FetchKeepsFlowsUntrained(env, root, w, types[1..], FetchKeys(env, root, t, Queue(w, t), files));
      } else {
        FetchKeepsFlowsUntrained(env, root, w, types[1..], files);
      }
    }
  }

  // ---------------------------------------------------------------------------
  // The lookups sent

  /** Every lookup goes to its worklist's database and collection, by parentId
      for flows and by _id otherwise, and only for non-empty worklists. */
  lemma PlanShape(v: Variant, w: Worklists, types: seq<string>)
    ensures forall i :: 0 <= i < |Plan(v, w, types)| ==>
      var r := Plan(v, w, types)[i];
      r.collection in types && |Queue(w, r.collection)| > 0 && r.db == DbName(v, r.collection)
      && (r.filter.ByParentId? <==> r.collection == "flows")
  {
    forall i | 0 <= i < |Plan(v, w, types)|
      ensures var r := Plan(v, w, types)[i];
        r.collection in types && |Queue(w, r.collection)| > 0 && r.db == DbName(v, r.collection)
        && (r.filter.ByParentId? <==> r.collection == "flows")
    {
      PlanShapeAt(v, w, types, i);
    }
  }

  /** The shape of the `i`-th lookup, by induction over `types`. */
  lemma {:induction false} PlanShapeAt(v: Variant, w: Worklists, types: seq<string>, i: nat)
    requires i < |Plan(v, w, types)|
    ensures var r := Plan(v, w, types)[i];
      r.collection in types && |Queue(w, r.collection)| > 0 && r.db == DbName(v, r.collection)
      && (r.filter.ByParentId? <==> r.collection == "flows")
    decreases |types|
  {
    var t := types[0];
    if i < |Queue(w, t)| {
      PlanHead(v, w, types, i);
      assert Plan(v, w, types)[i].collection == t;
    } else {
      PlanTail(v, w, types, i);
      PlanShapeAt(v, w, types[1..], i - |Queue(w, t)|);
      assert Plan(v, w, types[1..])[i - |Queue(w, t)|].collection in types;
    }
  }

  lemma {:induction false} RequestsShape(v: Variant, t: string, keys: seq<Key>)
    ensures |Requests(v, t, keys)| == |keys|
    ensures forall i :: 0 <= i < |keys| ==> Requests(v, t, keys)[i] == Request(DbName(v, t), t, QueryFor(t, keys[i]))
    decreases |keys|
  {
    if keys != [] {
      RequestsShape(v, t, keys[1..]);
    }
  }

  /** The keys looked up for worklist `t`, in order, among `rs`. */
  function KeysSent(rs: seq<Request>, t: string): seq<Key>
  {
    if rs == [] then []
    else (if rs[0].collection == t then [rs[0].filter.key] else []) + KeysSent(rs[1..], t)
  }

  lemma {:induction false} KeysSentAppend(a: seq<Request>, b: seq<Request>, t: string)
    ensures KeysSent(a + b, t) == KeysSent(a, t) + KeysSent(b, t)
    decreases |a|
  {
    if a == [] {
      assert a + b == b;
    } else {
      assert (a + b)[0] == a[0] && (a + b)[1..] == a[1..] + b;
      KeysSentAppend(a[1..], b, t);
      var head := if a[0].collection == t then [a[0].filter.key] else [];
      assert KeysSent(a + b, t) == head + (KeysSent(a[1..], t) + KeysSent(b, t));
      assert head + (KeysSent(a[1..], t) + KeysSent(b, t)) == (head + KeysSent(a[1..], t)) + KeysSent(b, t);
    }
  }

  lemma {:induction false} KeysSentRequests(v: Variant, u: string, keys: seq<Key>, t: string)
    ensures KeysSent(Requests(v, u, keys), t) == if u == t then keys else []
    decreases |keys|
  {
    if keys != [] {
      KeysSentRequests(v, u, keys[1..], t);
    }
  }

  /** Per worklist, the lookups sent carry exactly its keys, in its order. */
  lemma PlanKeys(v: Variant, w: Worklists, types: seq<string>, t: string)
    requires Distinct(types)
    ensures KeysSent(Plan(v, w, types), t) == if t in types then Queue(w, t) else []
  {
    DistinctNoRepeats(types);
    PlanKeysOnce(v, w, types, t);
  }

  lemma {:induction false} PlanKeysOnce(v: Variant, w: Worklists, types: seq<string>, t: string)
    requires NoRepeats(types)
    ensures KeysSent(Plan(v, w, types), t) == if t in types then Queue(w, t) else []
    decreases |types|
  {
    if types != [] {
      var u := types[0];
      var head := Block(v, w, u);
      var tail := Plan(v, w, types[1..]);
      PlanKeysOnce(v, w, types[1..], t);
      KeysSentAppend(head, tail, t);
      KeysSentBlock(v, w, u, t);
      assert t in types <==> t == u || t in types[1..];
    }
  }

  /** The keys sent for worklist `u`, seen from worklist `t`. */
  lemma KeysSentBlock(v: Variant, w: Worklists, u: string, t: string)
    ensures KeysSent(Block(v, w, u), t) == if u == t then Queue(w, u) else []
  {
    KeysSentRequests(v, u, Queue(w, u), t);
    if |Queue(w, u)| == 0 {
      assert Queue(w, u) == [];
    }
  }

  /** The number of lookups is the summed length of the worklists. */
  lemma {:induction false} PlanLength(v: Variant, w: Worklists, types: seq<string>)
    ensures |Plan(v, w, types)| == TotalQueued(w, types)
    decreases |types|
  {
    if types != [] {
      PlanLength(v, w, types[1..]);
      RequestsShape(v, types[0], Queue(w, types[0]));
    }
  }

  /** The position of `x` in `s` (|s| when absent). */
  function IndexIn(x: string, s: seq<string>): nat
  {
    if s == [] then 0 else if s[0] == x then 0 else 1 + IndexIn(x, s[1..])
  }

  /** No name occurs twice, stated head by head. */
  predicate NoRepeats(types: seq<string>)
    decreases |types|
  {
    types == [] || (types[0] !in types[1..] && NoRepeats(types[1..]))
  }

  lemma {:induction false} DistinctNoRepeats(types: seq<string>)
    requires Distinct(types)
    ensures NoRepeats(types)
    decreases |types|
  {
    if types != [] {
      assert types[0] !in types[1..] by {
        forall k | 0 <= k < |types[1..]| ensures types[1..][k] != types[0] {
          assert types[1..][k] == types[k + 1];
        }
      }
      assert Distinct(types[1..]) by {
        assert forall k :: 0 <= k < |types[1..]| ==> types[1..][k] == types[k + 1];
      }
      DistinctNoRepeats(types[1..]);
    }
  }

  lemma IndexInRest(types: seq<string>, c: string)
    requires NoRepeats(types) && types != [] && c in types[1..]
    ensures IndexIn(c, types) == 1 + IndexIn(c, types[1..])
  {
    assert c != types[0];
  }

  lemma OrderStep(types: seq<string>, a: string, b: string)
    requires NoRepeats(types) && types != []
    requires a in types[1..] && b in types[1..]
    requires IndexIn(a, types[1..]) <= IndexIn(b, types[1..])
    ensures IndexIn(a, types) <= IndexIn(b, types)
  {
    IndexInRest(types, a);
    IndexInRest(types, b);
  }

  /** The lookups for the first worklist of `types` come first. */
  lemma PlanHead(v: Variant, w: Worklists, types: seq<string>, i: nat)
    requires types != [] && i < |Queue(w, types[0])|
    ensures i < |Plan(v, w, types)|
    ensures Plan(v, w, types)[i] == Request(DbName(v, types[0]), types[0], QueryFor(types[0], Queue(w, types[0])[i]))
  {
    var t := types[0];
    RequestsShape(v, t, Queue(w, t));
    assert Plan(v, w, types) == Requests(v, t, Queue(w, t)) + Plan(v, w, types[1..]);
  }

  /** After them come the lookups for the rest of `types`. */
  lemma PlanTail(v: Variant, w: Worklists, types: seq<string>, i: nat)
    requires types != [] && |Queue(w, types[0])| <= i < |Plan(v, w, types)|
    ensures i - |Queue(w, types[0])| < |Plan(v, w, types[1..])|
    ensures Plan(v, w, types)[i] == Plan(v, w, types[1..])[i - |Queue(w, types[0])|]
  {
    var t := types[0];
    var head := Block(v, w, t);
    var tail := Plan(v, w, types[1..]);
    assert (head + tail)[i] == tail[i - |head|];
  }

  /** The `i`-th lookup is for one of the worklists of `types`. */
  lemma {:induction false} PlanCollectionAt(v: Variant, w: Worklists, types: seq<string>, i: nat)
    requires i < |Plan(v, w, types)|
    ensures Plan(v, w, types)[i].collection in types
    decreases |types|
  {
    if i < |Queue(w, types[0])| {
      PlanHead(v, w, types, i);
    } else {
      PlanTail(v, w, types, i);
      PlanCollectionAt(v, w, types[1..], i - |Queue(w, types[0])|);
    }
  }

  /** Lookups `rs` visit the worklists in the order of `types`. */
  predicate OrderedBy(rs: seq<Request>, types: seq<string>)
  {
    forall i, j :: 0 <= i < j < |rs| ==> IndexIn(rs[i].collection, types) <= IndexIn(rs[j].collection, types)
  }

  /** A block for the first worklist followed by ordered lookups for the
      rest is ordered. */
  lemma OrderedCons(head: seq<Request>, tail: seq<Request>, types: seq<string>)
    requires NoRepeats(types) && types != []
    requires forall k :: 0 <= k < |head| ==> head[k].collection == types[0]
    requires forall k :: 0 <= k < |tail| ==> tail[k].collection in types[1..]
    requires OrderedBy(tail, types[1..])
    ensures OrderedBy(head + tail, types)
  {
    var rs := head + tail;
    forall i, j | 0 <= i < j < |rs|
      ensures IndexIn(rs[i].collection, types) <= IndexIn(rs[j].collection, types)
    {
      if i < |head| {
        assert rs[i].collection == types[0];
        assert IndexIn(types[0], types) == 0;
      } else {
        assert rs[i] == tail[i - |head|] && rs[j] == tail[j - |head|];
        OrderStep(types, tail[i - |head|].collection, tail[j - |head|].collection);
      }
    }
  }

  lemma {:induction false} PlanOrdered(v: Variant, w: Worklists, types: seq<string>)
    requires NoRepeats(types)
    ensures OrderedBy(Plan(v, w, types), types)
    decreases |types|
  {
    if types != [] {
      var t := types[0];
      var tail := Plan(v, w, types[1..]);
      var head := if |Queue(w, t)| > 0 then Requests(v, t, Queue(w, t)) else [];
      assert Plan(v, w, types) == head + tail;
      PlanOrdered(v, w, types[1..]);
      RequestsShape(v, t, Queue(w, t));
      forall k | 0 <= k < |tail| ensures tail[k].collection in types[1..] {
        PlanCollectionAt(v, w, types[1..], k);
      }
      OrderedCons(head, tail, types);
    }
  }

  /** Lookups are sent worklist by worklist, in the order of `types`. */
  lemma PlanOrder(v: Variant, w: Worklists, types: seq<string>)
    requires Distinct(types)
    ensures forall i, j :: 0 <= i < j < |Plan(v, w, types)| ==>
      IndexIn(Plan(v, w, types)[i].collection, types) <= IndexIn(Plan(v, w, types)[j].collection, types)
  {
    DistinctNoRepeats(types);
    PlanOrdered(v, w, types);
  }

  /** For a successfully expanded project: one lookup per descriptor plus one
      for the settings, each carrying its worklist's keys in order. */
  lemma ProjectLookups(v: Variant, p: Project)
    requires Expand(p).Ok?
    ensures |Plan(v, Expand(p).value, TYPE_KEYS)| == |p.resources| + 1
    ensures forall t :: t in SLOTS ==> KeysSent(Plan(v, Expand(p).value, TYPE_KEYS), t) == Expand(p).value[t]
  {
    ExpandTotal(p);
    PlanLength(v, Expand(p).value, TYPE_KEYS);
    TypeKeysDistinct();
    forall t | t in SLOTS ensures KeysSent(Plan(v, Expand(p).value, TYPE_KEYS), t) == Expand(p).value[t] {
      PlanKeys(v, Expand(p).value, TYPE_KEYS, t);
    }
  }
}
