/** The source document database, abstracted to its contents: exact-match
    lookups by `parentId` or by `_id`. */
module DocumentStore {
  import opened Interfaces

  /** Each (database, collection) pair holds its documents in natural order;
      a pair that is absent is an empty collection. */
  type Store = map<(string, string), seq<Doc>>

  /** The two query shapes the exporter sends. A parentId filter with key
      None matches documents whose parentId is missing or null. */
  datatype Filter = ByParentId(key: Key) | ById(key: Key)

  predicate Matches(f: Filter, d: Doc)
  {
    match f
    case ByParentId(k) => d.parentId == k
    case ById(k) => k == Some(d.id)
  }

  function Collection(store: Store, db: string, coll: string): seq<Doc>
  {
    if (db, coll) in store then store[(db, coll)] else []
  }

  /** The documents of `docs` that match `f`, in their original order. */
  function Select(docs: seq<Doc>, f: Filter): (r: seq<Doc>)
    ensures |r| <= |docs|
    ensures forall d :: d in r <==> d in docs && Matches(f, d)
  {
    if docs == [] then []
    else (if Matches(f, docs[0]) then [docs[0]] else []) + Select(docs[1..], f)
  }

  /** `find(query).toArray()` on one collection: exactly the matching
      documents of that collection; none when the collection does not exist. */
  function Find(store: Store, db: string, coll: string, f: Filter): (r: seq<Doc>)
    ensures forall d :: d in r <==> d in Collection(store, db, coll) && Matches(f, d)
    ensures (db, coll) !in store ==> r == []
  {
    Select(Collection(store, db, coll), f)
  }
}
