/** The records the exporter works on: project index entries, projects and
    the resource documents fetched from the source database. */
module Interfaces {

  datatype Option<+T> = None | Some(value: T)

  /** The outcome of a step that can fail with an error of type E. */
  datatype Result<+T, +E> = Ok(value: T) | Err(error: E)

  /** A property of a stored JSON document: missing, explicitly null, or set. */
  datatype Field<+T> = Absent | Null | Value(value: T)

  /** The training state of a flow (`newIntents`). */
  datatype NewIntents = NewIntents(trained: Field<bool>, modelId: Field<string>)

  /** A resource document as the store returns it. Only the properties the
      exporter reads or writes are explicit; all others travel in `rest`,
      which the exporter never inspects. `parentId` is None when the property
      is missing or null; `newIntents` is None when it is missing or null. */
  datatype Doc = Doc(id: string, parentId: Option<string>, newIntents: Option<NewIntents>, rest: string)

  /** One entry of a project's resource index (IProjectResource). */
  datatype Descriptor = Descriptor(id: string, parentId: Option<string>, name: string, rtype: string)

  /** A project (IProject). */
  datatype Project = Project(
    id: string,
    organisation: string,
    color: string,
    settingsId: string,
    resources: seq<Descriptor>)

  /** A value queued for lookup: a descriptor's `_id`, or a flow descriptor's
      `parentId`, which is None when the descriptor has none. */
  type Key = Option<string>

  /** No two positions of `s` hold the same element. */
  predicate Distinct<T(==)>(s: seq<T>)
  {
    forall i, j :: 0 <= i < j < |s| ==> s[i] != s[j]
  }
}
