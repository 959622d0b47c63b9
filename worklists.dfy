/** The resource graph expander: from a project's resource index to one
    worklist of lookup keys per resource type. */
module Worklists {
  import opened Interfaces

  /** The worklist names, in the order the exporter declares and visits them. */
  const TYPE_KEYS: seq<string> :=
    ["flows", "lexicons", "playbooks", "endpoints", "forms",
     "nlpconnectors", "databaseconnections", "secrets", "settings"]

  /** The same names as a set. */
  const SLOTS: set<string> := set k | k in TYPE_KEYS

  /** Worklist name -> keys queued under it, in insertion order. */
  type Worklists = map<string, seq<Key>>

  /** The worklist a descriptor of type `rtype` is pushed to: the type name
      with an "s" appended. */
  function Slot(rtype: string): string
  {
    rtype + "s"
  }

  /** The key a descriptor contributes: a flow its parentId, anything else its id. */
  function Entry(d: Descriptor): Key
  {
    if d.rtype == "flow" then d.parentId else Some(d.id)
  }

  /** The keys queued under worklist `t`; the exporter only visits names
      that are keys of the worklist object, so the empty default is never
      used by it. */
  function Queue(w: Worklists, t: string): seq<Key>
  {
    if t in w then w[t] else []
  }

  /** The nine worklists, all empty. */
  function Empty(): (w: Worklists)
    ensures w.Keys == SLOTS
    ensures forall k :: k in w ==> w[k] == []
  {
    map k | k in TYPE_KEYS :: []
  }

  /** Pushes the entry of each descriptor of `ds`, in order, onto its worklist;
      fails with the type of the first descriptor whose worklist does not exist. */
  function Fill(w: Worklists, ds: seq<Descriptor>): (r: Result<Worklists, string>)
    ensures r.Ok? ==> r.value.Keys == w.Keys
    decreases |ds|
  {
    if ds == [] then Ok(w)
    else
      var slot := Slot(ds[0].rtype);
      if slot !in w then Err(ds[0].rtype)
      else Fill(w[slot := w[slot] + [Entry(ds[0])]], ds[1..])
  }

  /** The worklists of project `p`: all descriptors pushed in order, then the
      project's settings id appended to "settings". */
  function Expand(p: Project): (r: Result<Worklists, string>)
    ensures r.Ok? ==> r.value.Keys == SLOTS
  {
    match Fill(Empty(), p.resources)
    case Err(t) => Err(t)
    case Ok(w) =>
      assert "settings" == TYPE_KEYS[8];
      Ok(w["settings" := w["settings"] + [Some(p.settingsId)]])
  }

  /** Builds the worklists of `p` the way the exporter does: one pass over the
      resource index pushing onto the named arrays, then the settings id. */
  method BuildWorklists(p: Project) returns (r: Result<Worklists, string>)
    ensures r == Expand(p)
  {
    var w := Empty();
    for i := 0 to |p.resources|
      invariant w.Keys == SLOTS
      invariant Fill(Empty(), p.resources) == Fill(w, p.resources[i..])
    {
      var d := p.resources[i];
      assert p.resources[i..][0] == d && p.resources[i..][1..] == p.resources[i + 1..];
      if d.rtype == "flow" {
        assert Slot(d.rtype) == "flows" && "flows" == TYPE_KEYS[0];
        w := w["flows" := w["flows"] + [d.parentId]];
      } else {
        var slot := d.rtype + "s";
        if slot !in w {
          return Err(d.rtype);
        }
        w := w[slot := w[slot] + [Some(d.id)]];
      }
    }
    assert p.resources[|p.resources|..] == [];
    assert "settings" == TYPE_KEYS[8];
    w := w["settings" := w["settings"] + [Some(p.settingsId)]];
    r := Ok(w);
  }

  // ---------------------------------------------------------------------------
  // What the worklists hold

  /** The keys the descriptors of `ds` queue under worklist `k`, in order. */
  function Queued(ds: seq<Descriptor>, k: string): seq<Key>
    decreases |ds|
  {
    if ds == [] then []
    else (if Slot(ds[0].rtype) == k then [Entry(ds[0])] else []) + Queued(ds[1..], k)
  }

  /** Every descriptor of `ds` names an existing worklist of `w`. */
  predicate AllKnown(w: Worklists, ds: seq<Descriptor>)
  {
    forall i :: 0 <= i < |ds| ==> Slot(ds[i].rtype) in w
  }

  /** One pass over the descriptors fails exactly when one of them names a
      missing worklist, and then with the type of the first such descriptor;
      otherwise each worklist is extended by the keys queued to it, in order. */
  lemma FillOutcome(w: Worklists, ds: seq<Descriptor>)
    ensures Fill(w, ds).Ok? <==> AllKnown(w, ds)
    ensures Fill(w, ds).Err? ==>
      exists i :: 0 <= i < |ds| && ds[i].rtype == Fill(w, ds).error && Slot(ds[i].rtype) !in w
               && AllKnown(w, ds[..i])
    ensures Fill(w, ds).Ok? ==> forall k :: k in w ==> Fill(w, ds).value[k] == w[k] + Queued(ds, k)
  {
    FillKnown(w, ds);
    FillError(w, ds);
    FillContents(w, ds);
  }

  lemma {:induction false} FillKnown(w: Worklists, ds: seq<Descriptor>)
    ensures Fill(w, ds).Ok? <==> AllKnown(w, ds)
    decreases |ds|
  {
    if ds != [] {
      var slot := Slot(ds[0].rtype);
      if slot in w {
        var w' := w[slot := w[slot] + [Entry(ds[0])]];
        assert w'.Keys == w.Keys;
        FillKnown(w', ds[1..]);
        assert AllKnown(w, ds) <==> AllKnown(w', ds[1..]) by {
          if AllKnown(w', ds[1..]) {
            forall i | 0 <= i < |ds| ensures Slot(ds[i].rtype) in w {
              if i > 0 { assert ds[i] == ds[1..][i - 1]; }
            }
          }
        }
      }
    }
  }

  lemma {:induction false} FillError(w: Worklists, ds: seq<Descriptor>)
    ensures Fill(w, ds).Err? ==>
      exists i :: 0 <= i < |ds| && ds[i].rtype == Fill(w, ds).error && Slot(ds[i].rtype) !in w
               && AllKnown(w, ds[..i])
    decreases |ds|
  {
    if ds != [] {
      var slot := Slot(ds[0].rtype);
      if slot in w {
        var w' := w[slot := w[slot] + [Entry(ds[0])]];
        assert w'.Keys == w.Keys;
        FillError(w', ds[1..]);
        if Fill(w, ds).Err? {
          var i :| 0 <= i < |ds[1..]| && ds[1..][i].rtype == Fill(w, ds).error
                   && Slot(ds[1..][i].rtype) !in w' && AllKnown(w', ds[1..][..i]);
          assert ds[1..][..i] == ds[1..i + 1];
          assert AllKnown(w, ds[..i + 1]) by {
            forall j | 0 <= j < i + 1 ensures Slot(ds[j].rtype) in w {
              if j > 0 { assert ds[j] == ds[1..][..i][j - 1]; }
            }
            assert forall j :: 0 <= j < i + 1 ==> ds[..i + 1][j] == ds[j];
          }
          assert ds[i + 1] == ds[1..][i];
        }
      } else {
        assert ds[..0] == [];
      }
    }
  }

  lemma {:induction false} FillContents(w: Worklists, ds: seq<Descriptor>)
    ensures Fill(w, ds).Ok? ==> forall k :: k in w ==> Fill(w, ds).value[k] == w[k] + Queued(ds, k)
    decreases |ds|
  {
    if ds != [] {
      var slot := Slot(ds[0].rtype);
      if slot in w {
        var w' := w[slot := w[slot] + [Entry(ds[0])]];
        assert w'.Keys == w.Keys;
        FillContents(w', ds[1..]);
        if Fill(w, ds).Ok? {
          forall k | k in w ensures Fill(w, ds).value[k] == w[k] + Queued(ds, k) {
            if k == slot {
              assert w'[k] + Queued(ds[1..], k) == w[k] + ([Entry(ds[0])] + Queued(ds[1..], k));
            }
          }
        }
      }
    }
  }

  /** Expansion succeeds exactly when every descriptor's type plus "s" is one
      of the nine worklists; it then holds, per worklist, the queued keys in
      descriptor order, with the settings id appended to "settings" once. */
  lemma ExpandContents(p: Project)
    ensures Expand(p).Ok? <==> forall i :: 0 <= i < |p.resources| ==> Slot(p.resources[i].rtype) in SLOTS
    ensures Expand(p).Err? ==>
      exists i :: 0 <= i < |p.resources| && p.resources[i].rtype == Expand(p).error
               && Slot(p.resources[i].rtype) !in SLOTS
               && forall j :: 0 <= j < i ==> Slot(p.resources[j].rtype) in SLOTS
    ensures Expand(p).Ok? ==>
      forall k :: k in SLOTS ==>
        Expand(p).value[k] == Queued(p.resources, k) + (if k == "settings" then [Some(p.settingsId)] else [])
  {
    ExpandKnown(p);
    ExpandError(p);
    ExpandValues(p);
  }

  lemma ExpandKnown(p: Project)
    ensures Expand(p).Ok? <==> forall i :: 0 <= i < |p.resources| ==> Slot(p.resources[i].rtype) in SLOTS
  {
    FillKnown(Empty(), p.resources);
  }

  lemma ExpandError(p: Project)
    ensures Expand(p).Err? ==>
      exists i :: 0 <= i < |p.resources| && p.resources[i].rtype == Expand(p).error
               && Slot(p.resources[i].rtype) !in SLOTS
               && forall j :: 0 <= j < i ==> Slot(p.resources[j].rtype) in SLOTS
  {
    FillError(Empty(), p.resources);
    if Expand(p).Err? {
      var i :| 0 <= i < |p.resources| && p.resources[i].rtype == Expand(p).error
               && Slot(p.resources[i].rtype) !in SLOTS && AllKnown(Empty(), p.resources[..i]);
      forall j | 0 <= j < i ensures Slot(p.resources[j].rtype) in SLOTS {
        assert p.resources[j] == p.resources[..i][j];
      }
    }
  }

  lemma ExpandValues(p: Project)
    ensures Expand(p).Ok? ==>
      forall k :: k in SLOTS ==>
        Expand(p).value[k] == Queued(p.resources, k) + (if k == "settings" then [Some(p.settingsId)] else [])
  {
    FillContents(Empty(), p.resources);
  }

  /** A descriptor of type "settings" (whose worklist would be "settingss"),
      or of any type outside the nine, makes expansion fail. */
  lemma {:induction false} UnknownTypeFails(p: Project, i: nat)
    requires i < |p.resources| && Slot(p.resources[i].rtype) !in SLOTS
    ensures Expand(p).Err?
  {
    ExpandContents(p);
  }

  /** A descriptor of type "settings" makes expansion fail: it is pushed onto
      "settingss", which is not one of the nine worklists. */
  lemma SettingsTypeFails(p: Project, i: nat)
    requires i < |p.resources| && p.resources[i].rtype == "settings"
    ensures Expand(p).Err?
  {
    forall k | k in TYPE_KEYS ensures k != Slot("settings") {
      assert |k| != 9 || k[8] != 's' || k[0] != 's';
    }
    UnknownTypeFails(p, i);
  }

  lemma SlotInjective(a: string, b: string)
    requires Slot(a) == Slot(b)
    ensures a == b
  {
    assert a == Slot(a)[..|a|];
  }

  /** The parentIds of the "flow" descriptors of `ds`, in order. */
  function FlowParents(ds: seq<Descriptor>): seq<Key>
  {
    if ds == [] then []
    else (if ds[0].rtype == "flow" then [ds[0].parentId] else []) + FlowParents(ds[1..])
  }

  /** The ids of the descriptors of type `t` in `ds`, in order. */
  function IdsOfType(ds: seq<Descriptor>, t: string): seq<Key>
  {
    if ds == [] then []
    else (if ds[0].rtype == t then [Some(ds[0].id)] else []) + IdsOfType(ds[1..], t)
  }

  /** The "flows" worklist holds the parentIds of the flow descriptors, in order. */
  lemma {:induction false} QueuedFlows(ds: seq<Descriptor>)
    ensures Queued(ds, "flows") == FlowParents(ds)
  {
    if ds != [] {
      QueuedFlows(ds[1..]);
      if Slot(ds[0].rtype) == "flows" {
        SlotInjective(ds[0].rtype, "flow");
      }
    }
  }

  /** For any other type T, worklist T+"s" holds the ids of the type-T
      descriptors, in order. */
  lemma {:induction false} QueuedOthers(ds: seq<Descriptor>, t: string)
    requires t != "flow"
    ensures Queued(ds, Slot(t)) == IdsOfType(ds, t)
  {
    if ds != [] {
      QueuedOthers(ds[1..], t);
      if Slot(ds[0].rtype) == Slot(t) {
        SlotInjective(ds[0].rtype, t);
      }
    }
  }

  /** After expansion, "settings" is the ids of any "setting" descriptors
      followed by the project's settings id, appended exactly once; with no
      such descriptor it is exactly [settingsId]. */
  lemma SettingsWorklist(p: Project)
    requires Expand(p).Ok?
    ensures Expand(p).value["settings"] == IdsOfType(p.resources, "setting") + [Some(p.settingsId)]
    ensures (forall i :: 0 <= i < |p.resources| ==> p.resources[i].rtype != "setting") ==>
      Expand(p).value["settings"] == [Some(p.settingsId)]
  {
    ExpandContents(p);
    assert "settings" == TYPE_KEYS[8] && "settings" == Slot("setting");
    QueuedOthers(p.resources, "setting");
    NoIdsOfType(p.resources, "setting");
  }

  lemma {:induction false} NoIdsOfType(ds: seq<Descriptor>, t: string)
    ensures (forall i :: 0 <= i < |ds| ==> ds[i].rtype != t) ==> IdsOfType(ds, t) == []
  {
    if ds != [] {
      NoIdsOfType(ds[1..], t);
      assert forall i :: 0 <= i < |ds[1..]| ==> ds[1..][i] == ds[i + 1];
    }
  }

  // ---------------------------------------------------------------------------
  // Total size

  /** The summed lengths of the worklists named by `ks`. */
  function TotalQueued(w: Worklists, ks: seq<string>): nat
  {
    if ks == [] then 0 else |Queue(w, ks[0])| + TotalQueued(w, ks[1..])
  }

  /** How many of the names in `ks` equal `x`. */
  function Hits(x: string, ks: seq<string>): nat
  {
    if ks == [] then 0 else (if ks[0] == x then 1 else 0) + Hits(x, ks[1..])
  }

  /** The summed lengths of Queued(ds, k) over the names k of `ks`. */
  function CountQueued(ds: seq<Descriptor>, ks: seq<string>): nat
  {
    if ks == [] then 0 else |Queued(ds, ks[0])| + CountQueued(ds, ks[1..])
  }

  lemma {:induction false} HitsDistinct(x: string, ks: seq<string>)
    requires Distinct(ks)
    ensures Hits(x, ks) == if x in ks then 1 else 0
  {
    if ks != [] {
      HitsDistinct(x, ks[1..]);
      assert x in ks <==> x == ks[0] || x in ks[1..];
      if x == ks[0] {
        assert x !in ks[1..] by {
          forall j | 0 <= j < |ks[1..]| ensures ks[1..][j] != x { assert ks[1..][j] == ks[j + 1]; }
        }
      }
    }
  }

  lemma {:induction false} CountQueuedStep(ds: seq<Descriptor>, ks: seq<string>)
    requires ds != []
    ensures CountQueued(ds, ks) == Hits(Slot(ds[0].rtype), ks) + CountQueued(ds[1..], ks)
  {
    if ks != [] {
      CountQueuedStep(ds, ks[1..]);
    }
  }

  /** With distinct names covering every descriptor's worklist, each
      descriptor is counted exactly once. */
  lemma {:induction false} CountQueuedAll(ds: seq<Descriptor>, ks: seq<string>)
    requires Distinct(ks)
    requires forall i :: 0 <= i < |ds| ==> Slot(ds[i].rtype) in ks
    ensures CountQueued(ds, ks) == |ds|
  {
    if ds == [] {
      EmptyCount(ks);
    } else {
      CountQueuedStep(ds, ks);
      HitsDistinct(Slot(ds[0].rtype), ks);
      assert forall i :: 0 <= i < |ds[1..]| ==> ds[1..][i] == ds[i + 1];
      CountQueuedAll(ds[1..], ks);
    }
  }

  lemma {:induction false} EmptyCount(ks: seq<string>)
    ensures CountQueued([], ks) == 0
  {
    if ks != [] { EmptyCount(ks[1..]); }
  }

  lemma {:induction false} TotalOfExpansion(p: Project, w: Worklists, ks: seq<string>)
    requires forall k :: k in ks ==> k in SLOTS
    requires w.Keys == SLOTS
    requires forall k :: k in SLOTS ==>
      w[k] == Queued(p.resources, k) + (if k == "settings" then [Some(p.settingsId)] else [])
    ensures TotalQueued(w, ks) == CountQueued(p.resources, ks) + Hits("settings", ks)
  {
    if ks != [] {
      TotalOfExpansion(p, w, ks[1..]);
    }
  }

  lemma TypeKeysDistinct()
    ensures Distinct(TYPE_KEYS)
  {
  }

  /** Every worklist name ends in "s". */
  lemma TypeKeysEndInS(t: string)
    requires t in SLOTS
    ensures |t| > 0 && t[|t| - 1] == 's'
  {
  }

  /** Expansion queues exactly one key per descriptor plus the settings id. */
  lemma ExpandTotal(p: Project)
    requires Expand(p).Ok?
    ensures TotalQueued(Expand(p).value, TYPE_KEYS) == |p.resources| + 1
  {
    var w := Expand(p).value;
    ExpandKnown(p);
    ExpandValues(p);
    TypeKeysDistinct();
    assert forall i :: 0 <= i < |p.resources| ==> Slot(p.resources[i].rtype) in TYPE_KEYS;
    TotalOfExpansion(p, w, TYPE_KEYS);
    CountQueuedAll(p.resources, TYPE_KEYS);
    assert "settings" == TYPE_KEYS[8];
    HitsDistinct("settings", TYPE_KEYS);
    assert TotalQueued(w, TYPE_KEYS) == |p.resources| + Hits("settings", TYPE_KEYS);
  }
}
