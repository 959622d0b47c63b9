/** The export orchestrator: find the selected project, replace its export
    folder with a fresh project file, expand its resource index and fetch
    every resource into the folder. */
module Export {
  import opened Interfaces
  import opened Worklists
  import opened DocumentStore
  import opened FileTree
  import opened Pipeline
  import opened PipelineFacts

  /** `allProjects.find(...)`: the index of the first project with id `id`. */
  function FindProject(projects: seq<Project>, id: string): (r: Option<nat>)
    ensures r.Some? ==> r.value < |projects| && projects[r.value].id == id
                        && forall j :: 0 <= j < r.value ==> projects[j].id != id
    ensures r.None? ==> forall j :: 0 <= j < |projects| ==> projects[j].id != id
  {
    if projects == [] then None
    else if projects[0].id == id then Some(0)
    else match FindProject(projects[1..], id)
      case None => None
      case Some(i) => Some(i + 1)
  }

  /** The export folder of project `pid`. The current version uses
      `data/organisations/<org>/projects/<pid>`, the legacy one `data/<org>/<pid>`. */
  function ProjectRoot(env: Env, pid: string): (r: Path)
    ensures |r| == (if env.variant == Current then 5 else 3)
    ensures r[0] == "data" && r[|r| - 1] == pid
    ensures env.variant == Current ==> r[1] == "organisations" && r[2] == env.sourceOrg && r[3] == "projects"
    ensures env.variant == Legacy ==> r[1] == env.sourceOrg
  {
    if env.variant == Current then ["data", "organisations", env.sourceOrg, "projects", pid]
    else ["data", env.sourceOrg, pid]
  }

  /** Where the project file goes: `<root>/<pid>.json`. */
  function ProjectPath(root: Path, pid: string): (r: Path)
    ensures Under(root, r) && |r| == |root| + 1 && r[|root|] == pid + ".json"
  {
    root + [pid + ".json"]
  }

  /** The project as stored: the current version moves it to the target
      organisation; the legacy one leaves it as it is. */
  function Stamp(env: Env, p: Project): (r: Project)
    ensures r == p.(organisation := r.organisation)
    ensures env.variant == Current ==> r.organisation == env.targetOrg
    ensures env.variant == Legacy ==> r == p
  {
    if env.variant == Current then p.(organisation := env.targetOrg) else p
  }

  /** storeProject: the project's folder is cleared and then holds only the
      project file; nothing outside the folder changes. */
  function StoredProject(env: Env, p: Project, files: Files): (r: Files)
    ensures var root := ProjectRoot(env, p.id);
            && ProjectPath(root, p.id) in r
            && r[ProjectPath(root, p.id)] == ProjectFile(Stamp(env, p), env.variant == Current)
            && (forall q :: q in r && Under(root, q) ==> q == ProjectPath(root, p.id))
            && (forall q :: !Under(root, q) ==> SameAt(r, files, q))
  {
    var root := ProjectRoot(env, p.id);
    assert ProjectPath(root, p.id)[..|root|] == root;
    Removed(files, root)[ProjectPath(root, p.id) := ProjectFile(Stamp(env, p), env.variant == Current)]
  }

  /** How an export ends. An unknown resource type is the error the source
      raises when it pushes onto a worklist that does not exist. */
  datatype Outcome = NotFound | Exported | Failed(unknownType: string)

  /** Everything an export changes or produces. */
  datatype Run = Run(files: Files, projects: seq<Project>, outcome: Outcome, sent: seq<Request>)

  /** The effect of exporting project `projectId`. The project list comes
      back with the exported project's organisation rewritten, as the source
      rewrites that object in place. */
  function ExportSpec(env: Env, projectId: string, projects: seq<Project>, files: Files): (r: Run)
    ensures (forall j :: 0 <= j < |projects| ==> projects[j].id != projectId) ==>
      r == Run(files, projects, NotFound, [])
    ensures r.outcome != NotFound ==> |r.projects| == |projects|
  {
    match FindProject(projects, projectId)
    case None => Run(files, projects, NotFound, [])
    case Some(i) =>
      var p := Stamp(env, projects[i]);
      var files1 := StoredProject(env, projects[i], files);
      var projects1 := projects[i := p];
      match Expand(p)
      case Err(t) => Run(files1, projects1, Failed(t), [])
      case Ok(w) =>
        Run(FetchTypes(env, ProjectRoot(env, p.id), w, TYPE_KEYS, files1), projects1, Exported,
            Plan(env.variant, w, TYPE_KEYS))
  }

  // ---------------------------------------------------------------------------
  // The imperative steps

  /** Clears the project's folder, rewrites the organisation (current
      version only) and writes the project file. Returns the project object
      as it is after the call. */
  method StoreProject(env: Env, project: Project, disk: Disk) returns (stored: Project)
    modifies disk
    ensures stored == Stamp(env, project)
    ensures disk.files == StoredProject(env, project, old(disk.files))
  {
    var root := ProjectRoot(env, project.id);
    disk.RemoveTree(root);
    stored := project;
    if env.variant == Current {
      stored := stored.(organisation := env.targetOrg);
    }
    disk.Write(ProjectPath(root, project.id), ProjectFile(stored, env.variant == Current));
  }

  /** exportProject: does nothing when no project has id `projectId`;
      otherwise stores the project, builds its worklists and retrieves its
      resources. An unknown resource type stops the export after the project
      file was written. */
  method ExportProject(env: Env, projectId: string, projects: seq<Project>, disk: Disk)
    returns (outcome: Outcome, projects': seq<Project>, sent: seq<Request>)
    modifies disk
    ensures Run(disk.files, projects', outcome, sent) == ExportSpec(env, projectId, projects, old(disk.files))
  {
    var found := FindProject(projects, projectId);
    if found.None? {
      return NotFound, projects, [];
    }
    var i := found.value;
    var selected := StoreProject(env, projects[i], disk);
    projects' := projects[i := selected];
    var worklists := BuildWorklists(selected);
    match worklists
    case Err(t) =>
      outcome, sent := Failed(t), [];
    case Ok(w) =>
      sent := RetrieveResources(env, ProjectRoot(env, selected.id), w, TYPE_KEYS, disk);
      outcome := Exported;
  }

  // ---------------------------------------------------------------------------
  // Properties of an export

  /** An export changes nothing outside the project's folder. */
  lemma ExportStaysInFolder(env: Env, projectId: string, projects: seq<Project>, files: Files, q: Path)
    requires !Under(ProjectRoot(env, projectId), q)
    ensures SameAt(ExportSpec(env, projectId, projects, files).files, files, q)
  {
    match FindProject(projects, projectId)
    case None =>
    case Some(i) =>
      var p := Stamp(env, projects[i]);
      var files1 := StoredProject(env, projects[i], files);
      ExpandContents(p);
      if Expand(p).Ok? {
        RetrievedElsewhere(env, ProjectRoot(env, p.id), Expand(p).value, files1, q);
      }
  }

  /** No stale files: once the project exists, what an export produces does
      not depend on what its folder held before. */
  lemma ExportIgnoresOldFolder(env: Env, projectId: string, projects: seq<Project>, f: Files, g: Files)
    requires FindProject(projects, projectId).Some?
    requires forall q :: !Under(ProjectRoot(env, projectId), q) ==> SameAt(f, g, q)
    ensures ExportSpec(env, projectId, projects, f) == ExportSpec(env, projectId, projects, g)
  {
    var i := FindProject(projects, projectId).value;
    var root := ProjectRoot(env, projectId);
    var f1 := StoredProject(env, projects[i], f);
    var g1 := StoredProject(env, projects[i], g);
    forall q ensures SameAt(f1, g1, q) {
      if !Under(root, q) {
        assert SameAt(f1, f, q) && SameAt(g1, g, q);
      }
    }
    assert f1.Keys == g1.Keys;
    assert f1 == g1;
  }

  /** Exporting the same project again, against the same database, leaves
      exactly what the first export left: files, project list, outcome and
      lookups. */
  lemma ReExportIdempotent(env: Env, projectId: string, projects: seq<Project>, files: Files)
    ensures var run := ExportSpec(env, projectId, projects, files);
            ExportSpec(env, projectId, run.projects, run.files) == run
  {
    var run := ExportSpec(env, projectId, projects, files);
    match FindProject(projects, projectId)
    case None =>
    case Some(i) =>
      var p := Stamp(env, projects[i]);
      assert run.projects == projects[i := p];
      assert FindProject(run.projects, projectId) == Some(i) by {
        FindAfterUpdate(projects, projectId, i, p);
      }
      assert Stamp(env, p) == p;
      forall q | !Under(ProjectRoot(env, projectId), q) ensures SameAt(run.files, files, q) {
        ExportStaysInFolder(env, projectId, projects, files, q);
      }
      ExportIgnoresOldFolder(env, projectId, run.projects, run.files, files);
      assert ExportSpec(env, projectId, run.projects, files) == run by {
        assert run.projects[i := Stamp(env, run.projects[i])] == run.projects;
        assert StoredProject(env, run.projects[i], files) == StoredProject(env, projects[i], files);
      }
  }

  lemma FindAfterUpdate(projects: seq<Project>, id: string, i: nat, p: Project)
    requires FindProject(projects, id) == Some(i) && p.id == id
    ensures FindProject(projects[i := p], id) == Some(i)
  {
    var ps := projects[i := p];
    assert ps[i].id == id;
    assert forall j :: 0 <= j < i ==> ps[j] == projects[j];
  }

  /** What a successful export leaves: the fetch of the expanded worklists
      over the freshly stored project folder. */
  lemma ExportedFiles(env: Env, projectId: string, projects: seq<Project>, files: Files)
    requires ExportSpec(env, projectId, projects, files).outcome == Exported
    ensures FindProject(projects, projectId).Some?
    ensures var i := FindProject(projects, projectId).value;
            && Expand(Stamp(env, projects[i])).Ok?
            && ExportSpec(env, projectId, projects, files).files
               == FetchTypes(env, ProjectRoot(env, projectId), Expand(Stamp(env, projects[i])).value, TYPE_KEYS,
                             StoredProject(env, projects[i], files))
  {
    var i := FindProject(projects, projectId).value;
    assert Stamp(env, projects[i]).id == projectId;
  }

  /** Once the project is found, the export rewrites that project object
      (the organisation, in the current version) and leaves every other
      project as it is. */
  lemma ExportUpdatesProject(env: Env, projectId: string, projects: seq<Project>, files: Files)
    requires FindProject(projects, projectId).Some?
    ensures var i := FindProject(projects, projectId).value;
            var r := ExportSpec(env, projectId, projects, files);
            && r.outcome != NotFound
            && |r.projects| == |projects|
            && r.projects[i] == Stamp(env, projects[i])
            && (env.variant == Current ==> r.projects[i] == projects[i].(organisation := env.targetOrg))
            && (forall j :: 0 <= j < |projects| && j != i ==> r.projects[j] == projects[j])
  {
  }

  /** Expansion only reads the resource index and the settings id, which
      the organisation rewrite does not touch. */
  lemma ExpandIgnoresStamp(env: Env, p: Project)
    ensures Expand(Stamp(env, p)) == Expand(p)
  {
    assert Stamp(env, p).resources == p.resources && Stamp(env, p).settingsId == p.settingsId;
  }

  /** An export that fails on an unknown resource type has already replaced
      the project's folder by the project file; no lookup was sent. */
  lemma ExportFailsAfterProjectFile(env: Env, projectId: string, projects: seq<Project>, files: Files)
    requires FindProject(projects, projectId).Some?
    requires Expand(projects[FindProject(projects, projectId).value]).Err?
    ensures var i := FindProject(projects, projectId).value;
            var r := ExportSpec(env, projectId, projects, files);
            var root := ProjectRoot(env, projectId);
            && r.outcome == Failed(Expand(projects[i]).error)
            && r.sent == []
            && r.files == StoredProject(env, projects[i], files)
            && ProjectPath(root, projectId) in r.files
            && r.files[ProjectPath(root, projectId)] == ProjectFile(Stamp(env, projects[i]), env.variant == Current)
  {
    var i := FindProject(projects, projectId).value;
    ExpandIgnoresStamp(env, projects[i]);
  }

  /** Different projects are exported into disjoint folders. */
  lemma ProjectRootsDisjoint(env: Env, a: string, b: string, q: Path)
    requires a != b
    ensures !(Under(ProjectRoot(env, a), q) && Under(ProjectRoot(env, b), q))
  {
  }

  /** A path inside a resource folder is never the project file. */
  lemma ResourceNotProjectFile(root: Path, pid: string, t: string, p: Path)
    requires t in SLOTS && Under(root + [t], p)
    ensures Under(root, p) && p != ProjectPath(root, pid)
  {
    UnderChild(root, t, p);
    TypeKeysEndInS(t);
    var name := pid + ".json";
    assert name[|name| - 1] == 'n';
    assert ProjectPath(root, pid)[|root|] == name;
  }

  /** After a successful export, the files in `<root>/<t>` are exactly those of
      the documents fetched for worklist `t`, each holding the last document
      fetched for its path; nothing from before the export survives there. */
  lemma ExportedResourceFile(env: Env, projectId: string, projects: seq<Project>, files: Files, t: string, p: Path)
    requires ExportSpec(env, projectId, projects, files).outcome == Exported
    requires t in SLOTS && Under(ProjectRoot(env, projectId) + [t], p)
    ensures var i := FindProject(projects, projectId).value;
            var w := Expand(Stamp(env, projects[i])).value;
            var docs := Fetched(env, t, w[t]);
            var root := ProjectRoot(env, projectId);
            var after := ExportSpec(env, projectId, projects, files).files;
            (p in after <==> exists k :: 0 <= k < |docs| && PathOf(env, root, t, docs[k]) == p)
            && (forall k ::
                  (0 <= k < |docs| && PathOf(env, root, t, docs[k]) == p
                   && (forall j :: k < j < |docs| ==> PathOf(env, root, t, docs[j]) != p)) ==>
                  after[p] == BodyOf(env, t, docs[k]))
  {
    var i := FindProject(projects, projectId).value;
    var root := ProjectRoot(env, projectId);
    var files1 := StoredProject(env, projects[i], files);
    var w := Expand(Stamp(env, projects[i])).value;
    ExportedFiles(env, projectId, projects, files);
    ResourceNotProjectFile(root, projectId, t, p);
    assert p !in files1;
    assert Queue(w, t) == w[t];
    RetrievedFile(env, root, w, files1, t, p);
  }

  /** In the current version, after a successful export no flow file is
      marked as trained or carries a model id. */
  lemma ExportedFlowsUntrained(env: Env, projectId: string, projects: seq<Project>, files: Files)
    requires env.variant == Current
    requires ExportSpec(env, projectId, projects, files).outcome == Exported
    ensures FlowsUntrained(ProjectRoot(env, projectId), ExportSpec(env, projectId, projects, files).files)
  {
    var i := FindProject(projects, projectId).value;
    var root := ProjectRoot(env, projectId);
    var files1 := StoredProject(env, projects[i], files);
    ExportedFiles(env, projectId, projects, files);
    assert FlowsUntrained(root, files1) by {
      forall q | q in files1 && Under(root + ["flows"], q) ensures files1[q].ProjectFile? {
        UnderChild(root, "flows", q);
      }
    }
    FetchKeepsFlowsUntrained(env, root, Expand(Stamp(env, projects[i])).value, TYPE_KEYS, files1);
  }
}
