/** The directory walker of `dir_walker/walker.rs`: every configured
    directory is scanned, a directory that is positively identified as a
    project is indexed and not descended into, and any other directory
    hands its sub-directories on, one level deeper, until the depth limit.

    The source runs the scans on worker threads fed by a channel; here the
    queue is drained level by level (every job of depth d before any job of
    depth d + 1). Each scan reads and writes only the index entry of its
    own directory, so the order matters only when the same directory is
    queued twice. */
module Walker {
  import opened Wrappers
  import opened Paths
  import opened FileHandler
  import opened Classifier
  import opened Indexer

  /** `EXCLUDE_DIRS`: sub-directory names that are never queued. */
  const ExcludeDirs: seq<string> := [".git", "node_modules", "target", ".vscode", "src", "venv"]

  /** What a readable directory yields: its sub-directories and its files
      (full paths, in listing order) and its modification time, if its
      metadata can be read. */
  datatype Listing = Listing(subdirs: seq<string>, files: seq<string>, modified: Option<int>)

  /** The file system as the walker sees it: the listing of every readable
      directory (a directory that is absent cannot be read), and what the
      classifier reads. */
  datatype World = World(dirs: map<string, Listing>, env: Env)

  /** A queued scan: the directory and its depth below a configured one. */
  datatype Job = Job(path: string, depth: nat)

  /** A directory whose file name starts with a dot is not scanned. A path
      without a file name ("/", "..") is not hidden. */
  predicate IsHidden(path: string)
  {
    FileName(path).Some? && FileName(path).value != [] && FileName(path).value[0] == '.'
  }

  /** A sub-directory is skipped when its file name (the empty name when it
      has none) is one of `EXCLUDE_DIRS`. */
  predicate Excluded(path: string)
  {
    (if FileName(path).Some? then FileName(path).value else "") in ExcludeDirs
  }

  /** The time `scan_dir` stamps a directory with: its modification time,
      else the current time. */
  function ModTime(w: World, path: string): int
    requires path in w.dirs
  {
    if w.dirs[path].modified.Some? then w.dirs[path].modified.value else w.env.now
  }

  /** The jobs queued for the sub-directories of a directory at `depth`,
      in listing order. */
  function ChildJobs(subdirs: seq<string>, depth: nat): (r: seq<Job>)
    ensures |r| <= |subdirs|
    ensures forall j :: 0 <= j < |r| ==> r[j].depth == depth + 1 && r[j].path in subdirs && !Excluded(r[j].path)
    ensures forall d :: d in subdirs && !Excluded(d) ==> Job(d, depth + 1) in r
  {
    if subdirs == [] then []
    else
      var last := subdirs[|subdirs| - 1];
      var init := ChildJobs(subdirs[..|subdirs| - 1], depth);
      assert forall d :: d in subdirs ==> d in subdirs[..|subdirs| - 1] || d == last;
      if Excluded(last) then init else init + [Job(last, depth + 1)]
  }

  /** What one scan leaves behind: the index's projects, the project it
      reported (if any) and the jobs it queued. */
  datatype Step = Step(projects: map<string, Project>, emitted: Option<Project>, children: seq<Job>)

  /** `scan_dir` on one job. A hidden or unreadable directory is left
      alone. A directory whose index entry is missing or older than its
      time is classified: a project is stored, reported and not descended
      into; a panic while classifying ends the scan (the worker thread
      dies). Anything else, including an up-to-date indexed directory,
      queues its sub-directories while the depth is below the limit. */
  function ScanStep(w: World, projects: map<string, Project>, job: Job, maxDepth: nat): Step
  {
    if IsHidden(job.path) || job.path !in w.dirs then Step(projects, None, [])
    else
      var listing := w.dirs[job.path];
      var modified := ModTime(w, job.path);
      var descend := Step(projects, None, if job.depth < maxDepth then ChildJobs(listing.subdirs, job.depth) else []);
      if !NeedsReindex(projects, job.path, modified) then descend
      else
        match RelevantProject(w.env, listing.files, job.path, modified)
        case Panicked => Step(projects, None, [])
        case Returned(None) => descend
        case Returned(Some(p)) => Step(Upsert(projects, job.path, p), Some(p), [])
  }

  /** The outcome of a sequence of scans: the projects, what was reported
      and what was queued, in order. */
  datatype Level = Level(projects: map<string, Project>, found: seq<Project>, next: seq<Job>)

  /** The scans of one queue level, one after the other. */
  function ScanLevel(w: World, projects: map<string, Project>, jobs: seq<Job>, maxDepth: nat): (r: Level)
  {
    if jobs == [] then Level(projects, [], [])
    else
      var before := ScanLevel(w, projects, jobs[..|jobs| - 1], maxDepth);
      var s := ScanStep(w, before.projects, jobs[|jobs| - 1], maxDepth);
      Level(s.projects, before.found + (if s.emitted.Some? then [s.emitted.value] else []),
            before.next + s.children)
  }

  /** Whether every job sits at `depth`. */
  predicate AtDepth(jobs: seq<Job>, depth: nat)
  {
    forall j :: 0 <= j < |jobs| ==> jobs[j].depth == depth
  }

  /** The jobs a level queues sit one level deeper, never beyond the
      limit. */
  lemma {:induction false} ScanLevelDepth(w: World, projects: map<string, Project>, jobs: seq<Job>, depth: nat, maxDepth: nat)
    requires AtDepth(jobs, depth)
    ensures AtDepth(ScanLevel(w, projects, jobs, maxDepth).next, depth + 1)
    ensures ScanLevel(w, projects, jobs, maxDepth).next != [] ==> depth < maxDepth
  {
    if jobs != [] {
      ScanLevelDepth(w, projects, jobs[..|jobs| - 1], depth, maxDepth);
    }
  }

  /** The outcome of a whole walk: the projects and every report. */
  datatype Pass = Pass(projects: map<string, Project>, found: seq<Project>)

  /** `analyze_all_dirs` from one level on: scan the level, then the jobs it
      queued, until nothing is queued. */
  function Crawl(w: World, projects: map<string, Project>, jobs: seq<Job>, depth: nat, maxDepth: nat): Pass
    requires AtDepth(jobs, depth) && depth <= maxDepth
    decreases maxDepth - depth
  {
    var level := ScanLevel(w, projects, jobs, maxDepth);
    ScanLevelDepth(w, projects, jobs, depth, maxDepth);
    if level.next == [] then Pass(level.projects, level.found)
    else
      var rest := Crawl(w, level.projects, level.next, depth + 1, maxDepth);
      Pass(rest.projects, level.found + rest.found)
  }

  /** The first level: every configured directory at depth 0. */
  function Seeds(dirs: seq<string>): (r: seq<Job>)
    ensures |r| == |dirs| && AtDepth(r, 0)
    ensures forall i :: 0 <= i < |dirs| ==> r[i].path == dirs[i]
  {
    seq(|dirs|, i requires 0 <= i < |dirs| => Job(dirs[i], 0))
  }

  /** The walk `analyze_all_dirs` performs over `dirs`. */
  function Walk(w: World, projects: map<string, Project>, dirs: seq<string>, maxDepth: nat): Pass
  {
    Crawl(w, projects, Seeds(dirs), 0, maxDepth)
  }

  // ---------------------------------------------------------------------
  // Properties of a scan and of a walk

  /** A hidden or unreadable directory changes nothing, reports nothing
      and queues nothing. */
  lemma SkippedDirectory(w: World, projects: map<string, Project>, job: Job, maxDepth: nat)
    requires IsHidden(job.path) || job.path !in w.dirs
    ensures ScanStep(w, projects, job, maxDepth) == Step(projects, None, [])
  {
  }

  /** What one scan does: a reported project is the directory's, stamped
      with the directory's time, and is stored under the directory's path
      (which is then up to date) with nothing queued; without a report the
      index is unchanged. Queued jobs are non-excluded sub-directories one
      level deeper, never beyond the limit. */
  lemma ScanStepEffect(w: World, projects: map<string, Project>, job: Job, maxDepth: nat)
    ensures var s := ScanStep(w, projects, job, maxDepth);
            && (s.emitted.None? ==> s.projects == projects)
            && (s.emitted.Some? ==>
                  && job.path in w.dirs && !IsHidden(job.path)
                  && NeedsReindex(projects, job.path, ModTime(w, job.path))
                  && s.emitted.value.path == job.path
                  && s.emitted.value.lastModified == ModTime(w, job.path)
                  && s.projects == Upsert(projects, job.path, s.emitted.value)
                  && !NeedsReindex(s.projects, job.path, ModTime(w, job.path))
                  && s.children == [])
            && (forall c :: c in s.children ==>
                  && job.path in w.dirs && c.path in w.dirs[job.path].subdirs
                  && !Excluded(c.path) && c.depth == job.depth + 1 <= maxDepth)
  {
    if !IsHidden(job.path) && job.path in w.dirs {
      var modified := ModTime(w, job.path);
      var r := RelevantProject(w.env, w.dirs[job.path].files, job.path, modified);
      if NeedsReindex(projects, job.path, modified) && r.Returned? && r.value.Some? {
        RelevantProjectShape(w.env, w.dirs[job.path].files, job.path, modified);
      }
    }
  }

  /** An indexed directory that is up to date is not classified again but
      is still descended into, as any unidentified directory would be. */
  lemma UpToDateDescends(w: World, projects: map<string, Project>, job: Job, maxDepth: nat)
    requires !IsHidden(job.path) && job.path in w.dirs
    requires !NeedsReindex(projects, job.path, ModTime(w, job.path))
    ensures ScanStep(w, projects, job, maxDepth)
            == Step(projects, None, if job.depth < maxDepth then ChildJobs(w.dirs[job.path].subdirs, job.depth) else [])
  {
  }

  /** Scanning a directory again right after it was identified reports
      nothing and queues the project's own sub-directories: a second walk
      over an unchanged tree descends into every project the first one
      found. */
  lemma RescanDescendsIntoProject(w: World, projects: map<string, Project>, job: Job, maxDepth: nat)
    requires ScanStep(w, projects, job, maxDepth).emitted.Some?
    ensures var s := ScanStep(w, projects, job, maxDepth);
            ScanStep(w, s.projects, job, maxDepth)
            == Step(s.projects, None, if job.depth < maxDepth then ChildJobs(w.dirs[job.path].subdirs, job.depth) else [])
  {
    ScanStepEffect(w, projects, job, maxDepth);
    var s := ScanStep(w, projects, job, maxDepth);
    UpToDateDescends(w, s.projects, job, maxDepth);
  }

  /** The reports of a walk so far: each is the indexed entry of its own,
      readable directory, stamped with that directory's time, and no
      directory is reported twice. */
  ghost predicate FoundIndexed(w: World, projects: map<string, Project>, found: seq<Project>)
  {
    && (forall i :: 0 <= i < |found| ==>
          && found[i].path in w.dirs && found[i].path in projects
          && projects[found[i].path] == found[i]
          && found[i].lastModified == ModTime(w, found[i].path))
    && (forall i, j :: 0 <= i < j < |found| ==> found[i].path != found[j].path)
  }

  /** The paths of the reported projects. */
  function FoundPaths(found: seq<Project>): set<string>
  {
    set p | p in found :: p.path
  }

  lemma FoundPathsAppend(a: seq<Project>, b: seq<Project>)
    ensures FoundPaths(a + b) == FoundPaths(a) + FoundPaths(b)
  {
    forall q | q in FoundPaths(a + b)
      ensures q in FoundPaths(a) + FoundPaths(b)
    {
      var p :| p in a + b && p.path == q;
    }
  }

  /** `after` is `before` plus entries for the reported directories. */
  ghost predicate Extends(before: map<string, Project>, after: map<string, Project>, found: seq<Project>)
  {
    && after.Keys == before.Keys + FoundPaths(found)
    && (forall q :: q in before && q !in FoundPaths(found) ==> after[q] == before[q])
  }

  lemma ExtendsTrans(a: map<string, Project>, b: map<string, Project>, c: map<string, Project>,
                     f1: seq<Project>, f2: seq<Project>)
    requires Extends(a, b, f1) && Extends(b, c, f2)
    ensures Extends(a, c, f1 + f2)
  {
    FoundPathsAppend(f1, f2);
  }

  function Reported(emitted: Option<Project>): seq<Project>
  {
    if emitted.Some? then [emitted.value] else []
  }

  /** One scan keeps the earlier reports indexed: a reported directory is
      up to date, so scanning it again leaves its entry alone. */
  lemma ScanStepKeepsFound(w: World, projects: map<string, Project>, job: Job, maxDepth: nat, earlier: seq<Project>)
    requires FoundIndexed(w, projects, earlier)
    ensures var s := ScanStep(w, projects, job, maxDepth);
            FoundIndexed(w, s.projects, earlier + Reported(s.emitted))
  {
    ScanStepEffect(w, projects, job, maxDepth);
    var s := ScanStep(w, projects, job, maxDepth);
    if s.emitted.Some? {
      UpsertKeepsFound(w, projects, earlier, s.emitted.value);
    } else {
      assert earlier + Reported(s.emitted) == earlier;
    }
  }

  /** Indexing a project whose directory needed it keeps the earlier
      reports indexed: none of them was for that directory. */
  lemma UpsertKeepsFound(w: World, projects: map<string, Project>, earlier: seq<Project>, p: Project)
    requires FoundIndexed(w, projects, earlier)
    requires p.path in w.dirs && p.lastModified == ModTime(w, p.path)
    requires NeedsReindex(projects, p.path, p.lastModified)
    ensures FoundIndexed(w, Upsert(projects, p.path, p), earlier + [p])
  {
    forall i | 0 <= i < |earlier|
      ensures earlier[i].path != p.path
    {
    }
  }

  lemma SameReports(w: World, projects: map<string, Project>, a: seq<Project>, b: seq<Project>)
    requires a == b && FoundIndexed(w, projects, a)
    ensures FoundIndexed(w, projects, b)
  {
  }

  lemma RegroupReports(w: World, projects: map<string, Project>, earlier: seq<Project>,
                       a: seq<Project>, b: seq<Project>, ab: seq<Project>)
    requires ab == a + b && FoundIndexed(w, projects, earlier + a + b)
    ensures FoundIndexed(w, projects, earlier + ab)
  {
    assert earlier + a + b == earlier + ab;
  }

  /** A level of scans: the index gains exactly the reported directories
      and every other entry is unchanged. */
  lemma {:induction false} ScanLevelExtends(w: World, projects: map<string, Project>, jobs: seq<Job>, maxDepth: nat)
    ensures var l := ScanLevel(w, projects, jobs, maxDepth);
            Extends(projects, l.projects, l.found)
  {
    if jobs != [] {
      var init := jobs[..|jobs| - 1];
      var before := ScanLevel(w, projects, init, maxDepth);
      ScanLevelExtends(w, projects, init, maxDepth);
      var job := jobs[|jobs| - 1];
      ScanStepEffect(w, before.projects, job, maxDepth);
      var s := ScanStep(w, before.projects, job, maxDepth);
      assert FoundPaths(Reported(s.emitted)) == (if s.emitted.Some? then {job.path} else {});
      assert Extends(before.projects, s.projects, Reported(s.emitted));
      ExtendsTrans(projects, before.projects, s.projects, before.found, Reported(s.emitted));
    }
  }

  /** ... and the reports, earlier ones included, stay indexed. */
  lemma {:induction false} ScanLevelKeepsFound(w: World, projects: map<string, Project>, jobs: seq<Job>, maxDepth: nat, earlier: seq<Project>)
    requires FoundIndexed(w, projects, earlier)
    ensures var l := ScanLevel(w, projects, jobs, maxDepth);
            FoundIndexed(w, l.projects, earlier + l.found)
  {
    if jobs != [] {
      var init := jobs[..|jobs| - 1];
      var before := ScanLevel(w, projects, init, maxDepth);
      ScanLevelKeepsFound(w, projects, init, maxDepth, earlier);
      var job := jobs[|jobs| - 1];
      ScanStepKeepsFound(w, before.projects, job, maxDepth, earlier + before.found);
      var s := ScanStep(w, before.projects, job, maxDepth);
      SameReports(w, s.projects, earlier + before.found + Reported(s.emitted), earlier + (before.found + Reported(s.emitted)));
    }
  }

  /** The same for the rest of a walk: the index gains exactly the
      reported directories. */
  lemma {:induction false} CrawlExtends(w: World, projects: map<string, Project>, jobs: seq<Job>, depth: nat, maxDepth: nat)
    requires AtDepth(jobs, depth) && depth <= maxDepth
    ensures var c := Crawl(w, projects, jobs, depth, maxDepth);
            Extends(projects, c.projects, c.found)
    decreases maxDepth - depth
  {
    var level := ScanLevel(w, projects, jobs, maxDepth);
    ScanLevelExtends(w, projects, jobs, maxDepth);
    ScanLevelDepth(w, projects, jobs, depth, maxDepth);
    if level.next != [] {
      var rest := Crawl(w, level.projects, level.next, depth + 1, maxDepth);
      CrawlExtends(w, level.projects, level.next, depth + 1, maxDepth);
      ExtendsTrans(projects, level.projects, rest.projects, level.found, rest.found);
    }
  }

  /** One level of a walk, then the rest. */
  lemma CrawlUnfold(w: World, projects: map<string, Project>, jobs: seq<Job>, depth: nat, maxDepth: nat)
    requires AtDepth(jobs, depth) && depth <= maxDepth
    ensures var level := ScanLevel(w, projects, jobs, maxDepth);
            var c := Crawl(w, projects, jobs, depth, maxDepth);
            && (level.next == [] ==> c == Pass(level.projects, level.found))
            && (level.next != [] ==>
                  && depth < maxDepth && AtDepth(level.next, depth + 1)
                  && c.projects == Crawl(w, level.projects, level.next, depth + 1, maxDepth).projects
                  && c.found == level.found + Crawl(w, level.projects, level.next, depth + 1, maxDepth).found)
  {
    ScanLevelDepth(w, projects, jobs, depth, maxDepth);
  }

  /** ... and the reports stay indexed. */
  lemma {:induction false} CrawlKeepsFound(w: World, projects: map<string, Project>, jobs: seq<Job>, depth: nat, maxDepth: nat, earlier: seq<Project>)
    requires AtDepth(jobs, depth) && depth <= maxDepth
    requires FoundIndexed(w, projects, earlier)
    ensures var c := Crawl(w, projects, jobs, depth, maxDepth);
            FoundIndexed(w, c.projects, earlier + c.found)
    decreases maxDepth - depth
  {
    var level := ScanLevel(w, projects, jobs, maxDepth);
    var c := Crawl(w, projects, jobs, depth, maxDepth);
    ScanLevelKeepsFound(w, projects, jobs, maxDepth, earlier);
    CrawlUnfold(w, projects, jobs, depth, maxDepth);
    if level.next != [] {
      var rest := Crawl(w, level.projects, level.next, depth + 1, maxDepth);
      CrawlKeepsFound(w, level.projects, level.next, depth + 1, maxDepth, earlier + level.found);
      RegroupReports(w, rest.projects, earlier, level.found, rest.found, c.found);
    }
  }

  /** A whole walk: the index afterwards holds the old entries plus one
      entry per reported project, exactly the reported project, which is
      stamped with its directory's time; untouched entries are unchanged;
      no directory is reported twice. */
  lemma WalkEffect(w: World, projects: map<string, Project>, dirs: seq<string>, maxDepth: nat)
    ensures var p := Walk(w, projects, dirs, maxDepth);
            && p.projects.Keys == projects.Keys + FoundPaths(p.found)
            && (forall q :: q in projects && q !in FoundPaths(p.found) ==> p.projects[q] == projects[q])
            && FoundIndexed(w, p.projects, p.found)
  {
    CrawlExtends(w, projects, Seeds(dirs), 0, maxDepth);
    CrawlKeepsFound(w, projects, Seeds(dirs), 0, maxDepth, []);
    assert [] + Walk(w, projects, dirs, maxDepth).found == Walk(w, projects, dirs, maxDepth).found;
  }

  // ---------------------------------------------------------------------
  // The walker over a shared index

  /** `scan_dir`, against the index object. */
  method ScanDir(w: World, index: Index, job: Job, maxDepth: nat)
    returns (emitted: Option<Project>, children: seq<Job>)
    modifies index
    ensures index.lastIndexed == old(index.lastIndexed)
    ensures var s := ScanStep(w, old(index.projects), job, maxDepth);
            index.projects == s.projects && emitted == s.emitted && children == s.children
  {
    emitted, children := None, [];
    if IsHidden(job.path) || job.path !in w.dirs {
      return;
    }
    var listing := w.dirs[job.path];
    var modified := if listing.modified.Some? then listing.modified.value else w.env.now;
    var reindex := index.ShouldReindex(job.path, modified);
    if reindex {
      var r := GetRelevantProject(w.env, listing.files, job.path, modified);
      match r {
        case Panicked =>
          return;
        case Returned(Some(p)) =>
          index.AddProject(job.path, p);
          emitted := Some(p);
          return;
        case Returned(None) =>
      }
    }
    if job.depth < maxDepth {
      children := QueueChildren(listing.subdirs, job.depth);
    }
  }

  /** The loop of `scan_dir` over the sub-directories. */
  method QueueChildren(subdirs: seq<string>, depth: nat) returns (children: seq<Job>)
    ensures children == ChildJobs(subdirs, depth)
  {
    children := [];
    for i := 0 to |subdirs|
      invariant children == ChildJobs(subdirs[..i], depth)
    {
      assert subdirs[..i + 1][..i] == subdirs[..i];
      if !Excluded(subdirs[i]) {
        children := children + [Job(subdirs[i], depth + 1)];
      }
    }
    assert subdirs[..|subdirs|] == subdirs;
  }

  /** One level of `analyze_all_dirs`: scan each queued directory in
      turn, collecting what it reports and what it queues. */
  method ScanJobs(w: World, index: Index, level: seq<Job>, maxDepth: nat)
    returns (levelFound: seq<Project>, next: seq<Job>)
    modifies index
    ensures index.lastIndexed == old(index.lastIndexed)
    ensures ScanLevel(w, old(index.projects), level, maxDepth) == Level(index.projects, levelFound, next)
  {
    levelFound, next := [], [];
    for i := 0 to |level|
      invariant index.lastIndexed == old(index.lastIndexed)
      invariant ScanLevel(w, old(index.projects), level[..i], maxDepth) == Level(index.projects, levelFound, next)
    {
      assert level[..i + 1][..i] == level[..i];
      var emitted, children := ScanDir(w, index, level[i], maxDepth);
      if emitted.Some? {
        levelFound := levelFound + [emitted.value];
      }
      next := next + children;
    }
    assert level[..|level|] == level;
  }

  /** `analyze_all_dirs`: drain the queue a level at a time, reporting
      every project found, and update the index in place. */
  method AnalyzeAllDirs(w: World, dirs: seq<string>, maxDepth: nat, index: Index)
    returns (found: seq<Project>)
    modifies index
    ensures index.lastIndexed == old(index.lastIndexed)
    ensures Walk(w, old(index.projects), dirs, maxDepth) == Pass(index.projects, found)
  {
    var level := Seeds(dirs);
    var depth: nat := 0;
    found := [];
    while level != []
      invariant AtDepth(level, depth) && depth <= maxDepth
      invariant index.lastIndexed == old(index.lastIndexed)
      invariant var rest := Crawl(w, index.projects, level, depth, maxDepth);
                Walk(w, old(index.projects), dirs, maxDepth) == Pass(rest.projects, found + rest.found)
      decreases maxDepth - depth, |level|
    {
      ghost var start := index.projects;
      var levelFound, next := ScanJobs(w, index, level, maxDepth);
      ScanLevelDepth(w, start, level, depth, maxDepth);
      ghost var before := found;
      found := found + levelFound;
      if next == [] {
        level := [];
      } else {
        ghost var rest := Crawl(w, index.projects, next, depth + 1, maxDepth);
        assert found + rest.found == before + (levelFound + rest.found);
        level, depth := next, depth + 1;
      }
    }
  }
}
