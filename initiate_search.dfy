/** `initiate_search` in `file_handler.rs`: load the index (or start a
    fresh one), walk every configured directory with four workers to
    depth four, and save the index. */
module Pipeline {
  import opened Wrappers
  import opened FileHandler
  import opened Indexer
  import opened Walker

  /** The projects `load_or_default` starts from. */
  function StartingProjects(f: IndexFile): map<string, Project>
  {
    if Load(f).Ok? then Load(f).value.projects else map[]
  }

  /** `initiate_search`: the walk's reports are discarded; the result is
      the save's. On success the index file holds the starting projects
      updated by a walk to depth `MaxDepth`, stamped with the current
      time, as long as every language share is a number; otherwise the
      file written does not load and the next search starts empty. */
  method InitiateSearch(w: World, projectDirs: seq<string>, indexFile: IndexFile, openOk: bool, writeOk: bool)
    returns (r: Result<(), LoadError>, indexFile': IndexFile)
    ensures r.Ok? <==> openOk && writeOk
    ensures !openOk ==> indexFile' == indexFile
    ensures var projects := Walk(w, StartingProjects(indexFile), projectDirs, MaxDepth).projects;
            && (r.Ok? && AllSharesFinite(projects) ==> Load(indexFile') == Ok(IndexData(projects, w.env.now)))
            && (r.Ok? && !AllSharesFinite(projects) ==> Load(indexFile') == Err(SerdeError))
  {
    var index := new Index.LoadOrDefault(indexFile, w.env.now);
    var _ := AnalyzeAllDirs(w, projectDirs, MaxDepth, index);
    r, indexFile' := index.Save(w.env.now, openOk, writeOk, indexFile);
  }

  /** After a successful search the saved index holds every project the
      walk reported, under its own directory, next to the projects it
      started with. */
  lemma SavedIndexHoldsFound(w: World, f: IndexFile, projectDirs: seq<string>)
    ensures var p := Walk(w, StartingProjects(f), projectDirs, MaxDepth);
            && (forall i :: 0 <= i < |p.found| ==> p.found[i].path in p.projects && p.projects[p.found[i].path] == p.found[i])
            && StartingProjects(f).Keys <= p.projects.Keys
  {
    WalkEffect(w, StartingProjects(f), projectDirs, MaxDepth);
  }
}
