/** The persistent project index (src-tauri/src/indexer.rs): a map from
    directory path to the last project found there, and the time of the
    last save. */
module Indexer {
  import opened Wrappers
  import opened FileHandler

  /** Every language share of every project is a number. */
  predicate AllSharesFinite(projects: map<string, Project>)
  {
    forall path :: path in projects ==> SharesFinite(projects[path].languageMap)
  }

  /** `add_project` on the map: remove the old entry, insert the new one. */
  function Upsert(m: map<string, Project>, path: string, p: Project): (r: map<string, Project>)
    ensures path in r && r[path] == p
    ensures forall q :: q != path ==> (q in r <==> q in m)
    ensures forall q :: q != path && q in m ==> r[q] == m[q]
    ensures r.Keys == m.Keys + {path}
  {
    (m - {path})[path := p]
  }

  /** The reindex rule: a path needs scanning when it is not indexed, or its
      entry is strictly older than the directory's modification time. */
  predicate NeedsReindex(m: map<string, Project>, path: string, modified: int)
  {
    path !in m || m[path].lastModified < modified
  }

  /** Adding a path stamped with `modified` makes it up to date for any
      time up to `modified`, and leaves every other path's status alone. */
  lemma UpsertUpToDate(m: map<string, Project>, path: string, p: Project, t: int, q: string, u: int)
    requires t <= p.lastModified
    ensures !NeedsReindex(Upsert(m, path, p), path, t)
    ensures q != path ==> NeedsReindex(Upsert(m, path, p), q, u) == NeedsReindex(m, q, u)
  {
  }

  /** An up-to-date entry stays up to date for every earlier time. */
  lemma UpToDateMonotone(m: map<string, Project>, path: string, t: int, t': int)
    requires !NeedsReindex(m, path, t) && t' <= t
    ensures !NeedsReindex(m, path, t')
  {
  }

  /** Adding the same path again replaces, never duplicates: only the last
      value counts. */
  lemma UpsertTwice(m: map<string, Project>, path: string, p: Project, p': Project)
    ensures Upsert(Upsert(m, path, p), path, p') == Upsert(m, path, p')
  {
    var a := Upsert(Upsert(m, path, p), path, p');
    var b := Upsert(m, path, p');
    assert a.Keys == b.Keys;
  }

  /** A run of `add_project` calls, in order. */
  function UpsertAll(m: map<string, Project>, adds: seq<(string, Project)>): map<string, Project>
    decreases |adds|
  {
    if adds == [] then m
    else UpsertAll(Upsert(m, adds[0].0, adds[0].1), adds[1..])
  }

  /** After any run of adds, each path added has exactly one entry, equal
      to the last value added for it; the map grows by at most one entry
      per add, and paths never added keep their entries. */
  lemma {:induction false} UpsertAllLast(m: map<string, Project>, adds: seq<(string, Project)>, k: nat)
    requires k < |adds|
    requires forall j :: k < j < |adds| ==> adds[j].0 != adds[k].0
    ensures adds[k].0 in UpsertAll(m, adds)
    ensures UpsertAll(m, adds)[adds[k].0] == adds[k].1
    decreases |adds|
  {
    var m' := Upsert(m, adds[0].0, adds[0].1);
    if k == 0 {
      UpsertAllKeeps(m', adds[1..], adds[0].0);
    } else {
      UpsertAllLast(m', adds[1..], k - 1);
    }
  }

  lemma {:induction false} UpsertAllKeeps(m: map<string, Project>, adds: seq<(string, Project)>, q: string)
    requires forall j :: 0 <= j < |adds| ==> adds[j].0 != q
    ensures q in UpsertAll(m, adds) <==> q in m
    ensures q in m ==> UpsertAll(m, adds)[q] == m[q]
    ensures |UpsertAll(m, adds).Keys| <= |m.Keys| + |adds|
    decreases |adds|
  {
    if adds != [] {
      var m' := Upsert(m, adds[0].0, adds[0].1);
      UpsertAllKeeps(m', adds[1..], q);
      assert |m'.Keys| <= |m.Keys| + 1 by {
        assert m'.Keys == m.Keys + {adds[0].0};
      }
    }
  }

  /** Whether a listing is ordered newest first. */
  predicate NewestFirst(ps: seq<Project>)
  {
    forall i, j :: 0 <= i < j < |ps| ==> ps[i].lastModified >= ps[j].lastModified
  }

  /** `result[i]` is the entry of `m` stored under `paths[i]`. */
  ghost predicate Listed(m: map<string, Project>, result: seq<Project>, paths: seq<string>)
  {
    && |paths| == |result|
    && (forall i :: 0 <= i < |paths| ==> paths[i] in m && result[i] == m[paths[i]])
    && (forall i, j :: 0 <= i < j < |paths| ==> paths[i] != paths[j])
  }

  /** The elements of `s` with `x` inserted at position `n`. */
  lemma InsertAt<T>(s: seq<T>, n: nat, x: T)
    requires n <= |s|
    ensures |s[..n] + [x] + s[n..]| == |s| + 1
    ensures forall i :: 0 <= i < n ==> (s[..n] + [x] + s[n..])[i] == s[i]
    ensures (s[..n] + [x] + s[n..])[n] == x
    ensures forall i :: n < i <= |s| ==> (s[..n] + [x] + s[n..])[i] == s[i - 1]
  {
  }

  lemma InsertListed(m: map<string, Project>, result: seq<Project>, paths: seq<string>, n: nat, k: string)
    requires Listed(m, result, paths) && k in m && k !in paths && n <= |result|
    ensures Listed(m, result[..n] + [m[k]] + result[n..], paths[..n] + [k] + paths[n..])
    ensures forall q :: q in paths[..n] + [k] + paths[n..] <==> q in paths || q == k
  {
    InsertAt(result, n, m[k]);
    InsertAt(paths, n, k);
    assert paths == paths[..n] + paths[n..];
  }

  /** Where `p` goes in a newest-first listing: before the first strictly
      older entry. */
  method InsertionPoint(ps: seq<Project>, p: Project) returns (n: nat)
    requires NewestFirst(ps)
    ensures n <= |ps|
    ensures NewestFirst(ps[..n] + [p] + ps[n..])
  {
    n := 0;
    while n < |ps| && ps[n].lastModified >= p.lastModified
      invariant 0 <= n <= |ps|
      invariant forall i :: 0 <= i < n ==> ps[i].lastModified >= p.lastModified
    {
      n := n + 1;
    }
    var r := ps[..n] + [p] + ps[n..];
    assert forall i :: 0 <= i < |r| ==> r[i] == if i < n then ps[i] else if i == n then p else ps[i - 1];
  }

  /** The file `index.json` as loading finds it. */
  datatype IndexFile =
    | Missing
    | Unopenable
    | Malformed
    | Stored(projects: map<string, Project>, lastIndexed: int)

  datatype LoadError = NotFound | IoError | SerdeError

  datatype IndexData = IndexData(projects: map<string, Project>, lastIndexed: int)

  /** `Index::load`: the stored index, or the error for a missing,
      unopenable or unparseable file. */
  function Load(f: IndexFile): (r: Result<IndexData, LoadError>)
    ensures r.Ok? <==> f.Stored?
    ensures r.Ok? ==> r.value == IndexData(f.projects, f.lastIndexed)
    ensures f.Missing? ==> r == Err(NotFound)
    ensures f.Unopenable? ==> r == Err(IoError)
    ensures f.Malformed? ==> r == Err(SerdeError)
  {
    match f
    case Missing => Err(NotFound)
    case Unopenable => Err(IoError)
    case Malformed => Err(SerdeError)
    case Stored(ps, t) => Ok(IndexData(ps, t))
  }

  class Index {
    var projects: map<string, Project>
    var lastIndexed: int

    /** `Index::default`: no projects, stamped with `now`. */
    constructor Default(now: int)
      ensures projects == map[] && lastIndexed == now
    {
      projects := map[];
      lastIndexed := now;
    }

    /** `Index::load_or_default`: never fails; anything but a stored index
        gives the default. */
    constructor LoadOrDefault(f: IndexFile, now: int)
      ensures Load(f).Ok? ==> projects == Load(f).value.projects && lastIndexed == Load(f).value.lastIndexed
      ensures Load(f).Err? ==> projects == map[] && lastIndexed == now
    {
      match f {
        case Stored(ps, t) =>
          projects := ps;
          lastIndexed := t;
        case _ =>
          projects := map[];
          lastIndexed := now;
      }
    }

    /** `add_project`: remove any entry for `path`, then insert `project`. */
    method AddProject(path: string, project: Project)
      modifies this
      ensures projects == Upsert(old(projects), path, project)
      ensures lastIndexed == old(lastIndexed)
    {
      projects := projects - {path};
      projects := projects[path := project];
    }

    /** `should_reindex`: true for an unindexed path; otherwise true exactly
        when the stored time is strictly before `modified`. */
    method ShouldReindex(path: string, modified: int) returns (r: bool)
      ensures path !in projects ==> r
      ensures path in projects ==> (r <==> projects[path].lastModified < modified)
      ensures r == NeedsReindex(projects, path, modified)
    {
      if path in projects {
        r := projects[path].lastModified < modified;
      } else {
        r := true;
      }
    }

    /** `projects()`: every stored project exactly once (`paths[i]` is the
        key `result[i]` is stored under, and the keys are distinct and
        cover the map), newest first. */
    method Projects() returns (result: seq<Project>, ghost paths: seq<string>)
      ensures |paths| == |result|
      ensures forall i :: 0 <= i < |paths| ==> paths[i] in projects && result[i] == projects[paths[i]]
      ensures forall i, j :: 0 <= i < j < |paths| ==> paths[i] != paths[j]
      ensures forall k :: k in projects ==> k in paths
      ensures NewestFirst(result)
    {
      var rest := projects.Keys;
      result, paths := [], [];
      while rest != {}
        invariant rest <= projects.Keys
        invariant Listed(projects, result, paths)
        invariant forall k :: k in paths <==> k in projects && k !in rest
        invariant NewestFirst(result)
        decreases rest
      {
        var k :| k in rest;
        var n := InsertionPoint(result, projects[k]);
        InsertListed(projects, result, paths, n, k);
        result := result[..n] + [projects[k]] + result[n..];
        paths := paths[..n] + [k] + paths[n..];
        rest := rest - {k};
      }
    }

    /** `save`: `last_indexed` is set to `now` before the outcome of opening
        the file is known, so it changes even when the save fails; the
        projects never change. On success the file holds this index. */
    method Save(now: int, openOk: bool, writeOk: bool, file: IndexFile)
      returns (r: Result<(), LoadError>, file': IndexFile)
      modifies this
      ensures lastIndexed == now && projects == old(projects)
      ensures r.Ok? <==> openOk && writeOk
      ensures !openOk ==> file' == file
      ensures openOk && !writeOk ==> file' == Malformed
      ensures r.Ok? && AllSharesFinite(projects) ==> Load(file') == Ok(IndexData(projects, now))
      ensures r.Ok? && !AllSharesFinite(projects) ==> Load(file') == Err(SerdeError)
    {
      lastIndexed := now;
      if !openOk {
        r, file' := Err(IoError), file;
      } else if !writeOk {
        r, file' := Err(SerdeError), Malformed;
      } else if !AllSharesFinite(projects) {
        // a share that is not a number is written as `null`, which does
        // not read back as an f32
        r, file' := Ok(()), Malformed;
      } else {
        r, file' := Ok(()), Stored(projects, lastIndexed);
      }
    }
  }
}
