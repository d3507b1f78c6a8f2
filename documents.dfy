/** What `search.rs` and `index.rs` share: reading one entry of the stored
    index with the defaults both apply, the weighted text they build, the
    search model they feed (only the documents it is given: its scoring
    is not part of this model) and the file the model is saved to. */
module Documents {
  import opened Wrappers
  import opened Values

  /** One `add_document` call: the document's path, its time and its
      text. */
  datatype Document = Document(path: string, time: int, content: seq<char>)

  /** `s` written `k` times, with nothing between the copies. */
  function Repeat(s: string, k: nat): string
  {
    if k == 0 then [] else Repeat(s, k - 1) + s
  }

  lemma {:induction false} RepeatLength(s: string, k: nat)
    ensures |Repeat(s, k)| == k * |s|
  {
    if k > 0 {
      RepeatLength(s, k - 1);
      assert k * |s| == (k - 1) * |s| + |s|;
    }
  }

  /** Every copy is whole: copy `j` of `s` sits at `j * |s|`. */
  lemma {:induction false} RepeatCopies(s: string, k: nat, j: nat)
    requires j < k
    ensures (j + 1) * |s| <= |Repeat(s, k)|
    ensures Repeat(s, k)[j * |s| .. (j + 1) * |s|] == s
  {
    RepeatLength(s, k);
    RepeatLength(s, k - 1);
    assert k * |s| == (k - 1) * |s| + |s|;
    if j < k - 1 {
      RepeatCopies(s, k - 1, j);
      assert j * |s| <= (j + 1) * |s| <= (k - 1) * |s| by {
        assert (k - 1) * |s| - (j + 1) * |s| == (k - 2 - j) * |s|;
      }
      assert Repeat(s, k)[j * |s| .. (j + 1) * |s|] == Repeat(s, k - 1)[j * |s| .. (j + 1) * |s|];
    } else {
      assert j * |s| == (k - 1) * |s|;
      assert (j + 1) * |s| == k * |s|;
    }
  }

  /** `c` holds `k` copies of `s`, one after the other, from `start` on. */
  ghost predicate CopiesAt(c: string, start: nat, s: string, k: nat)
  {
    forall j :: 0 <= j < k ==>
      start + j * |s| + |s| <= |c| && c[start + j * |s| .. start + j * |s| + |s|] == s
  }

  /** The same, for a repetition written between other text. */
  lemma RepeatCopiesAt(prefix: string, s: string, k: nat, suffix: string)
    ensures |prefix + Repeat(s, k) + suffix| == |prefix| + k * |s| + |suffix|
    ensures CopiesAt(prefix + Repeat(s, k) + suffix, |prefix|, s, k)
  {
    RepeatLength(s, k);
    var r := Repeat(s, k);
    var text := prefix + r + suffix;
    forall j | 0 <= j < k
      ensures |prefix| + j * |s| + |s| <= |text|
      ensures text[|prefix| + j * |s| .. |prefix| + j * |s| + |s|] == s
    {
      RepeatCopies(s, k, j);
      assert (j + 1) * |s| == j * |s| + |s|;
      assert text[|prefix| + j * |s| .. |prefix| + j * |s| + |s|] == r[j * |s| .. (j + 1) * |s|];
    }
  }

  /** A text field that may be missing or null (`project_type`,
      `description`): those read as "", a string as itself, and anything
      else makes `as_str().unwrap()` panic. */
  function OptionalText(entry: Value, key: string): (r: Outcome<string>)
    ensures Get(entry, key).None? || Get(entry, key) == Some(Null) ==> r == Returned("")
    ensures r.Returned? && r.value != "" ==> Get(entry, key) == Some(Str(r.value))
    ensures forall s :: Get(entry, key) == Some(Str(s)) ==> r == Returned(s)
    ensures r.Panicked? <==> Get(entry, key).Some? && !Get(entry, key).value.Null? && !Get(entry, key).value.Str?
  {
    match Get(entry, key)
    case None => Returned("")
    case Some(Null) => Returned("")
    case Some(Str(s)) => Returned(s)
    case Some(_) => Panicked
  }

  /** The `name` field: it must be present and a string. */
  function RequiredName(entry: Value): (r: Outcome<string>)
    ensures r.Returned? <==> Get(entry, "name").Some? && Get(entry, "name").value.Str?
    ensures r.Returned? ==> Get(entry, "name") == Some(Str(r.value))
  {
    match Get(entry, "name")
    case Some(Str(s)) => Returned(s)
    case _ => Panicked
  }

  /** The contents of the `documentation_file`: missing or null reads as
      "", so does a file that cannot be read (`readable` holds the
      contents of the files that can); a value that is not a string
      panics. */
  function DocContents(entry: Value, readable: map<string, string>): (r: Outcome<string>)
    ensures Get(entry, "documentation_file").None? || Get(entry, "documentation_file") == Some(Null) ==> r == Returned("")
    ensures forall f :: Get(entry, "documentation_file") == Some(Str(f)) ==>
              r == Returned(if f in readable then readable[f] else "")
    ensures r.Panicked? <==> (Get(entry, "documentation_file").Some? &&
                             !Get(entry, "documentation_file").value.Null? &&
                             !Get(entry, "documentation_file").value.Str?)
  {
    match Get(entry, "documentation_file")
    case None => Returned("")
    case Some(Null) => Returned("")
    case Some(Str(f)) => Returned(if f in readable then readable[f] else "")
    case Some(_) => Panicked
  }

  const U64Limit: int := 0x1_0000_0000_0000_0000

  /** The `last_modified` check: a present, non-null value must hold a
      `secs_since_epoch` that fits a u64, or `unwrap` panics. The value
      itself is discarded. */
  predicate ModifiedReadable(entry: Value)
  {
    match Get(entry, "last_modified")
    case None => true
    case Some(Null) => true
    case Some(m) =>
      var secs := Get(m, "secs_since_epoch");
      secs.Some? && secs.value.Num? && 0 <= secs.value.n < U64Limit
  }

  /** `index.json` as both programs find it: not openable, or opened and
      parsed (None when it is not JSON). */
  datatype IndexJson = NotOpenable | Opened(parsed: Option<Value>)

  /** The entries of the stored index's `projects` object. A file that
      cannot be opened gives none (the programs then do nothing); malformed
      JSON, a missing `projects` or one that is not an object panics. */
  function ProjectEntries(file: IndexJson): (r: Outcome<Option<seq<(string, Value)>>>)
    ensures file.NotOpenable? <==> r == Returned(None)
    ensures file == Opened(None) ==> r.Panicked?
    ensures r.Returned? && r.value.Some? ==>
              file.Opened? && file.parsed.Some? && Get(file.parsed.value, "projects") == Some(Obj(r.value.value))
    ensures forall json, ms :: file == Opened(Some(json)) && Get(json, "projects") == Some(Obj(ms)) ==>
              r == Returned(Some(ms))
    ensures (file.Opened? && file.parsed.Some? &&
             (Get(file.parsed.value, "projects").None? || !Get(file.parsed.value, "projects").value.Obj?))
            ==> r.Panicked?
  {
    match file
    case NotOpenable => Returned(None)
    case Opened(None) => Panicked
    case Opened(Some(json)) =>
      match Get(json, "projects")
      case Some(Obj(members)) => Returned(Some(members))
      case _ => Panicked
  }

  /** One document per entry, in order, unless some entry panics. */
  function AllDocuments(entries: seq<(string, Value)>, build: (string, Value) -> Outcome<Document>)
    : (r: Outcome<seq<Document>>)
    ensures r.Returned? <==> forall i :: 0 <= i < |entries| ==> build(entries[i].0, entries[i].1).Returned?
    ensures r.Returned? ==> |r.value| == |entries|
    ensures r.Returned? ==> forall i :: 0 <= i < |entries| ==> r.value[i] == build(entries[i].0, entries[i].1).value
  {
    if entries == [] then Returned([])
    else
      var init := entries[..|entries| - 1];
      var last := entries[|entries| - 1];
      var before := AllDocuments(init, build);
      var doc := build(last.0, last.1);
      assert forall i :: 0 <= i < |init| ==> init[i] == entries[i];
      if before.Panicked? || doc.Panicked? then Panicked else Returned(before.value + [doc.value])
  }

  /** The search model, as far as these programs use it: it records what
      it is given. */
  class Model {
    var documents: seq<Document>

    /** `Model::default`. */
    constructor Default()
      ensures documents == []
    {
      documents := [];
    }

    /** `add_document`: one more document, the earlier ones untouched. */
    method AddDocument(path: string, time: int, content: seq<char>)
      modifies this
      ensures documents == old(documents) + [Document(path, time, content)]
    {
      documents := documents + [Document(path, time, content)];
    }
  }

  /** `search-index.json`: absent, present but not openable, holding
      something that does not deserialise, or holding a model. */
  datatype ModelFile = Absent | Unopenable | Malformed | Saved(documents: seq<Document>)

  /** `save_model_as_json`: creating the file may fail (the file is then
      left as it was) and a write that `to_writer` reports may fail (the
      file is then truncated or partly written). What the `BufWriter` still
      holds is flushed when it is dropped, and an error there is discarded:
      the call then returns Ok although the file does not load. */
  function SaveModel(documents: seq<Document>, createOk: bool, writeOk: bool, flushOk: bool, file: ModelFile)
    : (r: (Result<(), ()>, ModelFile))
    ensures r.0.Ok? <==> createOk && writeOk
    ensures !createOk ==> r.1 == file
    ensures createOk && (!writeOk || !flushOk) ==> r.1 == Malformed
    ensures createOk ==> (LoadModel(r.1) == Ok(documents) <==> writeOk && flushOk)
  {
    if !createOk then (Err(()), file)
    else if !writeOk then (Err(()), Malformed)
    else if !flushOk then (Ok(()), Malformed)
    else (Ok(()), Saved(documents))
  }

  function LoadModel(file: ModelFile): (r: Result<seq<Document>, ()>)
    ensures r.Ok? <==> file.Saved?
    ensures file.Absent? ==> r == Err(())
    ensures r.Ok? ==> r.value == file.documents
  {
    match file
    case Saved(ds) => Ok(ds)
    case _ => Err(())
  }
}
