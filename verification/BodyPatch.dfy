/** The JSON patch of a rewrite_body action: dotted paths set in sorted order. */
module BodyPatch {
  import opened Json
  import opened JsonUtil
  import opened Options
  import opened Seqs
  import opened SetPath
  import opened Sorting
  import opened Text

  function Segs(path: string): seq<string> {
    Split(path, '.')
  }

  /** The paths set one after the other; an empty path fails. */
  function SetAll(doc: Value, paths: seq<string>, patch: map<string, Value>): Result
    requires forall p :: p in paths ==> p in patch
  {
    if paths == [] then Ok(doc)
    else
      var p := Last(paths);
      assert p in paths && forall q :: q in Front(paths) ==> q in paths;
      match SetAll(doc, Front(paths), patch)
      case Err(e) => Err(e)
      case Ok(d) => if TrimSpace(p) == "" then Err(EmptyPath) else Set(d, Segs(p), patch[p])
  }

  /** An empty body counts as an empty object. */
  function Document(lib: Library, data: string): Option<Value> {
    if TrimSpace(data) == "" then Some(Object(map[])) else lib.decode(data)
  }

  method JsonPatch(lib: Library, data: string, patch: map<string, Value>) returns (r: Result)
    ensures Document(lib, data).None? ==> r == Err(NotJson)
    ensures (forall p :: p in SortedStrings(patch.Keys) ==> p in patch)
    ensures Document(lib, data).Some? ==> r == SetAll(Document(lib, data).value, SortedStrings(patch.Keys), patch)
    ensures TrimSpace(data) == "" ==> r == SetAll(Object(map[]), SortedStrings(patch.Keys), patch)
    ensures TrimSpace(data) != "" && lib.decode(data).None? ==> r == Err(NotJson)
  {
    SortedStringsList(patch.Keys);
    var doc;
    if TrimSpace(data) == "" {
      doc := Object(map[]);
    } else {
      var decoded := lib.decode(data);
      if decoded.None? { return Err(NotJson); }
      doc := decoded.value;
    }
    var paths := SortStrings(patch.Keys);
    ghost var start := doc;
    TakeAll(paths);
    for k := 0 to |paths|
      invariant (forall p :: p in paths[..k] ==> p in patch) && SetAll(start, paths[..k], patch) == Ok(doc)
    {
      var p := paths[k];
      assert p in paths;
      TakeSnoc(paths, k);
      FrontLastSnoc(paths[..k], p);
      var next := if TrimSpace(p) == "" then Err(EmptyPath) else Set(doc, Split(p, '.'), patch[p]);
      if next.Err? {
        FailureStays(start, paths, k + 1, patch);
        return next;
      }
      doc := next.value;
    }
    return Ok(doc);
  }

  /** Once a path has failed, the patch has. */
  lemma {:induction false} FailureStays(doc: Value, paths: seq<string>, k: nat, patch: map<string, Value>)
    requires (forall p :: p in paths ==> p in patch) && k <= |paths|
    requires (forall p :: p in paths[..k] ==> p in patch) && SetAll(doc, paths[..k], patch).Err?
    ensures SetAll(doc, paths, patch) == SetAll(doc, paths[..k], patch)
  {
    if k < |paths| {
      FrontTake(paths, k);
      FailureStays(doc, Front(paths), k, patch);
    } else {
      TakeAll(paths);
    }
  }

  /** A patch that fails does so at a path that is blank, or that cannot be set in what the
      paths before it made of the document. */
  lemma {:induction false} PatchFails(doc: Value, paths: seq<string>, patch: map<string, Value>) returns (k: nat)
    requires (forall p :: p in paths ==> p in patch) && SetAll(doc, paths, patch).Err?
    ensures k < |paths| && (forall p :: p in paths[..k] ==> p in patch) && SetAll(doc, paths[..k], patch).Ok?
    ensures SetAll(doc, paths, patch)
         == if TrimSpace(paths[k]) == "" then Err(EmptyPath)
            else Set(SetAll(doc, paths[..k], patch).value, Split(paths[k], '.'), patch[paths[k]])
  {
    assert forall q :: q in Front(paths) ==> q in paths;
    if SetAll(doc, Front(paths), patch).Err? {
      k := PatchFails(doc, Front(paths), patch);
      FrontTake(paths, k);
    } else {
      k := |paths| - 1;
      assert paths[..k] == Front(paths);
    }
  }

  /** A patch with a blank path fails. */
  lemma {:induction false} BlankPathFails(doc: Value, paths: seq<string>, patch: map<string, Value>, k: nat)
    requires (forall p :: p in paths ==> p in patch) && k < |paths| && TrimSpace(paths[k]) == ""
    ensures SetAll(doc, paths, patch).Err?
  {
    assert forall q :: q in Front(paths) ==> q in paths;
    if k < |paths| - 1 {
      BlankPathFails(doc, Front(paths), patch, k);
    }
  }

  // ---- What a patch does -------------------------------------------------------------

  /** Paths that part at segments which are neither the same key nor the same index. */
  predicate Apart(a: seq<string>, b: seq<string>)
    decreases |a|
  {
    && a != [] && b != []
    && (if a[0] == b[0] then Apart(a[1..], b[1..]) else Atoi(a[0]).None? || Atoi(a[0]) != Atoi(b[0]))
  }

  /** Such paths diverge in any document. */
  lemma {:induction false} ApartDiverge(node: Value, a: seq<string>, b: seq<string>)
    requires Apart(a, b)
    ensures Diverge(node, a, b)
    decreases |a|
  {
    if a[0] == b[0] {
      ApartDiverge(Child(node, a[0]), a[1..], b[1..]);
    }
  }

  predicate ApartFromAll(paths: seq<string>, q: seq<string>) {
    paths == [] || (ApartFromAll(Front(paths), q) && Apart(Segs(Last(paths)), q))
  }

  /** No path of a patch touches another. */
  predicate Independent(paths: seq<string>) {
    paths == [] || (Independent(Front(paths)) && Untouched(Front(paths), Segs(Last(paths))))
  }

  predicate Untouched(paths: seq<string>, q: seq<string>) {
    paths == [] || (Untouched(Front(paths), q) && Apart(q, Segs(Last(paths))))
  }

  /** A path apart from all those set reads as before. */
  lemma {:induction false} ElsewhereAsBefore(doc: Value, paths: seq<string>, patch: map<string, Value>, q: seq<string>)
    requires (forall p :: p in paths ==> p in patch) && SetAll(doc, paths, patch).Ok? && ApartFromAll(paths, q)
    ensures Get(SetAll(doc, paths, patch).value, q) == Get(doc, q)
  {
    if paths != [] {
      var p := Last(paths);
      assert p in paths && forall r :: r in Front(paths) ==> r in paths;
      ElsewhereAsBefore(doc, Front(paths), patch, q);
      var d := SetAll(doc, Front(paths), patch).value;
      ApartDiverge(d, Segs(p), q);
      SetElsewhere(d, Segs(p), patch[p], q);
    }
  }

  lemma {:induction false} UntouchedAt(paths: seq<string>, q: seq<string>, k: nat)
    requires Untouched(paths, q) && k < |paths|
    ensures Apart(q, Segs(paths[k]))
  {
    if k < |paths| - 1 {
      UntouchedAt(Front(paths), q, k);
    }
  }

  /** After a patch whose paths do not touch each other, every path reads what it was set to. */
  lemma {:induction false} PatchReadsBack(doc: Value, paths: seq<string>, patch: map<string, Value>, k: nat)
    requires (forall p :: p in paths ==> p in patch) && SetAll(doc, paths, patch).Ok?
    requires Independent(paths) && k < |paths|
    ensures Get(SetAll(doc, paths, patch).value, Segs(paths[k])) == Some(patch[paths[k]])
  {
    var p := Last(paths);
    assert p in paths && forall r :: r in Front(paths) ==> r in paths;
    var d := SetAll(doc, Front(paths), patch).value;
    if k == |paths| - 1 {
      SetGet(d, Segs(p), patch[p], []);
      EmptyUnit(Segs(p));
    } else {
      PatchReadsBack(doc, Front(paths), patch, k);
      UntouchedAt(Front(paths), Segs(p), k);
      ApartDiverge(d, Segs(p), Segs(paths[k]));
      SetElsewhere(d, Segs(p), patch[p], Segs(paths[k]));
    }
  }
}
