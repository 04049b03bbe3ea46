/** The language server's workspace part (`language_server/common/parts/workspace.py`):
    the workspace folder list and its updates, the folder that contains a
    document, the dotted settings lookup used when the client cannot be asked,
    the merge of `willCreateFiles` handler results and the normalisation of
    file watchers. Whether one path lies under another is passed in as
    `relative`. */
module Workspace {
  import opened Wrappers
  import opened JsonValue
  import opened Text

  /** A workspace folder; folders are compared by identity, as Python does
      for objects without `__eq__`. */
  class WorkspaceFolder {
    const name: string
    const uri: string
    const documentUri: string

    constructor (name: string, uri: string)
      ensures this.name == name && this.uri == uri && this.documentUri == uri
    {
      this.name := name;
      this.uri := uri;
      this.documentUri := uri;
    }
  }

  /** A folder as the client announces it. */
  datatype FolderSpec = FolderSpec(name: string, uri: string)

  function UrisOf(specs: seq<FolderSpec>): (r: seq<string>)
    ensures |r| == |specs| && forall i :: 0 <= i < |specs| ==> r[i] == specs[i].uri
  {
    if specs == [] then [] else UrisOf(specs[..|specs| - 1]) + [specs[|specs| - 1].uri]
  }

  /** `[w for w in folders if w.uri == uri]`. */
  function Matching(folders: seq<WorkspaceFolder>, uri: string): (r: seq<WorkspaceFolder>)
    ensures forall i :: 0 <= i < |r| ==> r[i] in folders && r[i].uri == uri
    ensures forall i :: 0 <= i < |folders| && folders[i].uri == uri ==> folders[i] in r
  {
    if folders == [] then []
    else
      var rest := Matching(folders[..|folders| - 1], uri);
      var last := folders[|folders| - 1];
      if last.uri == uri then rest + [last] else rest
  }

  /** The folders `to_remove` collects: the matches of each uri in turn. */
  function ToRemove(folders: seq<WorkspaceFolder>, uris: seq<string>): seq<WorkspaceFolder> {
    if uris == [] then [] else ToRemove(folders, uris[..|uris| - 1]) + Matching(folders, uris[|uris| - 1])
  }

  /** `list.remove`: drops the first occurrence. */
  function RemoveFirst(folders: seq<WorkspaceFolder>, r: WorkspaceFolder): (s: seq<WorkspaceFolder>)
    requires r in folders
    ensures |s| == |folders| - 1
    ensures forall i :: 0 <= i < |folders| && folders[i] != r ==> folders[i] in s
    ensures forall i :: 0 <= i < |s| ==> s[i] in folders
    ensures multiset(s) == multiset(folders) - multiset{r}
  {
    assert folders == [folders[0]] + folders[1..];
    if folders[0] == r then folders[1..]
    else
      assert r in folders[1..];
      [folders[0]] + RemoveFirst(folders[1..], r)
  }

  /** Removing each folder in turn; the result says whether every removal
      found its folder, and the list is as it was when one did not. */
  function RemoveEach(folders: seq<WorkspaceFolder>, rs: seq<WorkspaceFolder>): (seq<WorkspaceFolder>, bool) {
    if rs == [] then (folders, true)
    else
      var (p, ok) := RemoveEach(folders, rs[..|rs| - 1]);
      var r := rs[|rs| - 1];
      if !ok then (p, false) else if r in p then (RemoveFirst(p, r), true) else (p, false)
  }

  /** The folders whose uri is not among `uris`, in order. */
  function Kept(folders: seq<WorkspaceFolder>, uris: seq<string>): (r: seq<WorkspaceFolder>)
    ensures |r| <= |folders|
    ensures forall i :: 0 <= i < |r| ==> r[i] in folders && r[i].uri !in uris
    ensures forall i :: 0 <= i < |folders| && folders[i].uri !in uris ==> folders[i] in r
  {
    if folders == [] then []
    else
      var rest := Kept(folders[..|folders| - 1], uris);
      var last := folders[|folders| - 1];
      if last.uri !in uris then rest + [last] else rest
  }

  /** `folders` is `base` followed by new folders for `added`, in order. */
  ghost predicate Appended(folders: seq<WorkspaceFolder>, base: seq<WorkspaceFolder>, added: seq<FolderSpec>) {
    && |folders| == |base| + |added|
    && folders[..|base|] == base
    && forall i :: 0 <= i < |added| ==>
         folders[|base| + i].name == added[i].name && folders[|base| + i].uri == added[i].uri
  }

  const ValueError := "list.remove(x): x not in list"

  /** The dotted settings walk: a missing key gives `{}` at once; Python's
      `in` on a string tests for a substring and on a list for an element,
      and a hit on either then fails in `.get`; `in` on anything else fails. */
  function Lookup(value: Json, keys: seq<string>): Result<Json, string> {
    if keys == [] then Success(value)
    else
      var k := keys[0];
      match value
      case JObject(m) => if k in m then Lookup(m[k], keys[1..]) else Success(JObject(map[]))
      case JString(s) => if IsSubstring(k, s) then Failure("AttributeError") else Success(JObject(map[]))
      case JArray(items) => if JString(k) in items then Failure("AttributeError") else Success(JObject(map[]))
      case _ => Failure("TypeError")
  }

  predicate IsSubstring(k: string, s: string) {
    exists i, j :: 0 <= i <= j <= |s| && s[i..j] == k
  }

  /** Walking `a` then `b` is walking `a + b`: a missing key gives `{}`,
      and every further key is missing from `{}`. */
  lemma {:induction false} LookupAppend(value: Json, a: seq<string>, b: seq<string>)
    ensures Lookup(value, a + b) ==
      (match Lookup(value, a) case Success(w) => Lookup(w, b) case Failure(e) => Failure(e))
  {
    if a == [] {
      assert a + b == b;
    } else {
      assert (a + b)[0] == a[0] && (a + b)[1..] == a[1..] + b;
      match value
      case JObject(m) =>
        if a[0] in m {
          LookupAppend(m[a[0]], a[1..], b);
        } else if b != [] {
          assert Lookup(JObject(map[]), b) == Success(JObject(map[]));
        }
      case _ =>
        if b != [] {
          assert Lookup(JObject(map[]), b) == Success(JObject(map[]));
        }
    }
  }

  /** The settings `{k0: {k1: ... value}}`. */
  function Nest(keys: seq<string>, value: Json): Json {
    if keys == [] then value else JObject(map[keys[0] := Nest(keys[1..], value)])
  }

  /** Walking the keys a value was nested under gives the value back. */
  lemma {:induction false} LookupNest(keys: seq<string>, value: Json)
    ensures Lookup(Nest(keys, value), keys) == Success(value)
  {
    if keys != [] {
      LookupNest(keys[1..], value);
    }
  }

  /** A `willCreateFiles` handler result. */
  datatype TextEdit = TextEdit(startLine: int, startCharacter: int, endLine: int, endCharacter: int, newText: string)

  datatype CreateResult =
    | NoEdits
    | Edits(changes: map<string, seq<TextEdit>>)
    | NotMapping

  /** The mapping results merged in order, later keys overriding earlier ones. */
  function Merged(results: seq<CreateResult>): map<string, seq<TextEdit>> {
    if results == [] then map[]
    else
      var last := results[|results| - 1];
      var rest := Merged(results[..|results| - 1]);
      if last.Edits? then rest + last.changes else rest
  }

  /** `results[i]` is the last mapping result that has `key`. */
  predicate LastWith(results: seq<CreateResult>, key: string, i: int) {
    && 0 <= i < |results| && results[i].Edits? && key in results[i].changes
    && forall j :: i < j < |results| && results[j].Edits? ==> key !in results[j].changes
  }

  /** A key of the merge comes from the last mapping result that has it. */
  lemma {:induction false} MergedTakesLast(results: seq<CreateResult>, key: string)
    ensures key in Merged(results) <==> exists i :: 0 <= i < |results| && results[i].Edits? && key in results[i].changes
    ensures forall i :: LastWith(results, key, i) ==> Merged(results)[key] == results[i].changes[key]
  {
    if results != [] {
      var init := results[..|results| - 1];
      MergedTakesLast(init, key);
      assert forall i :: 0 <= i < |init| ==> init[i] == results[i];
      var n := |results| - 1;
      if results[n].Edits? && key in results[n].changes {
      } else {
        assert (exists i :: 0 <= i < |results| && results[i].Edits? && key in results[i].changes)
          ==> (exists i :: 0 <= i < |init| && init[i].Edits? && key in init[i].changes);
      }
    }
  }

  /** `_workspace_will_create_files`: nothing when no handler answered,
      otherwise the merged changes. */
  method WillCreateFiles(results: seq<CreateResult>) returns (r: Option<map<string, seq<TextEdit>>>)
    ensures results == [] <==> r.None?
    ensures r.Some? ==> r.value == Merged(results)
  {
    if |results| == 0 {
      return None;
    }
    var result: map<string, seq<TextEdit>> := map[];
    var i := 0;
    while i < |results|
      invariant i <= |results|
      invariant result == Merged(results[..i])
    {
      assert results[..i + 1][..i] == results[..i];
      if results[i].Edits? {
        result := result + results[i].changes;
      }
      i := i + 1;
    }
    assert results[..i] == results;
    return Some(result);
  }

  /** A file watcher and the three forms `add_file_watchers` accepts. */
  datatype FileWatcher = FileWatcher(globPattern: string, kind: Option<int>)

  datatype WatcherSpec =
    | AsWatcher(watcher: FileWatcher)
    | AsPattern(pattern: string)
    | AsTuple(pattern: string, kind: Option<int>)

  function Normalise(e: WatcherSpec): (w: FileWatcher)
    ensures e.AsWatcher? ==> w == e.watcher
    ensures e.AsPattern? ==> w == FileWatcher(e.pattern, None)
    ensures e.AsTuple? ==> w == FileWatcher(e.pattern, e.kind)
  {
    match e
    case AsWatcher(watcher) => watcher
    case AsPattern(pattern) => FileWatcher(pattern, None)
    case AsTuple(pattern, kind) => FileWatcher(pattern, kind)
  }

  function NormaliseAll(es: seq<WatcherSpec>): (ws: seq<FileWatcher>)
    ensures |ws| == |es| && forall i :: 0 <= i < |es| ==> ws[i] == Normalise(es[i])
  {
    if es == [] then [] else [Normalise(es[0])] + NormaliseAll(es[1..])
  }

  function Wrap(ws: seq<FileWatcher>): (es: seq<WatcherSpec>)
    ensures |es| == |ws| && forall i :: 0 <= i < |ws| ==> es[i] == AsWatcher(ws[i])
  {
    if ws == [] then [] else [AsWatcher(ws[0])] + Wrap(ws[1..])
  }

  /** Normalised watchers pass through normalisation unchanged. */
  lemma NormaliseIdempotent(es: seq<WatcherSpec>)
    ensures NormaliseAll(Wrap(NormaliseAll(es))) == NormaliseAll(es)
  {
  }

  /** The index of the first folder with the longest uri among those that
      contain `uri` (`sorted(..., reverse=True)` is stable). */
  function Longest(folders: seq<WorkspaceFolder>, uri: string, relative: (string, string) -> bool): (r: Option<nat>)
    ensures r.None? <==> forall i :: 0 <= i < |folders| ==> !relative(uri, folders[i].uri)
    ensures r.Some? ==> r.value < |folders| && relative(uri, folders[r.value].uri)
    ensures r.Some? ==> forall i :: 0 <= i < |folders| && relative(uri, folders[i].uri) ==>
      |folders[i].uri| <= |folders[r.value].uri|
    ensures r.Some? ==> forall i :: 0 <= i < r.value && relative(uri, folders[i].uri) ==>
      |folders[i].uri| < |folders[r.value].uri|
  {
    if folders == [] then None
    else
      var rest := Longest(folders[1..], uri, relative);
      var head := folders[0];
      if relative(uri, head.uri) && (rest.None? || |head.uri| >= |folders[1..][rest.value].uri|) then Some(0)
      else if rest.Some? then Some(rest.value + 1)
      else None
  }

  class Workspace {
    var workspaceFolders: seq<WorkspaceFolder>
    var settings: map<string, Json>

    ghost predicate Valid()
      reads this
    {
      Distinct(workspaceFolders)
    }

    /** The folders the client starts with and empty settings. */
    constructor (folders: Option<seq<FolderSpec>>)
      ensures Valid()
      ensures Appended(workspaceFolders, [], if folders.Some? then folders.value else [])
      ensures settings == map[]
    {
      workspaceFolders := [];
      settings := map[];
      new;
      AppendFolders(if folders.Some? then folders.value else []);
    }

    /** Appends a new folder for each announced one. */
    method AppendFolders(added: seq<FolderSpec>)
      requires Valid()
      modifies this
      ensures Valid()
      ensures Appended(workspaceFolders, old(workspaceFolders), added)
      ensures settings == old(settings)
    {
      ghost var base := workspaceFolders;
      var i := 0;
      while i < |added|
        invariant i <= |added|
        invariant Valid()
        invariant Appended(workspaceFolders, base, added[..i])
        invariant settings == old(settings)
      {
        var folder := new WorkspaceFolder(added[i].name, added[i].uri);
        workspaceFolders := workspaceFolders + [folder];
        i := i + 1;
      }
      assert added[..i] == added;
    }

    /** `_workspace_did_change_workspace_folders` as written: the folders of
        each removed uri and then of each added uri are collected and removed
        one by one; a folder collected twice is no longer there the second
        time and `list.remove` raises, leaving the list half updated. */
    method ChangeWorkspaceFoldersAsWritten(removed: seq<string>, added: seq<FolderSpec>) returns (error: Option<string>)
      requires Valid()
      modifies this
      ensures Valid()
      ensures var (p, ok) := RemoveEach(old(workspaceFolders), ToRemove(old(workspaceFolders), removed + UrisOf(added)));
        && (ok ==> error.None? && Appended(workspaceFolders, p, added))
        && (!ok ==> error == Some(ValueError) && workspaceFolders == p)
      ensures settings == old(settings)
    {
      var uris := removed + UrisOf(added);
      var toRemove := CollectToRemove(uris);
      var ok := RemoveFolders(toRemove);
      if !ok {
        return Some(ValueError);
      }
      AppendFolders(added);
      error := None;
    }

    /** `to_remove`: the folders of each uri in turn. */
    method CollectToRemove(uris: seq<string>) returns (toRemove: seq<WorkspaceFolder>)
      ensures toRemove == ToRemove(workspaceFolders, uris)
    {
      toRemove := [];
      var i := 0;
      while i < |uris|
        invariant i <= |uris|
        invariant toRemove == ToRemove(workspaceFolders, uris[..i])
      {
        assert uris[..i + 1][..i] == uris[..i];
        toRemove := toRemove + Matching(workspaceFolders, uris[i]);
        i := i + 1;
      }
      assert uris[..i] == uris;
    }

    /** `self.workspace_folders.remove(r)` for each collected folder,
        stopping at the first that is no longer there. */
    method RemoveFolders(toRemove: seq<WorkspaceFolder>) returns (ok: bool)
      requires Valid()
      modifies this
      ensures Valid()
      ensures (workspaceFolders, ok) == RemoveEach(old(workspaceFolders), toRemove)
      ensures settings == old(settings)
    {
      ghost var folders := workspaceFolders;
      var j := 0;
      while j < |toRemove|
        invariant j <= |toRemove|
        invariant Valid()
        invariant RemoveEach(folders, toRemove[..j]) == (workspaceFolders, true)
        invariant settings == old(settings)
      {
        assert toRemove[..j + 1][..j] == toRemove[..j];
        var r := toRemove[j];
        if r !in workspaceFolders {
          assert RemoveEach(folders, toRemove[..j + 1]) == (workspaceFolders, false);
          RemoveEachStops(folders, toRemove, j + 1);
          return false;
        }
        RemoveFirstDistinct(workspaceFolders, r);
        workspaceFolders := RemoveFirst(workspaceFolders, r);
        j := j + 1;
      }
      assert toRemove[..j] == toRemove;
      return true;
    }

    /** `_workspace_did_change_workspace_folders` as evidently intended:
        every folder whose uri is removed or added is dropped, the others
        keep their order, and the added folders follow in order. */
    method ChangeWorkspaceFolders(removed: seq<string>, added: seq<FolderSpec>)
      requires Valid()
      modifies this
      ensures Valid()
      ensures Appended(workspaceFolders, Kept(old(workspaceFolders), removed + UrisOf(added)), added)
      ensures settings == old(settings)
    {
      var uris := removed + UrisOf(added);
      var kept := [];
      var i := 0;
      while i < |workspaceFolders|
        invariant i <= |workspaceFolders|
        invariant kept == Kept(workspaceFolders[..i], uris)
        invariant Distinct(kept)
        invariant forall k :: 0 <= k < |kept| ==> kept[k] in workspaceFolders[..i]
      {
        assert workspaceFolders[..i + 1][..i] == workspaceFolders[..i];
        if workspaceFolders[i].uri !in uris {
          kept := kept + [workspaceFolders[i]];
        }
        i := i + 1;
      }
      assert workspaceFolders[..i] == workspaceFolders;
      workspaceFolders := kept;
      AppendFolders(added);
    }

    /** `get_workspace_folder`. */
    function GetWorkspaceFolder(uri: string, relative: (string, string) -> bool): (r: Option<WorkspaceFolder>)
      reads this
      ensures r.None? <==> forall i :: 0 <= i < |workspaceFolders| ==> !relative(uri, workspaceFolders[i].uri)
      ensures r.Some? ==> r.value in workspaceFolders && relative(uri, r.value.uri)
      ensures r.Some? ==> forall i :: 0 <= i < |workspaceFolders| && relative(uri, workspaceFolders[i].uri) ==>
        |workspaceFolders[i].uri| <= |r.value.uri|
      ensures r.Some? ==>
        exists k :: 0 <= k < |workspaceFolders| && workspaceFolders[k] == r.value
          && forall i :: 0 <= i < k && relative(uri, workspaceFolders[i].uri) ==> |workspaceFolders[i].uri| < |r.value.uri|
    {
      var i := Longest(workspaceFolders, uri, relative);
      if i.Some? then Some(workspaceFolders[i.value]) else None
    }

    /** The settings fallback of `get_configuration`. */
    method GetConfiguration(section: string) returns (r: Result<Json, string>)
      ensures r == Lookup(JObject(settings), Split(section, '.'))
    {
      var keys := Split(section, '.');
      var result := JObject(settings);
      var i := 0;
      while i < |keys|
        invariant i <= |keys|
        invariant Lookup(JObject(settings), keys) == Lookup(result, keys[i..])
      {
        var k := keys[i];
        assert keys[i..][0] == k && keys[i..][1..] == keys[i + 1..];
        match result {
        case JObject(m) =>
          if k in m {
            result := m[k];
          } else {
            return Success(JObject(map[]));
          }
        case JString(s) =>
          if IsSubstring(k, s) {
            return Failure("AttributeError");
          }
          return Success(JObject(map[]));
        case JArray(items) =>
          if JString(k) in items {
            return Failure("AttributeError");
          }
          return Success(JObject(map[]));
        case _ =>
          return Failure("TypeError");
        }
        i := i + 1;
      }
      assert keys[i..] == [];
      return Success(result);
    }
  }

  /** Once a removal fails, the later ones change nothing. */
  lemma {:induction false} RemoveEachStops(folders: seq<WorkspaceFolder>, rs: seq<WorkspaceFolder>, n: nat)
    requires n <= |rs|
    requires !RemoveEach(folders, rs[..n]).1
    ensures RemoveEach(folders, rs) == RemoveEach(folders, rs[..n])
    decreases |rs|
  {
    if n < |rs| {
      assert rs[..|rs| - 1][..n] == rs[..n];
      RemoveEachStops(folders, rs[..|rs| - 1], n);
    } else {
      assert rs[..n] == rs;
    }
  }

  /** No kept folder has a removed or added uri, so an added uri names only
      the new folder: it replaces rather than duplicates. */
  lemma KeptDropsAnnounced(folders: seq<WorkspaceFolder>, removed: seq<string>, added: seq<FolderSpec>)
    ensures var kept := Kept(folders, removed + UrisOf(added));
      forall k :: 0 <= k < |kept| ==> kept[k].uri !in removed
    ensures var kept := Kept(folders, removed + UrisOf(added));
      forall k, i :: 0 <= k < |kept| && 0 <= i < |added| ==> kept[k].uri != added[i].uri
  {
    var uris := removed + UrisOf(added);
    var kept := Kept(folders, uris);
    forall k, i | 0 <= k < |kept| && 0 <= i < |added|
      ensures kept[k].uri != added[i].uri
    {
      assert UrisOf(added)[i] == added[i].uri;
      assert uris[|removed| + i] == added[i].uri;
    }
  }

  /** The kept folders keep their relative order. */
  lemma {:induction false} KeptAppend(a: seq<WorkspaceFolder>, b: seq<WorkspaceFolder>, uris: seq<string>)
    ensures Kept(a + b, uris) == Kept(a, uris) + Kept(b, uris)
    decreases |b|
  {
    if b == [] {
      assert a + b == a;
    } else {
      var b' := b[..|b| - 1];
      assert (a + b)[..|a + b| - 1] == a + b';
      KeptAppend(a, b', uris);
    }
  }

  /** No folder appears twice in the list. */
  predicate Distinct(folders: seq<WorkspaceFolder>) {
    forall i, j :: 0 <= i < j < |folders| ==> folders[i] != folders[j]
  }

  lemma {:induction false} DistinctOnce(folders: seq<WorkspaceFolder>, k: nat)
    requires Distinct(folders) && k < |folders|
    ensures multiset(folders)[folders[k]] == 1
  {
    var w := folders[k];
    var n := |folders| - 1;
    assert folders == folders[..n] + [folders[n]];
    assert Distinct(folders[..n]);
    if k < n {
      DistinctOnce(folders[..n], k);
    } else {
      assert w !in folders[..n];
    }
  }

  lemma {:induction false} RemoveFirstDistinct(folders: seq<WorkspaceFolder>, r: WorkspaceFolder)
    requires r in folders && Distinct(folders)
    ensures Distinct(RemoveFirst(folders, r))
  {
    if folders[0] != r {
      assert r in folders[1..];
      RemoveFirstDistinct(folders[1..], r);
    }
  }

  /** A removal sequence that succeeds takes out exactly the removed folders. */
  lemma {:induction false} RemoveEachCounts(folders: seq<WorkspaceFolder>, rs: seq<WorkspaceFolder>)
    ensures RemoveEach(folders, rs).1 ==> multiset(rs) <= multiset(folders)
    ensures RemoveEach(folders, rs).1 ==> multiset(RemoveEach(folders, rs).0) == multiset(folders) - multiset(rs)
  {
    if rs != [] {
      var init := rs[..|rs| - 1];
      RemoveEachCounts(folders, init);
      assert rs == init + [rs[|rs| - 1]];
    }
  }

  lemma {:induction false} ToRemoveHas(folders: seq<WorkspaceFolder>, uris: seq<string>, a: nat, w: WorkspaceFolder)
    requires a < |uris| && w in folders && w.uri == uris[a]
    ensures multiset(ToRemove(folders, uris))[w] >= 1
  {
    var n := |uris| - 1;
    assert uris[..n] + [uris[n]] == uris;
    if a < n {
      ToRemoveHas(folders, uris[..n], a, w);
    } else {
      assert w in Matching(folders, uris[n]);
    }
  }

  /** A uri named twice collects its folder twice. */
  lemma {:induction false} ToRemoveTwice(folders: seq<WorkspaceFolder>, uris: seq<string>, a: nat, b: nat, w: WorkspaceFolder)
    requires a < b < |uris| && w in folders && w.uri == uris[a] == uris[b]
    ensures multiset(ToRemove(folders, uris))[w] >= 2
  {
    var n := |uris| - 1;
    assert uris[..n] + [uris[n]] == uris;
    if b < n {
      ToRemoveTwice(folders, uris[..n], a, b, w);
    } else {
      ToRemoveHas(folders, uris[..n], a, w);
      assert w in Matching(folders, uris[n]);
    }
  }

  /** As written, a folder whose uri is both removed and re-added in one
      event is collected twice, and the second `list.remove` raises. */
  lemma ReannouncedFolderRaises(folders: seq<WorkspaceFolder>, removed: seq<string>, added: seq<FolderSpec>, k: nat, a: nat, b: nat)
    requires Distinct(folders) && k < |folders|
    requires a < |removed| && removed[a] == folders[k].uri
    requires b < |added| && added[b].uri == folders[k].uri
    ensures !RemoveEach(folders, ToRemove(folders, removed + UrisOf(added))).1
  {
    var uris := removed + UrisOf(added);
    var w := folders[k];
    assert uris[a] == w.uri && uris[|removed| + b] == w.uri;
    ToRemoveTwice(folders, uris, a, |removed| + b, w);
    DistinctOnce(folders, k);
    RemoveEachCounts(folders, ToRemove(folders, uris));
  }
}
