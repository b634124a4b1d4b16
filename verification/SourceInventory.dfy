// source_manifest as a whole: from git's two streams to the source inventory.
module SourceInventory {
  import opened Options
  import opened Text
  import opened SourceManifest
  import opened ObjectBatch

  const DOC_ROOT := "docs/bir/"
  const DOC_NAMES := {"README.md", "official-requirements.md", "system-description.md", "technical-matrix.md",
                      "registration-checklist.md", "profile.example.json", "version-control.md"}

  // One inventory entry. The SHA-256 of the source is an opaque identity of the content.
  datatype File = File(blob: string, content: string, size: nat, mode: string)

  datatype Manifest = Manifest(files: map<string, File>, docs: map<string, string>, versions: map<string, string>,
                               directories: seq<string>)

  // The component version in a file's bytes; None is a parser's refusal.
  type VersionReader = (string, string) -> Option<string>

  predicate EndsWith(s: string, suffix: string) {
    |suffix| <= |s| && s[|s| - |suffix|..] == suffix
  }

  predicate IsVersionFile(path: string) {
    EndsWith(path, "pyproject.toml") || path == "package.json" || path == "gilbic_mobile/pubspec.yaml"
  }

  function TotalSize(entries: seq<Entry>): nat {
    if entries == [] then 0 else TotalSize(entries[..|entries| - 1]) + entries[|entries| - 1].size
  }

  predicate WithinBounds(entries: seq<Entry>) {
    0 < |entries| <= MAX_ENTRIES && TotalSize(entries) <= MAX_SOURCE
  }

  function FileOf(e: Entry, data: string): File {
    File(e.oid, data, e.size, e.mode)
  }

  function Inventory(entries: seq<Entry>, datas: seq<string>): map<string, File>
    requires |datas| == |entries|
  {
    if entries == [] then map[]
    else
      var n := |entries| - 1;
      Inventory(entries[..n], datas[..n])[entries[n].path := FileOf(entries[n], datas[n])]
  }

  predicate IsDoc(path: string) {
    DOC_ROOT <= path && path[|DOC_ROOT|..] in DOC_NAMES
  }

  function DocName(path: string): string
    requires IsDoc(path)
  {
    path[|DOC_ROOT|..]
  }

  function Docs(entries: seq<Entry>, datas: seq<string>): map<string, string>
    requires |datas| == |entries|
  {
    if entries == [] then map[]
    else
      var n := |entries| - 1;
      var docs := Docs(entries[..n], datas[..n]);
      if IsDoc(entries[n].path) then docs[DocName(entries[n].path) := datas[n]] else docs
  }

  // The versions found; None if one of them cannot be read.
  function Versions(entries: seq<Entry>, datas: seq<string>, version: VersionReader): Option<map<string, string>>
    requires |datas| == |entries|
  {
    if entries == [] then Some(map[])
    else
      var n := |entries| - 1;
      AddVersion(Versions(entries[..n], datas[..n], version), entries[n].path, datas[n], version)
  }

  function AddVersion(found: Option<map<string, string>>, path: string, data: string, version: VersionReader): Option<map<string, string>> {
    if found.None? || !IsVersionFile(path) then found
    else
      var v := version(path, data);
      if v.None? then None else Some(found.value[path := v.value])
  }

  // The manifest for git's two streams; None is a refusal.
  function ManifestOf(listing: string, raw: string, version: VersionReader): Option<Manifest> {
    var read := ReadRecords(Split(listing, NUL));
    if read.None? || !WithinBounds(read.value.entries) then None
    else
      var entries := read.value.entries;
      var datas := ReadFrom(raw, 0, entries);
      if datas.None? || Versions(entries, datas.value, version).None? then None
      else
        var docs := Docs(entries, datas.value);
        if docs.Keys != DOC_NAMES then None
        else Some(Manifest(Inventory(entries, datas.value), docs, Versions(entries, datas.value, version).value,
                           read.value.directories))
  }

  function Prepend(datas: seq<string>, rest: Option<seq<string>>): Option<seq<string>> {
    if rest.None? then None else Some(datas + rest.value)
  }

  method BuildManifest(listing: string, raw: string, version: VersionReader) returns (manifest: Option<Manifest>)
    ensures manifest == ManifestOf(listing, raw, version)
  {
    hide ReadRecords, Split, ReadFrom, Inventory, Docs, Versions;
    var read := ReadListing(listing);
    if read.None? || !WithinBounds(read.value.entries) { return None; }
    var entries := read.value.entries;
    var files, docs, versions := ReadObjects(raw, entries, version);
    if files.None? || docs.Keys != DOC_NAMES { return None; }
    return Some(Manifest(files.value, docs, versions, read.value.directories));
  }

  // What the loop has filled after reading datas for the entries.
  ghost predicate Filled(entries: seq<Entry>, datas: seq<string>, version: VersionReader, files: map<string, File>,
                         docs: map<string, string>, versions: map<string, string>)
    requires |datas| == |entries|
  {
    files == Inventory(entries, datas) && docs == Docs(entries, datas) && Versions(entries, datas, version) == Some(versions)
  }

  method ReadObjects(raw: string, entries: seq<Entry>, version: VersionReader)
    returns (files: Option<map<string, File>>, docs: map<string, string>, versions: map<string, string>)
    ensures var datas := ReadFrom(raw, 0, entries);
            if datas.None? || Versions(entries, datas.value, version).None? then files.None?
            else files.Some? && Filled(entries, datas.value, version, files.value, docs, versions)
  {
    hide ReadObject, Inventory, Docs, Versions, IsDoc, IsVersionFile;
    var offset: nat, inventory: map<string, File> := 0, map[];
    docs, versions := map[], map[];
    ghost var datas: seq<string> := [];
    assert entries[0..] == entries;
    NothingToPrepend(ReadFrom(raw, 0, entries));
    NothingFilled(version);
    assert entries[..0] == [];
    for i := 0 to |entries|
      invariant |datas| == i && Filled(entries[..i], datas, version, inventory, docs, versions)
      invariant ReadFrom(raw, 0, entries) == Prepend(datas, ReadFrom(raw, offset, entries[i..]))
    {
      var e := entries[i];
      var o := ReadObject(raw, offset, e);
      assert entries[i..][0] == e && entries[i..][1..] == entries[i + 1..];
      if o.None? { return None, docs, versions; }
      AppendFile(entries[..i], datas, e, o.value.data, version);
      assert entries[..i + 1] == entries[..i] + [e];
      PrependOne(datas, o.value.data, ReadFrom(raw, o.value.next, entries[i + 1..]));
      offset, datas := o.value.next, datas + [o.value.data];
      inventory := inventory[e.path := FileOf(e, o.value.data)];
      if IsVersionFile(e.path) {
        var v := version(e.path, o.value.data);
        if v.None? {
          NoVersion(raw, entries, datas, ReadFrom(raw, offset, entries[i + 1..]), version);
          return None, docs, versions;
        }
        versions := versions[e.path := v.value];
      }
      if IsDoc(e.path) { docs := docs[DocName(e.path) := o.value.data]; }
    }
    assert entries[..|entries|] == entries;
    assert datas + [] == datas;
    return Some(inventory), docs, versions;
  }

  lemma NothingFilled(version: VersionReader)
    ensures Filled([], [], version, map[], map[], map[])
  {
  }

  // An unreadable version among the objects read so far refuses the whole.
  lemma NoVersion(raw: string, entries: seq<Entry>, datas: seq<string>, rest: Option<seq<string>>, version: VersionReader)
    requires |datas| <= |entries| && Versions(entries[..|datas|], datas, version).None?
    requires ReadFrom(raw, 0, entries) == Prepend(datas, rest)
    ensures ReadFrom(raw, 0, entries).None? || Versions(entries, ReadFrom(raw, 0, entries).value, version).None?
  {
    hide Versions, ReadObject;
    var all := ReadFrom(raw, 0, entries);
    if all.Some? {
      assert all.value[..|datas|] == datas;
      NoVersionPrefix(entries, all.value, |datas|, version);
    }
  }

  lemma {:induction false} NoVersionPrefix(entries: seq<Entry>, datas: seq<string>, n: nat, version: VersionReader)
    requires n <= |entries| == |datas| && Versions(entries[..n], datas[..n], version).None?
    ensures Versions(entries, datas, version).None?
  {
    if n == |entries| {
      assert entries[..n] == entries && datas[..n] == datas;
    } else {
      var m := |entries| - 1;
      assert entries[..m][..n] == entries[..n] && datas[..m][..n] == datas[..n];
      NoVersionPrefix(entries[..m], datas[..m], n, version);
    }
  }

  lemma NothingToPrepend(rest: Option<seq<string>>)
    ensures Prepend([], rest) == rest
  {
    if rest.Some? { assert [] + rest.value == rest.value; }
  }

  lemma PrependOne(datas: seq<string>, data: string, rest: Option<seq<string>>)
    ensures Prepend(datas, if rest.None? then None else Some([data] + rest.value)) == Prepend(datas + [data], rest)
  {
    if rest.Some? { assert datas + ([data] + rest.value) == datas + [data] + rest.value; }
  }

  lemma AppendFile(entries: seq<Entry>, datas: seq<string>, e: Entry, data: string, version: VersionReader)
    requires |datas| == |entries|
    ensures Inventory(entries + [e], datas + [data]) == Inventory(entries, datas)[e.path := FileOf(e, data)]
    ensures Docs(entries + [e], datas + [data])
            == if IsDoc(e.path) then Docs(entries, datas)[DocName(e.path) := data] else Docs(entries, datas)
    ensures Versions(entries + [e], datas + [data], version) == AddVersion(Versions(entries, datas, version), e.path, data, version)
  {
    hide AddVersion;
    var n := |entries|;
    assert (entries + [e])[..n] == entries && (datas + [data])[..n] == datas;
  }

  // ----- What the manifest says about a commit -----

  ghost predicate DistinctPaths(entries: seq<Entry>) {
    forall i, j | 0 <= i < j < |entries| :: entries[i].path != entries[j].path
  }

  // The inventory has exactly the listed paths, each with its own object's bytes.
  lemma {:induction false} InventoryIsExact(entries: seq<Entry>, datas: seq<string>)
    requires |datas| == |entries| && DistinctPaths(entries)
    ensures forall p :: p in Inventory(entries, datas) <==> Committed(entries, p)
    ensures forall i | 0 <= i < |entries| :: entries[i].path in Inventory(entries, datas)
              && Inventory(entries, datas)[entries[i].path] == FileOf(entries[i], datas[i])
  {
    if entries != [] {
      var n := |entries| - 1;
      InventoryIsExact(entries[..n], datas[..n]);
      var front, all := Inventory(entries[..n], datas[..n]), Inventory(entries, datas);
      forall i | 0 <= i < |entries|
        ensures entries[i].path in all && all[entries[i].path] == FileOf(entries[i], datas[i])
      {
        if i < n { assert entries[..n][i] == entries[i] && entries[i].path != entries[n].path; }
      }
      forall p ensures p in all <==> Committed(entries, p) {
        CommittedStep(entries[..n], entries[n], p);
        assert entries == entries[..n] + [entries[n]];
      }
    }
  }

  ghost predicate Committed(entries: seq<Entry>, path: string) {
    exists i :: 0 <= i < |entries| && entries[i].path == path
  }

  lemma CommittedStep(front: seq<Entry>, last: Entry, path: string)
    ensures Committed(front + [last], path) <==> Committed(front, path) || last.path == path
  {
    var all := front + [last];
    if i :| 0 <= i < |front| && front[i].path == path { assert all[i].path == path; }
    assert all[|front|] == last;
  }

  lemma DocPath(path: string, d: string)
    requires d in DOC_NAMES
    ensures IsDoc(path) && path[|DOC_ROOT|..] == d <==> path == DOC_ROOT + d
  {
    assert (DOC_ROOT + d)[|DOC_ROOT|..] == d && DOC_ROOT <= DOC_ROOT + d;
    if IsDoc(path) { assert path == DOC_ROOT + path[|DOC_ROOT|..]; }
  }

  // The documents found are those committed under their names.
  lemma {:induction false} DocsAreExact(entries: seq<Entry>, datas: seq<string>, d: string)
    requires |datas| == |entries| && d in DOC_NAMES
    ensures d in Docs(entries, datas) <==> Committed(entries, DOC_ROOT + d)
  {
    if entries != [] {
      hide IsDoc, Committed;
      var n := |entries| - 1;
      DocsAreExact(entries[..n], datas[..n], d);
      CommittedStep(entries[..n], entries[n], DOC_ROOT + d);
      assert entries == entries[..n] + [entries[n]];
      DocPath(entries[n].path, d);
    } else {
      assert !Committed([], DOC_ROOT + d);
    }
  }

  lemma {:induction false} OnlyDocNames(entries: seq<Entry>, datas: seq<string>)
    requires |datas| == |entries|
    ensures Docs(entries, datas).Keys <= DOC_NAMES
  {
    if entries != [] { OnlyDocNames(entries[..|entries| - 1], datas[..|entries| - 1]); }
  }

  // Each document is held with the bytes committed for it.
  lemma {:induction false} DocsHoldTheBytes(entries: seq<Entry>, datas: seq<string>, i: nat)
    requires |datas| == |entries| && DistinctPaths(entries) && i < |entries| && IsDoc(entries[i].path)
    ensures var d := DocName(entries[i].path); d in Docs(entries, datas) && Docs(entries, datas)[d] == datas[i]
  {
    var n := |entries| - 1;
    if i < n {
      DocsHoldTheBytes(entries[..n], datas[..n], i);
      var d := entries[i].path[|DOC_ROOT|..];
      assert entries[i].path == DOC_ROOT + d;
      if IsDoc(entries[n].path) { assert entries[n].path == DOC_ROOT + entries[n].path[|DOC_ROOT|..]; }
      assert entries[i].path != entries[n].path;
    }
  }

  ghost predicate AllDocsCommitted(entries: seq<Entry>) {
    forall d | d in DOC_NAMES :: Committed(entries, DOC_ROOT + d)
  }

  lemma DocsComplete(entries: seq<Entry>, datas: seq<string>)
    requires |datas| == |entries|
    ensures Docs(entries, datas).Keys == DOC_NAMES <==> AllDocsCommitted(entries)
  {
    hide Docs, Committed;
    OnlyDocNames(entries, datas);
    forall d | d in DOC_NAMES { DocsAreExact(entries, datas, d); }
    if AllDocsCommitted(entries) {
      forall d | d in DOC_NAMES ensures d in Docs(entries, datas) { assert Committed(entries, DOC_ROOT + d); }
    }
  }

  // Every component version file can be read.
  ghost predicate VersionsReadable(entries: seq<Entry>, datas: seq<string>, version: VersionReader)
    requires |datas| == |entries|
  {
    forall i | 0 <= i < |entries| && IsVersionFile(entries[i].path) :: version(entries[i].path, datas[i]).Some?
  }

  // The versions are those of the committed version files, each read from its own bytes.
  ghost predicate VersionsAre(entries: seq<Entry>, datas: seq<string>, version: VersionReader, versions: map<string, string>)
    requires |datas| == |entries|
  {
    && (forall p :: p in versions <==> IsVersionFile(p) && Committed(entries, p))
    && forall i | 0 <= i < |entries| && IsVersionFile(entries[i].path) ::
         entries[i].path in versions && version(entries[i].path, datas[i]) == Some(versions[entries[i].path])
  }

  lemma {:induction false} VersionsAreExact(entries: seq<Entry>, datas: seq<string>, version: VersionReader)
    requires |datas| == |entries| && DistinctPaths(entries)
    ensures Versions(entries, datas, version).Some? <==> VersionsReadable(entries, datas, version)
    ensures Versions(entries, datas, version).Some? ==> VersionsAre(entries, datas, version, Versions(entries, datas, version).value)
  {
    if entries != [] {
      hide IsVersionFile, Committed, Versions, AddVersion;
      var n := |entries| - 1;
      VersionsAreExact(entries[..n], datas[..n], version);
      VersionsStep(entries[..n], datas[..n], entries[n], datas[n], version);
      assert entries == entries[..n] + [entries[n]] && datas == datas[..n] + [datas[n]];
    } else {
      assert forall p :: !Committed([], p);
    }
  }

  lemma VersionsStep(entries: seq<Entry>, datas: seq<string>, e: Entry, data: string, version: VersionReader)
    requires |datas| == |entries| && DistinctPaths(entries + [e])
    requires Versions(entries, datas, version).Some? <==> VersionsReadable(entries, datas, version)
    requires Versions(entries, datas, version).Some? ==> VersionsAre(entries, datas, version, Versions(entries, datas, version).value)
    ensures var all := Versions(entries + [e], datas + [data], version);
            && (all.Some? <==> VersionsReadable(entries + [e], datas + [data], version))
            && (all.Some? ==> VersionsAre(entries + [e], datas + [data], version, all.value))
  {
    hide IsVersionFile, Committed, Versions, Inventory, Docs, VersionsReadable, VersionsAre;
    AppendFile(entries, datas, e, data, version);
    ReadableStep(entries, datas, e, data, version);
    var found := Versions(entries, datas, version);
    if found.Some? && (IsVersionFile(e.path) ==> version(e.path, data).Some?) {
      VersionsAreStep(entries, datas, e, data, version, found.value);
    }
  }

  lemma ReadableStep(entries: seq<Entry>, datas: seq<string>, e: Entry, data: string, version: VersionReader)
    requires |datas| == |entries|
    ensures VersionsReadable(entries + [e], datas + [data], version)
            <==> VersionsReadable(entries, datas, version) && (IsVersionFile(e.path) ==> version(e.path, data).Some?)
  {
    hide IsVersionFile;
    var all, bytes := entries + [e], datas + [data];
    assert all[|entries|] == e && bytes[|entries|] == data;
    assert forall i | 0 <= i < |entries| :: all[i] == entries[i] && bytes[i] == datas[i];
  }

  lemma VersionsAreStep(entries: seq<Entry>, datas: seq<string>, e: Entry, data: string, version: VersionReader,
                        found: map<string, string>)
    requires |datas| == |entries| && DistinctPaths(entries + [e]) && VersionsAre(entries, datas, version, found)
    requires IsVersionFile(e.path) ==> version(e.path, data).Some?
    ensures VersionsAre(entries + [e], datas + [data], version,
                        if IsVersionFile(e.path) then found[e.path := version(e.path, data).value] else found)
  {
    hide IsVersionFile, Committed;
    var all, bytes := entries + [e], datas + [data];
    forall p ensures Committed(all, p) <==> Committed(entries, p) || e.path == p { CommittedStep(entries, e, p); }
    forall i | 0 <= i < |entries| ensures all[i] == entries[i] && bytes[i] == datas[i] && entries[i].path != e.path {
      assert all[i].path != all[|entries|].path;
    }
  }

  // The manifest lists exactly the wanted blobs, byte for byte, the documents, the component
  // versions and the directories.
  ghost predicate IsTheCommit(m: Manifest, tree: seq<TreeEntry>, entries: seq<Entry>, datas: seq<string>, version: VersionReader)
    requires |datas| == |entries|
  {
    && m.directories == DirectoriesOf(tree)
    && (forall p :: p in m.files <==> Committed(entries, p))
    && (forall i | 0 <= i < |entries| :: entries[i].path in m.files && m.files[entries[i].path] == FileOf(entries[i], datas[i]))
    && (forall i | 0 <= i < |entries| && IsDoc(entries[i].path) ::
          DocName(entries[i].path) in m.docs && m.docs[DocName(entries[i].path)] == datas[i])
    && VersionsAre(entries, datas, version, m.versions)
  }

  lemma ReadManifest(tree: seq<TreeEntry>, entries: seq<Entry>, datas: seq<string>, version: VersionReader)
    requires |datas| == |entries| && DistinctPaths(entries) && Versions(entries, datas, version).Some?
    ensures IsTheCommit(Manifest(Inventory(entries, datas), Docs(entries, datas), Versions(entries, datas, version).value,
                                 DirectoriesOf(tree)), tree, entries, datas, version)
  {
    hide Inventory, Docs, DirectoriesOf, IsDoc, Committed, Versions, VersionsAre;
    InventoryIsExact(entries, datas);
    VersionsAreExact(entries, datas, version);
    forall i | 0 <= i < |entries| && IsDoc(entries[i].path)
      ensures DocName(entries[i].path) in Docs(entries, datas) && Docs(entries, datas)[DocName(entries[i].path)] == datas[i]
    {
      DocsHoldTheBytes(entries, datas, i);
    }
  }

  // For every commit, given by git's tree (distinct paths) and the bytes of its wanted blobs: the
  // manifest is built if and only if every path is UTF-8, the bounds hold, every version file can
  // be read and all documents are committed; and then it is the commit.
  lemma ManifestIsTheCommit(tree: seq<TreeEntry>, datas: seq<string>, version: VersionReader)
    requires AllWellFormed(tree) && AllRegular(tree)
    requires Sized(EntriesOf(tree), datas) && DistinctPaths(EntriesOf(tree))
    ensures var m, entries := ManifestOf(Stream(tree), Batch(EntriesOf(tree), datas), version), EntriesOf(tree);
            && (m.Some? <==> AllDecodable(tree) && WithinBounds(entries) && VersionsReadable(entries, datas, version)
                             && AllDocsCommitted(entries))
            && (m.Some? ==> IsTheCommit(m.value, tree, entries, datas, version))
  {
    hide ReadRecords, Split, Stream, ReadFrom, Inventory, Docs, Batch, IsTheCommit, DistinctPaths, AllDocsCommitted,
         Versions, VersionsReadable, AllDecodable;
    ListingRoundTrip(tree);
    var entries := EntriesOf(tree);
    OidsArePlain(tree);
    BatchRoundTrip(entries, datas);
    DocsComplete(entries, datas);
    VersionsAreExact(entries, datas, version);
    if Versions(entries, datas, version).Some? { ReadManifest(tree, entries, datas, version); }
  }

  lemma SpecialFilesRefuse(tree: seq<TreeEntry>, raw: string, version: VersionReader)
    requires AllWellFormed(tree) && !AllRegular(tree)
    ensures ManifestOf(Stream(tree), raw, version) == None
  {
    hide ReadRecords, Split, Stream;
    ListingRoundTrip(tree);
  }

  lemma {:induction false} OidsArePlain(tree: seq<TreeEntry>)
    requires AllWellFormed(tree) && AllRegular(tree)
    ensures PlainOids(EntriesOf(tree))
  {
    if tree != [] {
      var front, t := tree[..|tree| - 1], tree[|tree| - 1];
      LastOfTree(tree);
      OidsArePlain(front);
      assert forall i | 0 <= i < |t.oid| :: !IsBlank(t.oid[i]);
    }
  }
}
