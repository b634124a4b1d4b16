// Which files the source manifest takes, which object streams it reads and what it holds, on the
// paths and texts themselves.
module SourceManifestFields {
  import opened Options
  import opened Text
  import opened SourceManifest
  import opened ObjectBatch
  import opened SourceInventory

  ghost predicate Begins(s: string, start: string) {
    |start| <= |s| && s[..|start|] == start
  }

  ghost predicate SourcePath(path: string) {
    || Begins(path, "gilbic_backend/src/") || Begins(path, "gilbic_backend/sql/") || Begins(path, "spina_backend_mobile/src/")
    || Begins(path, "spina_portal/assets/") || Begins(path, "gilbic_mobile/lib/") || Begins(path, "docs/accounting/")
    || Begins(path, "docs/bir/")
    || path == "gilbic_backend/pyproject.toml" || path == "spina_backend_mobile/pyproject.toml"
    || path == "gilbic_mobile/pubspec.yaml" || path == "gilbic_mobile/pubspec.lock" || path == "package.json"
    || path == "tools/build_bir_registration_package.py" || path == "tools/run_accounting_export_disposable_validation.py"
  }

  lemma SourcePathIff(path: string)
    ensures Relevant(path) <==> SourcePath(path)
  {
  }

  // ----- The listing -----

  ghost predicate Listable(t: TreeEntry) {
    && Decodable(t.path)
    && (t.kind != "tree" && SourcePath(t.path) ==> t.kind == "blob" && (t.mode == "100644" || t.mode == "100755"))
  }

  ghost predicate ListedAs(t: TreeEntry, e: Entry) {
    && t.kind != "tree" && SourcePath(t.path) && e.path == t.path && e.mode == t.mode && e.oid == t.oid
    && ParseDecimal(t.size) == Some(e.size)
  }

  // What git writes for one more entry of a tree.
  lemma GitWrites(tree: seq<TreeEntry>, t: TreeEntry)
    ensures Stream(tree + [t])
            == Stream(tree) + (t.mode + " " + t.kind + " " + t.oid + " " + seq(t.padding, _ => ' ') + t.size + "\t" + t.path + "\U{0}")
    ensures Stream([]) == ""
  {
    assert (tree + [t])[..|tree|] == tree;
  }

  // The listing of a commit is accepted if and only if every path is UTF-8 and every source path
  // is a directory or a regular file; it then has exactly the files at source paths.
  lemma ListingNamesTheSourceFiles(tree: seq<TreeEntry>)
    requires AllWellFormed(tree)
    ensures var l := ReadRecords(Split(Stream(tree), '\U{0}'));
            && (l.Some? <==> forall t | t in tree :: Listable(t))
            && (l.Some? ==> forall e :: e in l.value.entries <==> exists t | t in tree :: ListedAs(t, e))
            && (l.Some? ==> forall path :: path in l.value.directories <==> exists t | t in tree :: t.kind == "tree" && t.path == path)
  {
    hide ReadRecords, Split, Stream, WellFormed, SourcePath, Relevant, Decodable;
    ListingRoundTrip(tree);
    forall path ensures Relevant(path) <==> SourcePath(path) { SourcePathIff(path); }
    if AllRegular(tree) && AllDecodable(tree) {
      forall e ensures e in EntriesOf(tree) <==> exists t | t in tree :: ListedAs(t, e) { EntriesAre(tree, e); }
      forall path ensures path in DirectoriesOf(tree) <==> exists t | t in tree :: t.kind == "tree" && t.path == path {
        DirectoriesAre(tree, path);
      }
    }
  }

  lemma {:induction false} EntriesAre(tree: seq<TreeEntry>, e: Entry)
    requires AllWellFormed(tree) && AllRegular(tree)
    ensures e in EntriesOf(tree) <==> exists t | t in tree :: ListedAs(t, e)
  {
    if tree != [] {
      var front, t := tree[..|tree| - 1], tree[|tree| - 1];
      LastOfTree(tree);
      EntriesAre(front, e);
      LastListed(t, e);
      hide ListedAs, Wanted, WellFormed, RegularFile;
      assert forall u | u in tree :: u in front || u == t;
      assert t in tree && forall u | u in front :: u in tree;
    }
  }

  lemma LastListed(t: TreeEntry, e: Entry)
    requires WellFormed(t) && (Wanted(t) ==> RegularFile(t.kind, t.mode))
    ensures ListedAs(t, e) <==> Wanted(t) && e == Entry(t.path, t.mode, t.oid, ParseDecimal(t.size).value)
  {
    hide Relevant, SourcePath, ParseDecimal;
    SourcePathIff(t.path);
  }

  lemma {:induction false} DirectoriesAre(tree: seq<TreeEntry>, path: string)
    ensures path in DirectoriesOf(tree) <==> exists t | t in tree :: t.kind == "tree" && t.path == path
  {
    if tree != [] {
      var front, t := tree[..|tree| - 1], tree[|tree| - 1];
      DirectoriesAre(front, path);
      assert forall u | u in tree :: u in front || u == t;
      assert t in tree && forall u | u in front :: u in tree;
    }
  }

  // ----- The objects -----

  // One object is read exactly when its id, the word blob, its size in decimal and a newline stand
  // at the offset with its bytes behind them; the next one is looked for one byte further on.
  lemma ObjectIsReadIff(raw: string, offset: nat, e: Entry, o: Object)
    requires offset <= |raw| && '\n' !in e.oid
    ensures ReadObject(raw, offset, e) == Some(o) <==>
            && |o.data| == e.size
            && Begins(raw[offset..], e.oid + " blob " + Decimal(e.size) + "\n" + o.data)
            && o.next == offset + |e.oid| + 6 + |Decimal(e.size)| + 1 + e.size + 1
  {
    hide ReadObject, Decimal;
    StandsIff(raw, offset, e, o.data);
    if ReadObject(raw, offset, e).Some? { ObjectStands(raw, offset, e); }
    if StandsAt(raw, offset, e, o.data) { ObjectFound(raw, offset, e, o.data); }
    assert FrameLength(e) == |e.oid| + 6 + |Decimal(e.size)| + 1 + e.size + 1;
  }

  lemma StandsIff(raw: string, offset: nat, e: Entry, data: string)
    requires offset <= |raw|
    ensures StandsAt(raw, offset, e, data) <==>
            |data| == e.size && Begins(raw[offset..], e.oid + " blob " + Decimal(e.size) + "\n" + data)
  {
    hide Decimal;
    var head := e.oid + " blob " + Decimal(e.size) + "\n";
    assert head == Header(e) + [NEWLINE];
    var text, body := head + data, offset + |head|;
    if body + |data| <= |raw| {
      assert raw[offset..][..|text|] == raw[offset..body] + raw[body..body + |data|];
      if raw[offset..][..|text|] == text {
        assert raw[offset..body] == text[..|head|] == head;
        assert raw[body..body + |data|] == text[|head|..] == data;
      }
    }
  }

  // ----- The manifest -----

  ghost predicate CommittedAt(entries: seq<Entry>, path: string) {
    exists i :: 0 <= i < |entries| && entries[i].path == path
  }

  ghost predicate HoldsVersion(path: string) {
    || (|path| >= 14 && path[|path| - 14..] == "pyproject.toml") || path == "package.json" || path == "gilbic_mobile/pubspec.yaml"
  }

  ghost predicate DocumentName(d: string) {
    d in {"README.md", "official-requirements.md", "system-description.md", "technical-matrix.md", "registration-checklist.md",
          "profile.example.json", "version-control.md"}
  }

  lemma VersionFileIff(path: string)
    ensures IsVersionFile(path) <==> HoldsVersion(path)
  {
  }

  // The manifest of a commit is built if and only if no path of it is undecodable, it has one to
  // ten thousand source files of at most 256 MiB, all their versions can be read and the seven
  // documents are committed; it holds the bytes of each document and every version.
  lemma ManifestHoldsIff(tree: seq<TreeEntry>, datas: seq<string>, version: VersionReader)
    requires AllWellFormed(tree) && AllRegular(tree)
    requires Sized(EntriesOf(tree), datas) && DistinctPaths(EntriesOf(tree))
    ensures var m, entries := ManifestOf(Stream(tree), Batch(EntriesOf(tree), datas), version), EntriesOf(tree);
            && (m.Some? <==>
                  && (forall t | t in tree :: Decodable(t.path))
                  && 1 <= |entries| <= 10000 && TotalSize(entries) <= 268435456
                  && (forall i | 0 <= i < |entries| && HoldsVersion(entries[i].path) :: version(entries[i].path, datas[i]).Some?)
                  && (forall d | DocumentName(d) :: CommittedAt(entries, "docs/bir/" + d)))
            && (m.Some? ==> HoldsTheFiles(m.value, entries, datas, version))
  {
    hide Stream, Batch, ManifestOf, EntriesOf, AllWellFormed, AllRegular, DistinctPaths, IsVersionFile, HoldsVersion, TotalSize,
         Committed, IsTheCommit, HoldsTheFiles, Decodable;
    ManifestIsTheCommit(tree, datas, version);
    forall path ensures IsVersionFile(path) <==> HoldsVersion(path) { VersionFileIff(path); }
    DocumentsIff(EntriesOf(tree));
    var m := ManifestOf(Stream(tree), Batch(EntriesOf(tree), datas), version);
    if m.Some? { CommitHoldsTheFiles(m.value, tree, EntriesOf(tree), datas, version); }
  }

  ghost predicate HoldsTheFiles(m: Manifest, entries: seq<Entry>, datas: seq<string>, version: VersionReader)
    requires |datas| == |entries|
  {
    && (forall p :: p in m.files <==> CommittedAt(entries, p))
    && (forall p :: p in m.versions <==> HoldsVersion(p) && CommittedAt(entries, p))
    && forall i | 0 <= i < |entries| :: HoldsTheFile(m, entries[i], datas[i], version)
  }

  ghost predicate HoldsTheFile(m: Manifest, e: Entry, data: string, version: VersionReader) {
    && e.path in m.files && m.files[e.path] == File(e.oid, data, e.size, e.mode)
    && (HoldsVersion(e.path) ==> e.path in m.versions && version(e.path, data) == Some(m.versions[e.path]))
    && forall d | e.path == "docs/bir/" + d && DocumentName(d) :: d in m.docs && m.docs[d] == data
  }

  lemma CommitHoldsTheFiles(m: Manifest, tree: seq<TreeEntry>, entries: seq<Entry>, datas: seq<string>, version: VersionReader)
    requires |datas| == |entries| && IsTheCommit(m, tree, entries, datas, version)
    ensures HoldsTheFiles(m, entries, datas, version)
  {
    hide IsVersionFile, HoldsVersion, Committed, CommittedAt, DirectoriesOf, HoldsTheFile;
    forall path ensures IsVersionFile(path) <==> HoldsVersion(path) { VersionFileIff(path); }
    forall path ensures Committed(entries, path) <==> CommittedAt(entries, path) { CommittedIff(entries, path); }
    forall i | 0 <= i < |entries| ensures HoldsTheFile(m, entries[i], datas[i], version) {
      FileIsHeld(m, tree, entries, datas, version, i);
    }
  }

  lemma FileIsHeld(m: Manifest, tree: seq<TreeEntry>, entries: seq<Entry>, datas: seq<string>, version: VersionReader, i: nat)
    requires i < |entries| == |datas| && IsTheCommit(m, tree, entries, datas, version)
    ensures HoldsTheFile(m, entries[i], datas[i], version)
  {
    hide IsVersionFile, HoldsVersion, Committed, DirectoriesOf, IsDoc;
    var e := entries[i];
    VersionFileIff(e.path);
    forall d | e.path == "docs/bir/" + d && DocumentName(d) ensures d in m.docs && m.docs[d] == datas[i] {
      DocPath(e.path, d);
    }
  }

  lemma DocumentNames()
    ensures forall d :: d in DOC_NAMES <==> DocumentName(d)
  {
  }

  lemma CommittedIff(entries: seq<Entry>, path: string)
    ensures Committed(entries, path) <==> CommittedAt(entries, path)
  {
  }

  lemma DocumentsIff(entries: seq<Entry>)
    ensures AllDocsCommitted(entries) <==> forall d | DocumentName(d) :: CommittedAt(entries, "docs/bir/" + d)
  {
    hide Committed, CommittedAt, DocumentName;
    forall path ensures Committed(entries, path) <==> CommittedAt(entries, path) { CommittedIff(entries, path); }
    DocumentNames();
    assert forall d :: DOC_ROOT + d == "docs/bir/" + d;
  }

  lemma SizesAddUp(entries: seq<Entry>, e: Entry)
    ensures TotalSize([]) == 0 && TotalSize(entries + [e]) == TotalSize(entries) + e.size
  {
    assert (entries + [e])[..|entries|] == entries;
  }
}
