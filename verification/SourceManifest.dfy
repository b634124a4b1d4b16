// source_manifest of tools/build_bir_registration_package.py: the readers of `git ls-tree -z`
// and `git cat-file --batch`, and the inventory they build.
module SourceManifest {
  import opened Options
  import opened Text

  const NUL := '\U{0}'
  const TAB := '\t'
  const NEWLINE := '\n'
  const MAX_ENTRIES := 10000
  const MAX_SOURCE := 256 * 1024 * 1024

  datatype Entry = Entry(path: string, mode: string, oid: string, size: nat)

  // ----- git ls-tree -r -t -z -l -----

  predicate Relevant(path: string) {
    || "gilbic_backend/src/" <= path || "gilbic_backend/sql/" <= path || "spina_backend_mobile/src/" <= path
    || "spina_portal/assets/" <= path || "gilbic_mobile/lib/" <= path || "docs/accounting/" <= path || "docs/bir/" <= path
    || path in {"gilbic_backend/pyproject.toml", "spina_backend_mobile/pyproject.toml", "gilbic_mobile/pubspec.yaml",
                "gilbic_mobile/pubspec.lock", "package.json", "tools/build_bir_registration_package.py",
                "tools/run_accounting_export_disposable_validation.py"}
  }

  predicate RegularFile(kind: string, mode: string) {
    kind == "blob" && mode in {"100644", "100755"}
  }

  datatype Listing = Listing(entries: seq<Entry>, directories: seq<string>)

  // One NUL-terminated record; None is a raised error.
  function ReadRecord(l: Listing, record: string): Option<Listing> {
    if record == [] then Some(l)
    else
      var tab := IndexFrom(record, TAB, 0);
      if tab.None? then None
      else
        var fields, path := Words(record[..tab.value]), record[tab.value + 1..];
        if |fields| != 4 || !Decodable(path) then None
        else if fields[1] == "tree" then Some(l.(directories := l.directories + [path]))
        else if !Relevant(path) then Some(l)
        else if !RegularFile(fields[1], fields[0]) || !Decodable(fields[2]) then None
        else
          var size := IntOfText(fields[3]);
          // No object is as long as a negative size: refused here, or when the object is read.
          if size.None? || size.value < 0 then None
          else Some(l.(entries := l.entries + [Entry(path, fields[0], fields[2], size.value)]))
  }

  function ReadRecords(records: seq<string>): Option<Listing> {
    if records == [] then Some(Listing([], []))
    else
      var before := ReadRecords(records[..|records| - 1]);
      if before.None? then None else ReadRecord(before.value, records[|records| - 1])
  }

  method ReadListing(stream: string) returns (listing: Option<Listing>)
    ensures listing == ReadRecords(Split(stream, NUL))
  {
    hide ReadRecord, Split;
    var records := Split(stream, NUL);
    var l := Listing([], []);
    for i := 0 to |records|
      invariant ReadRecords(records[..i]) == Some(l)
    {
      assert records[..i + 1][..i] == records[..i];
      var next := ReadRecord(l, records[i]);
      if next.None? {
        FailedPrefix(records, i + 1);
        return None;
      }
      l := next.value;
    }
    assert records[..|records|] == records;
    return Some(l);
  }

  lemma {:induction false} FailedPrefix(records: seq<string>, n: nat)
    requires n <= |records| && ReadRecords(records[..n]).None?
    ensures ReadRecords(records).None?
    decreases |records| - n
  {
    if n == |records| {
      assert records[..n] == records;
    } else {
      assert records[..n + 1][..n] == records[..n];
      FailedPrefix(records, n + 1);
    }
  }

  // What git knows about one tree entry; `padding` is the blanks -l prints before the size.
  datatype TreeEntry = TreeEntry(mode: string, kind: string, oid: string, size: string, padding: nat, path: string)

  predicate WellFormed(t: TreeEntry) {
    && IsWord(t.mode) && IsWord(t.kind) && IsWord(t.oid) && IsWord(t.size)
    && NUL !in t.mode && NUL !in t.kind && NUL !in t.oid && NUL !in t.size
    && NUL !in t.path
    && Decodable(t.oid)
    && (t.kind == "blob" ==> ParseDecimal(t.size).Some?)
  }

  function Blanks(n: nat): string {
    seq(n, _ => ' ')
  }

  function Meta(t: TreeEntry): string {
    t.mode + [' '] + t.kind + [' '] + t.oid + [' '] + Blanks(t.padding) + t.size
  }

  function Record(t: TreeEntry): string {
    Meta(t) + [TAB] + t.path
  }

  function Stream(tree: seq<TreeEntry>): string {
    if tree == [] then [] else Stream(tree[..|tree| - 1]) + Record(tree[|tree| - 1]) + [NUL]
  }

  predicate Wanted(t: TreeEntry) {
    t.kind != "tree" && Relevant(t.path)
  }

  predicate AllWellFormed(tree: seq<TreeEntry>) {
    forall t | t in tree :: WellFormed(t)
  }

  // No wanted entry is a link, a submodule or anything else but a regular file.
  predicate AllRegular(tree: seq<TreeEntry>) {
    forall t | t in tree :: Wanted(t) ==> RegularFile(t.kind, t.mode)
  }

  // Every path, wanted or not and of directories too, is UTF-8.
  predicate AllDecodable(tree: seq<TreeEntry>) {
    forall t | t in tree :: Decodable(t.path)
  }

  function EntriesOf(tree: seq<TreeEntry>): seq<Entry>
    requires AllWellFormed(tree) && AllRegular(tree)
  {
    if tree == [] then []
    else
      var t := tree[|tree| - 1];
      assert t in tree;
      EntriesOf(tree[..|tree| - 1])
      + if Wanted(t) then [Entry(t.path, t.mode, t.oid, ParseDecimal(t.size).value)] else []
  }

  function DirectoriesOf(tree: seq<TreeEntry>): seq<string> {
    if tree == [] then []
    else DirectoriesOf(tree[..|tree| - 1]) + if tree[|tree| - 1].kind == "tree" then [tree[|tree| - 1].path] else []
  }

  lemma MetaWords(t: TreeEntry)
    requires WellFormed(t)
    ensures Words(Meta(t)) == [t.mode, t.kind, t.oid, t.size]
  {
    var a := t.mode + [' '];
    var b := a + t.kind + [' '];
    var c := b + t.oid + [' '];
    FirstWord(t.mode);
    WordThenBlank(a, t.kind);
    WordThenBlank(b, t.oid);
    WordsSkipBlanks(c, t.padding);
    var d := c + Blanks(t.padding);
    assert IsBlank(d[|d| - 1]);
    WordsAppend(d, t.size);
    assert Meta(t) == d + t.size;
    hide Words, IsWord, IsBlank;
    assert [t.mode] + [t.kind] + [t.oid] + [t.size] == [t.mode, t.kind, t.oid, t.size];
  }

  lemma FirstWord(w: string)
    requires IsWord(w)
    ensures Words(w + [' ']) == [w]
  {
    WordsAppend([], w);
    assert [] + w == w;
    assert (w + [' '])[..|w|] == w;
  }

  lemma WordThenBlank(s: string, w: string)
    requires IsWord(w) && s != [] && IsBlank(s[|s| - 1])
    ensures Words(s + w + [' ']) == Words(s) + [w]
  {
    WordsAppend(s, w);
    assert (s + w + [' '])[..|s + w|] == s + w;
  }

  lemma MetaHasNo(t: TreeEntry, c: char)
    requires WellFormed(t) && (c == TAB || c == NUL)
    ensures c !in Meta(t)
  {
    assert forall w: string | IsWord(w) :: TAB !in w;
  }

  lemma ReadOneRecord(l: Listing, t: TreeEntry)
    requires WellFormed(t)
    ensures ReadRecord(l, Record(t))
            == if !Decodable(t.path) then None
               else if t.kind == "tree" then Some(l.(directories := l.directories + [t.path]))
               else if !Wanted(t) then Some(l)
               else if !RegularFile(t.kind, t.mode) then None
               else Some(l.(entries := l.entries + [Entry(t.path, t.mode, t.oid, ParseDecimal(t.size).value)]))
  {
    hide Words, Meta, Relevant, ParseDecimal, IsWord, IndexFrom, Record, IntOfText, Decodable;
    RecordParts(t);
    MetaWords(t);
    if ParseDecimal(t.size).Some? { PlainIntOfText(t.size); }
  }

  lemma RecordParts(t: TreeEntry)
    requires WellFormed(t)
    ensures var record, n := Record(t), |Meta(t)|;
            record != [] && IndexFrom(record, TAB, 0) == Some(n) && record[..n] == Meta(t) && record[n + 1..] == t.path
  {
    MetaHasNo(t, TAB);
    hide Meta, WellFormed;
    var record := Record(t);
    assert record[..|Meta(t)|] == Meta(t);
    IndexIs(record, TAB, 0, |Meta(t)|);
  }

  function Records(tree: seq<TreeEntry>): seq<string> {
    seq(|tree|, i requires 0 <= i < |tree| => Record(tree[i]))
  }

  lemma {:induction false} StreamSplits(tree: seq<TreeEntry>)
    requires AllWellFormed(tree)
    ensures Split(Stream(tree), NUL) == Records(tree) + [[]]
  {
    if tree != [] {
      var front, t := tree[..|tree| - 1], tree[|tree| - 1];
      StreamSplits(front);
      MetaHasNo(t, NUL);
      SplitAtEnd(Stream(front), Records(front), Record(t));
      assert Records(tree) == Records(front) + [Record(t)];
    }
  }

  // Appending one terminated record to a terminated stream.
  lemma SplitAtEnd(stream: string, records: seq<string>, record: string)
    requires Split(stream, NUL) == records + [[]] && NUL !in record
    ensures Split(stream + record + [NUL], NUL) == records + [record] + [[]]
  {
    SplitExtend(stream, record);
    assert (records + [[]])[..|records|] == records;
    assert [] + record == record;
    assert (stream + record + [NUL])[..|stream + record|] == stream + record;
  }

  // A piece without separators extends the last piece of a split.
  lemma {:induction false} SplitExtend(stream: string, record: string)
    requires NUL !in record
    ensures var pieces := Split(stream, NUL);
            Split(stream + record, NUL) == pieces[..|pieces| - 1] + [pieces[|pieces| - 1] + record]
  {
    hide Split;
    var pieces := Split(stream, NUL);
    if record == [] {
      assert stream + record == stream;
      assert pieces[|pieces| - 1] + record == pieces[|pieces| - 1];
      assert pieces == pieces[..|pieces| - 1] + [pieces[|pieces| - 1] + record];
    } else {
      var r, c := record[..|record| - 1], record[|record| - 1];
      assert record == r + [c] && c in record;
      SplitExtend(stream, r);
      SplitOneMore(stream + r, c);
      assert stream + record == stream + r + [c];
      assert pieces[|pieces| - 1] + record == pieces[|pieces| - 1] + r + [c];
    }
  }

  lemma SplitOneMore(s: string, c: char)
    requires c != NUL
    ensures var pieces := Split(s, NUL); Split(s + [c], NUL) == pieces[..|pieces| - 1] + [pieces[|pieces| - 1] + [c]]
  {
    assert (s + [c])[..|s|] == s;
  }

  // For every tree, with any bytes but NUL in its paths: the reader accepts git's listing if and
  // only if every path is UTF-8 and every wanted entry is a regular file, and then it returns
  // exactly the wanted blobs and all directories, in git's order.
  lemma ListingRoundTrip(tree: seq<TreeEntry>)
    requires AllWellFormed(tree)
    ensures ReadRecords(Split(Stream(tree), NUL))
            == if AllRegular(tree) && AllDecodable(tree) then Some(Listing(EntriesOf(tree), DirectoriesOf(tree))) else None
  {
    StreamSplits(tree);
    RecordsRoundTrip(tree);
    var records := Records(tree);
    assert (records + [[]])[..|records|] == records;
  }

  lemma {:induction false} RecordsRoundTrip(tree: seq<TreeEntry>)
    requires AllWellFormed(tree)
    ensures ReadRecords(Records(tree))
            == if AllRegular(tree) && AllDecodable(tree) then Some(Listing(EntriesOf(tree), DirectoriesOf(tree))) else None
  {
    hide ReadRecord, WellFormed, Record, Wanted, RegularFile, Decodable;
    if tree != [] {
      var front, t := tree[..|tree| - 1], tree[|tree| - 1];
      hide AllRegular, AllDecodable, AllWellFormed, EntriesOf, DirectoriesOf;
      LastOfTree(tree);
      RecordsRoundTrip(front);
      assert Records(tree)[..|tree| - 1] == Records(front);
      if AllRegular(front) && AllDecodable(front) { ReadsLastRecord(tree); }
    }
  }

  lemma ReadsLastRecord(tree: seq<TreeEntry>)
    requires AllWellFormed(tree) && tree != [] && AllWellFormed(tree[..|tree| - 1])
    requires AllRegular(tree[..|tree| - 1]) && AllDecodable(tree[..|tree| - 1])
    ensures var front, t := tree[..|tree| - 1], tree[|tree| - 1];
            ReadRecord(Listing(EntriesOf(front), DirectoriesOf(front)), Record(t))
            == if AllRegular(tree) && AllDecodable(tree) then Some(Listing(EntriesOf(tree), DirectoriesOf(tree))) else None
  {
    var front, t := tree[..|tree| - 1], tree[|tree| - 1];
    LastOfTree(tree);
    ReadOneRecord(Listing(EntriesOf(front), DirectoriesOf(front)), t);
    hide ReadRecord, Record, AllRegular, AllDecodable, AllWellFormed, WellFormed, Wanted, RegularFile;
    assert EntriesOf(front) + [] == EntriesOf(front) && DirectoriesOf(front) + [] == DirectoriesOf(front);
  }

  lemma LastOfTree(tree: seq<TreeEntry>)
    requires AllWellFormed(tree) && tree != []
    ensures var front, t := tree[..|tree| - 1], tree[|tree| - 1];
            && AllWellFormed(front) && WellFormed(t)
            && (AllRegular(tree) <==> AllRegular(front) && (Wanted(t) ==> RegularFile(t.kind, t.mode)))
            && (AllDecodable(tree) <==> AllDecodable(front) && Decodable(t.path))
            && (Wanted(t) ==> t.kind != "tree")
  {
    var front, t := tree[..|tree| - 1], tree[|tree| - 1];
    assert t in tree;
    assert forall u | u in tree :: u in front || u == t;
  }
}
