// Which manifests are accepted as a prior version and what the delta lists, on the members of the
// document and the letters of the names.
module VersionDeltaFields {
  import opened Options
  import opened Listing
  import opened Text
  import opened JsonValues
  import opened JsonMembers
  import opened VersionDelta
  import SourceManifest
  import SourceManifestFields

  // ----- The order of the lists -----

  // A proper prefix, or the smaller code point where the two first differ.
  ghost predicate Before(a: string, b: string) {
    || (|a| < |b| && b[..|a|] == a)
    || (exists i :: 0 <= i < |a| && i < |b| && a[..i] == b[..i] && a[i] < b[i])
  }

  lemma {:induction false} StringLeIff(a: string, b: string)
    ensures StringLe(a, b) <==> a == b || Before(a, b)
  {
    if a != [] && b != [] && a[0] == b[0] {
      var c, d := a[1..], b[1..];
      StringLeIff(c, d);
      assert a == [a[0]] + c && b == [b[0]] + d;
      if Before(c, d) {
        if i :| 0 <= i < |c| && i < |d| && c[..i] == d[..i] && c[i] < d[i] {
          assert a[..i + 1] == [a[0]] + c[..i] && b[..i + 1] == [b[0]] + d[..i] && a[i + 1] < b[i + 1];
        } else {
          assert b[..|a|] == [b[0]] + d[..|c|];
        }
      }
      if Before(a, b) { BeforeTail(a, b); }
    } else if a != [] && b != [] {
      assert a[..0] == b[..0];
    }
  }

  lemma BeforeTail(a: string, b: string)
    requires a != [] && b != [] && a[0] == b[0] && Before(a, b)
    ensures Before(a[1..], b[1..])
  {
    var c, d := a[1..], b[1..];
    if |a| < |b| && b[..|a|] == a {
      assert d[..|c|] == b[..|a|][1..];
    } else {
      var i :| 0 <= i < |a| && i < |b| && a[..i] == b[..i] && a[i] < b[i];
      assert i > 0;
      assert c[..i - 1] == a[..i][1..] && d[..i - 1] == b[..i][1..] && c[i - 1] < d[i - 1];
    }
  }

  ghost predicate InOrder(names: seq<string>) {
    forall i, j | 0 <= i < j < |names| :: Before(names[i], names[j])
  }

  lemma AscendingIsInOrder(names: seq<string>)
    requires Ascending(StringLe, names)
    ensures InOrder(names)
  {
    hide Before, StringLe;
    forall i, j | 0 <= i < j < |names| ensures Before(names[i], names[j]) { StringLeIff(names[i], names[j]); }
  }

  // ----- Prior versions -----

  // A source path, of parts between slashes that are neither empty nor "..", without a backslash.
  ghost predicate PlainPath(name: string) {
    && SourceManifestFields.SourcePath(name) && '\\' !in name
    && exists parts: seq<string> ::
         && parts != [] && Join(parts, '/') == name
         && forall i | 0 <= i < |parts| :: parts[i] != "" && parts[i] != ".." && '/' !in parts[i]
  }

  lemma PlainNameIff(name: string)
    ensures PlainName(name) <==> PlainPath(name)
  {
    hide Join, Split, SourceManifest.Relevant, SourceManifestFields.SourcePath;
    SourceManifestFields.SourcePathIff(name);
    JoinSplit(name, '/');
    if PlainName(name) {
      var parts := Split(name, '/');
      assert forall i | 0 <= i < |parts| :: parts[i] in parts;
    }
    if PlainPath(name) {
      var parts: seq<string> :| && parts != [] && Join(parts, '/') == name
                                && forall i | 0 <= i < |parts| :: parts[i] != "" && parts[i] != ".." && '/' !in parts[i];
      SplitJoin(parts, '/');
    }
  }

  // The member is printed as that many lower-case hexadecimal digits.
  ghost predicate HasHex(fields: map<string, Json>, key: string, n: nat) {
    key in fields && exists t :: HexDigits(t, n) && Prints(fields[key], t)
  }

  lemma HasHexIff(fields: map<string, Json>, key: string, n: nat)
    requires n > 0
    ensures HexText(GetText(fields, key), n) <==> HasHex(fields, key, n)
  {
    hide Prints, Str;
    if key in fields {
      forall t ensures Str(fields[key]) == Plain(t) <==> Prints(fields[key], t) { PrintsIff(fields[key], t); }
      if HexText(GetText(fields, key), n) { assert HexDigits(Str(fields[key]).text, n); }
    }
  }

  ghost predicate SourceVersion(previous: Json) {
    && previous.JObj?
    && Equals(previous.fields, "schema_version", 1.0)
    && Has(previous.fields, "kind", JStr("spina_bir_source_version"))
    && HasHex(previous.fields, "source_sha", 40)
    && HasObject(previous.fields, "files")
  }

  lemma HeaderIff(previous: Json)
    ensures ValidHeader(previous) <==> SourceVersion(previous)
  {
    hide Same, Equals, HasHex, HexText, GetText;
    if previous.JObj? {
      SameNumberIff(previous, "schema_version", 1);
      SameTextIff(Get(previous.fields, "kind"), "spina_bir_source_version");
      HasHexIff(previous.fields, "source_sha", 40);
    }
  }

  // A document is accepted as the prior version if and only if it is a source version whose files
  // all have a plain path and a record with a SHA-256.
  lemma PriorIsAcceptedIff(previous: Json, current: Version)
    ensures Compare(previous, current).Some? <==>
            && SourceVersion(previous)
            && forall n | n in previous.fields["files"].fields ::
                 && PlainPath(n) && previous.fields["files"].fields[n].JObj?
                 && HasHex(previous.fields["files"].fields[n].fields, "sha256", 64)
  {
    hide ValidHeader, SourceVersion, PlainName, PlainPath, HexText, HasHex, GetText, DeltaOf;
    HeaderIff(previous);
    if SourceVersion(previous) {
      VersionHasFiles(previous);
      forall n ensures PlainName(n) <==> PlainPath(n) { PlainNameIff(n); }
      forall fields ensures HexText(GetText(fields, "sha256"), 64) <==> HasHex(fields, "sha256", 64) { HasHexIff(fields, "sha256", 64); }
    }
  }

  lemma VersionHasFiles(previous: Json)
    requires SourceVersion(previous)
    ensures previous.JObj? && HasObject(previous.fields, "files")
    ensures ValidHeader(previous) && PriorFiles(previous) == previous.fields["files"].fields
  {
    HeaderIff(previous);
  }

  // ----- The delta -----

  // The record says of the file exactly its blob, digest, size and mode.
  ghost predicate Describes(record: Json, e: Entry) {
    && record.JObj? && record.fields.Keys == {"git_blob", "sha256", "bytes", "mode"}
    && record.fields["git_blob"] == JStr(e.blob) && record.fields["sha256"] == JStr(e.sha256)
    && record.fields["mode"] == JStr(e.mode) && Equals(record.fields, "bytes", e.size as real)
  }

  lemma UnchangedIff(record: Json, e: Entry)
    ensures Same(record, EntryJson(e)) <==> Describes(record, e)
  {
    var expected := EntryJson(e);
    assert expected.fields.Keys == {"git_blob", "sha256", "bytes", "mode"};
    if record.JObj? && record.fields.Keys == {"git_blob", "sha256", "bytes", "mode"} {
      MembersSame(record, e);
      hide Same, Describes, Equals;
      assert expected.fields["git_blob"] == JStr(e.blob) && expected.fields["sha256"] == JStr(e.sha256);
      assert expected.fields["bytes"] == JInt(e.size) && expected.fields["mode"] == JStr(e.mode);
      SameObjects(record, expected);
    }
  }

  lemma SameObjects(a: Json, b: Json)
    requires a.JObj? && b.JObj? && a.fields.Keys == b.fields.Keys == {"git_blob", "sha256", "bytes", "mode"}
    ensures Same(a, b) <==>
            && Same(a.fields["git_blob"], b.fields["git_blob"]) && Same(a.fields["sha256"], b.fields["sha256"])
            && Same(a.fields["bytes"], b.fields["bytes"]) && Same(a.fields["mode"], b.fields["mode"])
  {
    if Same(a.fields["git_blob"], b.fields["git_blob"]) && Same(a.fields["sha256"], b.fields["sha256"])
       && Same(a.fields["bytes"], b.fields["bytes"]) && Same(a.fields["mode"], b.fields["mode"]) {
      assert forall k | k in a.fields :: k == "git_blob" || k == "sha256" || k == "bytes" || k == "mode";
    } else {
      assert "git_blob" in a.fields && "sha256" in a.fields && "bytes" in a.fields && "mode" in a.fields;
    }
  }

  lemma MembersSame(record: Json, e: Entry)
    requires record.JObj? && record.fields.Keys == {"git_blob", "sha256", "bytes", "mode"}
    ensures Describes(record, e) <==>
            && Same(record.fields["git_blob"], JStr(e.blob)) && Same(record.fields["sha256"], JStr(e.sha256))
            && Same(record.fields["bytes"], JInt(e.size)) && Same(record.fields["mode"], JStr(e.mode))
  {
    SameTextIff(record.fields["git_blob"], e.blob);
    SameTextIff(record.fields["sha256"], e.sha256);
    SameTextIff(record.fields["mode"], e.mode);
    SameNumberIff(record, "bytes", e.size);
    hide Same, Equals;
  }

  // The delta of an accepted version: the commits of both sides, and in code point order the files
  // that are new, gone, and described otherwise.
  lemma DeltaListsTheFiles(previous: Json, current: Version)
    requires Compare(previous, current).Some?
    ensures previous.JObj? && "source_sha" in previous.fields && HasObject(previous.fields, "files")
    ensures var d, before, after := Compare(previous, current).value, previous.fields["files"].fields, current.files;
            && d.previous == previous.fields["source_sha"] && d.current == current.sha
            && InOrder(d.added) && InOrder(d.removed) && InOrder(d.changed)
            && (forall n :: n in d.added <==> n in after && n !in before)
            && (forall n :: n in d.removed <==> n in before && n !in after)
            && (forall n :: n in d.changed <==> n in before && n in after && !Describes(before[n], after[n]))
  {
    HeaderIff(previous);
    VersionHasFiles(previous);
    assert "source_sha" in previous.fields;
    hide Same, EntryJson, Describes, ValidHeader, SourceVersion, Sorted, Ascending, InOrder, ValidRecord, Describes;
    DeltaIsExact(previous, current);
    var d, before, after := Compare(previous, current).value, previous.fields["files"].fields, current.files;
    AscendingIsInOrder(d.added);
    AscendingIsInOrder(d.removed);
    AscendingIsInOrder(d.changed);
    forall n | n in before && n in after ensures Unchanged(before, after, n) <==> Describes(before[n], after[n]) {
      UnchangedIff(before[n], after[n]);
    }
  }
}
