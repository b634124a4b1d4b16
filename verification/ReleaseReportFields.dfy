// The remaining release gates and the files a report lists, on the documents and the disk.
module ReleaseReportFields {
  import opened Options
  import opened JsonValues
  import opened JsonMembers
  import opened ReleaseEvidence
  import opened ReleaseEvidenceSafety
  import opened ReleaseEvidenceFields
  import PerformanceEvidence
  import PerformanceFields

  lemma InputsGateIff(w: World)
    ensures GateOk(w, InputsGate) <==> w.inputsFile.Some? && FilledTemplate(w.inputsFile.value) && w.inputsDigest.Some?
  {
    if w.inputsFile.Some? { TemplateIff(w.inputsFile.value); }
    hide InputsShape, FilledTemplate;
  }

  // A loader passes on a directory, a file or an object, as its input asks for.
  lemma InputGateIff(w: World, name: string)
    ensures GateOk(w, InputGate(name)) <==>
            if name == "scanner_reports_dir" then exists path :: NamesFile(w, name, path) && w.disk(path).directory
            else if name == "android_apk" then exists digest :: FileHas(w, name, digest)
            else exists document :: DocumentHas(w, name, document)
  {
    hide PathOf, NamesFile, DigestOf, DocumentOf, FileHas, DocumentHas;
    forall path ensures PathOf(w, name) == Some(path) <==> NamesFile(w, name, path) { PathIff(w, name, path); }
    forall digest ensures DigestOf(w, name) == Some(digest) <==> FileHas(w, name, digest) { FileIff(w, name, digest); }
    forall document ensures DocumentOf(w, name) == Some(document) <==> DocumentHas(w, name, document) {
      DocumentIff(w, name, document);
    }
    if PathOf(w, name).Some? { assert NamesFile(w, name, PathOf(w, name).value); }
    if DigestOf(w, name).Some? { assert FileHas(w, name, DigestOf(w, name).value); }
    if DocumentOf(w, name).Some? { assert DocumentHas(w, name, DocumentOf(w, name).value); }
  }

  lemma DocumentWitness(w: World, name: string)
    ensures DocumentOf(w, name).Some? <==> exists document :: DocumentHas(w, name, document)
    ensures forall document :: DocumentOf(w, name) == Some(document) <==> DocumentHas(w, name, document)
  {
    hide DocumentOf, DocumentHas;
    forall document ensures DocumentOf(w, name) == Some(document) <==> DocumentHas(w, name, document) {
      DocumentIff(w, name, document);
    }
    if DocumentOf(w, name).Some? { assert DocumentHas(w, name, DocumentOf(w, name).value); }
  }

  lemma CiGateIff(w: World)
    ensures GateOk(w, CiGate) <==>
            exists run, artifacts :: DocumentHas(w, "ci_run", run) && DocumentHas(w, "ci_artifacts", artifacts) && w.ciOk(run, artifacts)
  {
    hide DocumentOf, DocumentHas;
    DocumentWitness(w, "ci_run");
    DocumentWitness(w, "ci_artifacts");
  }

  lemma AndroidGateIff(w: World)
    ensures GateOk(w, AndroidGate) <==>
            exists report, apk :: DocumentHas(w, "android_report", report) && NamesFile(w, "android_apk", apk) && w.androidOk(report, apk)
  {
    hide DocumentOf, DocumentHas, PathOf, NamesFile;
    DocumentWitness(w, "android_report");
    forall path ensures PathOf(w, "android_apk") == Some(path) <==> NamesFile(w, "android_apk", path) {
      PathIff(w, "android_apk", path);
    }
  }

  lemma RecoveryGateIff(w: World)
    ensures GateOk(w, RecoveryGate) <==> exists report :: DocumentHas(w, "recovery_report", report) && w.recoveryOk(report)
  {
    hide DocumentOf, DocumentHas;
    DocumentWitness(w, "recovery_report");
  }

  lemma PerformanceGateIff(w: World)
    ensures GateOk(w, PerformanceGate) <==>
            exists report :: DocumentHas(w, "performance_report", report) && PerformanceFields.AcceptableReport(report, w.dated)
  {
    hide DocumentOf, DocumentHas, PerformanceEvidence.Accepted, PerformanceFields.AcceptableReport;
    DocumentWitness(w, "performance_report");
    forall report ensures PerformanceEvidence.Accepted(report, w.dated) <==> PerformanceFields.AcceptableReport(report, w.dated) {
      PerformanceFields.AcceptedIff(report, w.dated);
    }
  }

  // The binding of a report is validated with its digest and, if the source gate passed, the tree.
  lemma BindingGateIff(w: World, name: string)
    ensures GateOk(w, BindingGate(name)) <==>
            exists bindings, report, digest ::
              && DocumentHas(w, "bindings", bindings) && DocumentHas(w, name, report) && FileHas(w, name, digest)
              && w.bindingOk(name, bindings, report, digest, if CandidateIsCheckedOut(w) then w.tree.value else "")
  {
    SourceGateIff(w);
    DocumentsHaveDigests(w, name);
    hide DocumentOf, DocumentHas, DigestOf, FileHas, CandidateIsCheckedOut, SourceOk;
    DocumentWitness(w, "bindings");
    DocumentWitness(w, name);
    forall digest ensures DigestOf(w, name) == Some(digest) <==> FileHas(w, name, digest) { FileIff(w, name, digest); }
  }

  ghost predicate RawReports(w: World) {
    && w.rawDigest("ruff").Some? && w.rawDigest("pyright").Some? && w.rawDigest("bandit").Some?
    && w.rawDigest("gitleaks").Some? && w.rawDigest("pip_audit").Some? && w.rawDigest("format").Some?
  }

  // The comparison computed from the raw reports passed, and is the one handed in.
  lemma ScannerGateIff(w: World)
    ensures GateOk(w, ScannerGate) <==>
            && RawReports(w) && w.baselineDigest.Some?
            && exists directory, report, result ::
                 && NamesFile(w, "scanner_reports_dir", directory) && DocumentHas(w, "scanner_report", report)
                 && w.scannerResult(directory) == Some(result) && result.JObj? && Has(result.fields, "status", JStr("passed"))
                 && WithFloats(report) == WithFloats(result)
  {
    RawIff(w);
    hide DocumentOf, DocumentHas, PathOf, NamesFile, Same, RawReadable, RawReports;
    DocumentWitness(w, "scanner_report");
    forall path ensures PathOf(w, "scanner_reports_dir") == Some(path) <==> NamesFile(w, "scanner_reports_dir", path) {
      PathIff(w, "scanner_reports_dir", path);
    }
    forall a, b ensures Same(a, b) <==> WithFloats(a) == WithFloats(b) { SameIff(a, b); }
    hide WithFloats;
  }

  lemma RawIff(w: World)
    ensures RawReadable(w, SCANNERS) <==> RawReports(w)
  {
    if RawReadable(w, SCANNERS) {
      assert SCANNERS[0] == "ruff" && SCANNERS[1] == "pyright" && SCANNERS[2] == "bandit" && SCANNERS[3] == "gitleaks";
      assert SCANNERS[4] == "pip_audit" && SCANNERS[5] == "format";
    }
  }

  // ----- The files of a report -----

  ghost predicate SameOthers(a: map<FileKey, string>, b: map<FileKey, string>) {
    forall k: FileKey | !k.InputFile? :: (k in a <==> k in b) && (k in a && k in b ==> a[k] == b[k])
  }

  lemma GateKeepsOthers(w: World, s: Shared, g: Gate)
    requires Ordinary(g) && g != ScannerGate
    ensures SameOthers(s.files, RunGate(w, s, g).shared.files)
  {
    hide RunScanner, AcceptsBinding, AcceptsHuman, ReleaseSigned, PerformanceEvidence.Accepted, Named;
  }

  lemma {:induction false} OthersStay(w: World, before: seq<Gate>, rest: seq<Gate>)
    requires forall g | g in rest :: Ordinary(g) && g != ScannerGate
    ensures SameOthers(SharedAfter(w, before).files, SharedAfter(w, before + rest).files)
  {
    hide RunGate, Ordinary;
    if rest == [] {
      assert before + rest == before;
    } else {
      var n := |rest| - 1;
      assert (before + rest)[..|before| + n] == before + rest[..n] && (before + rest)[|before| + n] == rest[n];
      assert rest[n] in rest;
      OthersStay(w, before, rest[..n]);
      GateKeepsOthers(w, SharedAfter(w, before + rest[..n]), rest[n]);
    }
  }

  // Of the inputs exactly those that are files, with their digests; the input template with its
  // own, once it is filled in; and with the scanner gate passed the baseline and the six raw reports.
  lemma ReportListsTheFiles(w: World)
    ensures var files := SharedAfter(w, Gates()).files;
            && (forall name, digest | InputName(name) :: InputFile(name) in files && files[InputFile(name)] == digest <==> FileHas(w, name, digest))
            && (GateOk(w, InputsGate) ==> InputsFile in files && w.inputsDigest == Some(files[InputsFile]))
            && (GateOk(w, ScannerGate) ==>
                  && ScannerBaseline in files && w.baselineDigest == Some(files[ScannerBaseline])
                  && SixRawListed(w, files))
  {
    var gates := Gates();
    hide Gates, SharedAfter, GateOk, FileHas, SixRawListed, InputName;
    InputFilesListed(w);
    OpeningFile(w);
    ScannerFiles(w);
    GatesAround();
    OthersStay(w, OPENING, gates[2..16]);
    assert OPENING + gates[2..16] == gates[..16];
    OthersStay(w, gates[..17], gates[17..]);
    assert gates[..17] + gates[17..] == gates;
    RawOutlives(w, SharedAfter(w, gates[..17]).files, SharedAfter(w, gates).files);
  }

  ghost predicate RawListed(w: World, files: map<FileKey, string>, tool: string) {
    RawScanner(tool) in files && w.rawDigest(tool) == Some(files[RawScanner(tool)])
  }

  ghost predicate SixRawListed(w: World, files: map<FileKey, string>) {
    && RawListed(w, files, "ruff") && RawListed(w, files, "pyright") && RawListed(w, files, "bandit")
    && RawListed(w, files, "gitleaks") && RawListed(w, files, "pip_audit") && RawListed(w, files, "format")
  }

  lemma RawOutlives(w: World, a: map<FileKey, string>, b: map<FileKey, string>)
    requires SameOthers(a, b)
    ensures SixRawListed(w, a) ==> SixRawListed(w, b)
  {
  }

  lemma GateCount()
    ensures |Gates()| == 28
  {
  }

  lemma GatesAround()
    ensures |Gates()| == 28 && Gates()[..2] == OPENING && Gates()[16] == ScannerGate
    ensures forall g | g in Gates()[2..16] || g in Gates()[17..] :: Ordinary(g) && g != ScannerGate
  {
    GateCount();
    hide Gates, Ordinary;
    SegmentOf(0);
    SegmentOf(1);
    SegmentOf(16);
    forall i: nat | i < 28 && i >= 2 && i != 16 ensures Ordinary(Gates()[i]) && Gates()[i] != ScannerGate {
      GatesShape(i);
      GatesAreDistinct(if i < 16 then i else 16, if i < 16 then 16 else i);
    }
  }

  lemma InputFilesListed(w: World)
    ensures var files := SharedAfter(w, Gates()).files;
            forall name, digest | InputName(name) :: InputFile(name) in files && files[InputFile(name)] == digest <==> FileHas(w, name, digest)
  {
    var gates := Gates();
    hide Gates, SharedAfter, FileHas, Ordinary, DigestOf, DataIs, PathsAre, InputName;
    GatesAround();
    SegmentOf(16);
    var rest := gates[2..];
    assert OPENING + rest == gates;
    forall g | g in rest ensures Ordinary(g) {
      var i :| 0 <= i < |rest| && rest[i] == g;
      GatesShape(i + 2);
    }
    RestDescribed(w, rest);
    LoadersRan();
    forall name, digest | InputName(name)
      ensures InputFile(name) in SharedAfter(w, gates).files && SharedAfter(w, gates).files[InputFile(name)] == digest <==> FileHas(w, name, digest)
    {
      InputNamesIff(name);
      FileIff(w, name, digest);
    }
  }

  lemma LoadersRan()
    ensures forall name | name in INPUTS :: InputGate(name) in Gates()[2..]
  {
    GateCount();
    hide Gates;
    SegmentOf(0);
    forall name | name in INPUTS ensures InputGate(name) in Gates()[2..] {
      var k :| 0 <= k < |INPUTS| && INPUTS[k] == name;
      SegmentOf(k + 2);
      assert Gates()[2..][k] == InputGate(name);
    }
  }

  lemma OpeningFile(w: World)
    ensures GateOk(w, InputsGate) ==>
              var files := SharedAfter(w, OPENING).files; InputsFile in files && w.inputsDigest == Some(files[InputsFile])
  {
    hide InputsShape, IsHex;
    assert OPENING[..1] == [SourceGate] && [SourceGate][..0] == [];
    assert SharedAfter(w, []) == NOTHING;
    assert SharedAfter(w, [SourceGate]) == RunSource(w, NOTHING).shared;
  }

  lemma ScannerFiles(w: World)
    ensures var before, files := SharedAfter(w, Gates()[..16]).files, SharedAfter(w, Gates()[..17]).files;
            && (InputsFile in before ==> InputsFile in files && files[InputsFile] == before[InputsFile])
            && (GateOk(w, ScannerGate) ==>
                  && ScannerBaseline in files && w.baselineDigest == Some(files[ScannerBaseline])
                  && SixRawListed(w, files))
  {
    hide Gates, RunScanner, GateOk, SixRawListed;
    GatesAround();
    EveryGateIsDecidedByTheFiles(w, 16);
    var before := Gates()[..16];
    assert Gates()[..17][..16] == before && Gates()[..17][16] == ScannerGate;
    ScannerRecords(w, SharedAfter(w, before));
  }

  lemma ScannerRecords(w: World, s: Shared)
    ensures var t := RunScanner(w, s); var files := t.shared.files;
            && (InputsFile in s.files ==> InputsFile in files && files[InputsFile] == s.files[InputsFile])
            && (t.passed ==>
                  && ScannerBaseline in files && w.baselineDigest == Some(files[ScannerBaseline])
                  && SixRawListed(w, files))
  {
    hide AcceptsScanner, RecordRaw;
    if w.baselineDigest.Some? {
      var files := s.files[ScannerBaseline := w.baselineDigest.value];
      RawDigestsAreRecorded(w, files, SCANNERS);
      RawKeepsOthers(w, files, SCANNERS);
      SixTools();
    }
  }

  lemma SixTools()
    ensures forall t :: t in SCANNERS <==> t == "ruff" || t == "pyright" || t == "bandit" || t == "gitleaks" || t == "pip_audit" || t == "format"
  {
    assert SCANNERS[0] == "ruff" && SCANNERS[1] == "pyright" && SCANNERS[2] == "bandit" && SCANNERS[3] == "gitleaks";
    assert SCANNERS[4] == "pip_audit" && SCANNERS[5] == "format";
  }

  lemma {:induction false} RawKeepsOthers(w: World, files: map<FileKey, string>, tools: seq<string>)
    ensures forall k: FileKey | !k.RawScanner? && k in files ::
              k in RecordRaw(w, files, tools).files && RecordRaw(w, files, tools).files[k] == files[k]
  {
    if tools != [] { RawKeepsOthers(w, files, tools[..|tools| - 1]); }
  }
}
