// What the gate engine's shared state hides: each gate is decided by the files alone, and the
// candidate is ready exactly when all of them agree.
module ReleaseEvidenceSafety {
  import opened Options
  import opened JsonValues
  import PerformanceEvidence
  import opened ReleaseEvidence

  // ----- What the files say, without the engine -----

  predicate SourceOk(w: World) {
    IsHex(w.expected, 40) && w.expected != ZEROS && w.head == Some(w.expected) && w.clean && w.tree.Some?
  }

  predicate InputsLoaded(w: World) {
    w.inputsFile.Some? && InputsShape(w.inputsFile.value)
  }

  function PathOf(w: World, name: string): Option<string> {
    if InputsLoaded(w) then Named(map["inputs" := w.inputsFile.value], name) else None
  }

  function DigestOf(w: World, name: string): Option<string> {
    if PathOf(w, name).None? || name == "scanner_reports_dir" then None else w.disk(PathOf(w, name).value).digest
  }

  function DocumentOf(w: World, name: string): Option<Json> {
    if DigestOf(w, name).None? || name == "android_apk" then None
    else
      var json := w.disk(PathOf(w, name).value).json;
      if json.Some? && json.value.JObj? then json else None
  }

  predicate InputOk(w: World, name: string) {
    if name == "scanner_reports_dir" then PathOf(w, name).Some? && w.disk(PathOf(w, name).value).directory
    else if name == "android_apk" then DigestOf(w, name).Some?
    else DocumentOf(w, name).Some?
  }

  function TreeOf(w: World): string {
    if SourceOk(w) then w.tree.value else ""
  }

  predicate HashesAreTheFiles(w: World, hashes: Json, supports: set<string>) {
    && hashes.JObj? && hashes.fields.Keys == supports
    && forall n | n in supports :: DigestOf(w, n).Some? && hashes.fields[n] == JStr(DigestOf(w, n).value)
  }

  predicate HumanOk(w: World, gate: string) {
    && DocumentOf(w, "attestations").Some?
    && var entry := Field(DocumentOf(w, "attestations").value, gate);
    && EntryAccepted(w, gate, entry) && HashesAreTheFiles(w, Get(entry.fields, "evidence_sha256"), Supports(gate))
  }

  predicate RawReadable(w: World, tools: seq<string>) {
    forall t | t in tools :: w.rawDigest(t).Some?
  }

  predicate ScannerOk(w: World) {
    && PathOf(w, "scanner_reports_dir").Some? && DocumentOf(w, "scanner_report").Some?
    && var result := w.scannerResult(PathOf(w, "scanner_reports_dir").value);
    && result.Some? && Field(result.value, "status") == JStr("passed")
    && Same(DocumentOf(w, "scanner_report").value, result.value)
    && w.baselineDigest.Some? && RawReadable(w, SCANNERS)
  }

  predicate BindingOk(w: World, name: string) {
    && DocumentOf(w, "bindings").Some? && DocumentOf(w, name).Some?
    && w.bindingOk(name, DocumentOf(w, "bindings").value, DocumentOf(w, name).value, DigestOf(w, name).value, TreeOf(w))
  }

  // The gate, decided from the files alone.
  predicate GateOk(w: World, g: Gate) {
    match g
    case SourceGate => SourceOk(w)
    case InputsGate => InputsLoaded(w) && w.inputsDigest.Some?
    case InputGate(name) => InputOk(w, name)
    case CiGate =>
      DocumentOf(w, "ci_run").Some? && DocumentOf(w, "ci_artifacts").Some?
      && w.ciOk(DocumentOf(w, "ci_run").value, DocumentOf(w, "ci_artifacts").value)
    case AndroidGate =>
      DocumentOf(w, "android_report").Some? && PathOf(w, "android_apk").Some?
      && w.androidOk(DocumentOf(w, "android_report").value, PathOf(w, "android_apk").value)
    case SigningGate => DocumentOf(w, "android_report").Some? && ReleaseSigned(DocumentOf(w, "android_report").value)
    case RecoveryGate => DocumentOf(w, "recovery_report").Some? && w.recoveryOk(DocumentOf(w, "recovery_report").value)
    case ScannerGate => ScannerOk(w)
    case PerformanceGate =>
      DocumentOf(w, "performance_report").Some?
      && PerformanceEvidence.Accepted(DocumentOf(w, "performance_report").value, w.dated)
    case BindingGate(name) => BindingOk(w, name)
    case HumanGate(name) => HumanOk(w, name)
  }

  // ----- The state after the first two gates and some others -----

  const OPENING := [SourceGate, InputsGate]

  predicate Ordinary(g: Gate) {
    g != SourceGate && g != InputsGate && g != InputGate("inputs")
  }

  predicate AllOrdinary(rest: seq<Gate>) {
    forall g | g in rest :: Ordinary(g)
  }

  ghost predicate DataIs(w: World, rest: seq<Gate>, data: map<string, Json>) {
    && ("inputs" in data <==> InputsLoaded(w)) && (InputsLoaded(w) ==> data["inputs"] == w.inputsFile.value)
    && forall n | n != "inputs" :: (n in data <==> InputGate(n) in rest && DocumentOf(w, n).Some?)
                                   && (n in data ==> data[n] == DocumentOf(w, n).value)
  }

  ghost predicate PathsAre(w: World, rest: seq<Gate>, paths: map<string, string>) {
    forall n :: (n in paths <==> InputGate(n) in rest && PathOf(w, n).Some?) && (n in paths ==> paths[n] == PathOf(w, n).value)
  }

  ghost predicate FilesAre(w: World, rest: seq<Gate>, files: map<FileKey, string>) {
    forall n :: (InputFile(n) in files <==> InputGate(n) in rest && DigestOf(w, n).Some?)
                && (InputFile(n) in files ==> files[InputFile(n)] == DigestOf(w, n).value)
  }

  ghost predicate Describes(w: World, rest: seq<Gate>, s: Shared) {
    s.tree == TreeOf(w) && DataIs(w, rest, s.data) && PathsAre(w, rest, s.paths) && FilesAre(w, rest, s.files)
  }

  lemma OpeningDescribed(w: World)
    ensures Describes(w, [], SharedAfter(w, OPENING))
    ensures SharedAfter(w, OPENING).attested == []
    ensures Passed(w, OPENING, 0) == GateOk(w, SourceGate) && Passed(w, OPENING, 1) == GateOk(w, InputsGate)
  {
    hide InputsShape, IsHex, DocumentOf, DigestOf, PathOf;
    assert OPENING[..1] == [SourceGate] && [SourceGate][..0] == [] && OPENING[..0] == [];
    assert SharedAfter(w, []) == NOTHING;
    assert SharedAfter(w, [SourceGate]) == RunSource(w, NOTHING).shared;
  }

  lemma NamedIsPath(w: World, rest: seq<Gate>, data: map<string, Json>, name: string)
    requires DataIs(w, rest, data)
    ensures Named(data, name) == PathOf(w, name)
  {
    hide DocumentOf, OnlyBlanks, InputsShape;
  }

  lemma InputStep(w: World, rest: seq<Gate>, s: Shared, name: string)
    requires Describes(w, rest, s) && name != "inputs"
    ensures RunInput(w, s, name).passed == InputOk(w, name)
    ensures var t := RunInput(w, s, name).shared;
            && t.tree == s.tree && t.attested == s.attested
            && t.paths == (if PathOf(w, name).Some? then s.paths[name := PathOf(w, name).value] else s.paths)
            && t.files == (if DigestOf(w, name).Some? then s.files[InputFile(name) := DigestOf(w, name).value] else s.files)
            && t.data == (if DocumentOf(w, name).Some? then s.data[name := DocumentOf(w, name).value] else s.data)
  {
    hide DataIs, PathsAre, FilesAre, Named, TreeOf, InputsLoaded;
    NamedIsPath(w, rest, s.data, name);
  }

  lemma DataStep(w: World, rest: seq<Gate>, data: map<string, Json>, name: string)
    requires DataIs(w, rest, data) && name != "inputs"
    ensures DataIs(w, rest + [InputGate(name)], if DocumentOf(w, name).Some? then data[name := DocumentOf(w, name).value] else data)
  {
    hide DocumentOf, InputsLoaded;
  }

  lemma PathsStep(w: World, rest: seq<Gate>, paths: map<string, string>, name: string)
    requires PathsAre(w, rest, paths)
    ensures PathsAre(w, rest + [InputGate(name)], if PathOf(w, name).Some? then paths[name := PathOf(w, name).value] else paths)
  {
    hide PathOf;
  }

  lemma FilesStep(w: World, rest: seq<Gate>, files: map<FileKey, string>, name: string)
    requires FilesAre(w, rest, files)
    ensures FilesAre(w, rest + [InputGate(name)],
                     if DigestOf(w, name).Some? then files[InputFile(name) := DigestOf(w, name).value] else files)
  {
    hide DigestOf;
  }

  ghost predicate SameInputs(a: map<FileKey, string>, b: map<FileKey, string>) {
    forall n :: (InputFile(n) in a <==> InputFile(n) in b) && (InputFile(n) in a ==> a[InputFile(n)] == b[InputFile(n)])
  }

  // The raw digests go beside the inputs' and are all there exactly when each report can be read.
  lemma {:induction false} RawDigestsAreRecorded(w: World, files: map<FileKey, string>, tools: seq<string>)
    ensures var r := RecordRaw(w, files, tools);
            && (r.passed <==> RawReadable(w, tools)) && SameInputs(files, r.files)
            && (r.passed ==> forall t | t in tools :: RawScanner(t) in r.files && w.rawDigest(t) == Some(r.files[RawScanner(t)]))
  {
    if tools != [] {
      var front, last := tools[..|tools| - 1], tools[|tools| - 1];
      RawDigestsAreRecorded(w, files, front);
      assert forall t :: t in tools <==> t in front || t == last;
    }
  }

  lemma ScannerKeeps(w: World, s: Shared)
    ensures var t := RunScanner(w, s);
            && t.shared == s.(files := t.shared.files) && SameInputs(s.files, t.shared.files)
            && (t.passed <==> AcceptsScanner(w, s) && w.baselineDigest.Some? && RawReadable(w, SCANNERS))
  {
    hide AcceptsScanner, RecordRaw, RawReadable;
    if w.baselineDigest.Some? {
      RawDigestsAreRecorded(w, s.files[ScannerBaseline := w.baselineDigest.value], SCANNERS);
    }
  }

  // Gates other than the first two and the loaders change only the attestations and files that
  // are no inputs.
  lemma OtherKeeps(w: World, s: Shared, g: Gate)
    requires Ordinary(g) && !g.InputGate?
    ensures var t := RunGate(w, s, g).shared;
            t.data == s.data && t.paths == s.paths && t.tree == s.tree && SameInputs(s.files, t.files)
  {
    hide RunScanner, AcceptsBinding, AcceptsHuman, ReleaseSigned, PerformanceEvidence.Accepted;
    ScannerKeeps(w, s);
  }

  lemma OtherStep(w: World, rest: seq<Gate>, s: Shared, g: Gate)
    requires Describes(w, rest, s) && Ordinary(g) && !g.InputGate?
    ensures Describes(w, rest + [g], RunGate(w, s, g).shared)
  {
    hide DocumentOf, DigestOf, PathOf, InputsLoaded, TreeOf, RunGate;
    OtherKeeps(w, s, g);
    forall n ensures InputGate(n) in rest + [g] <==> InputGate(n) in rest {}
  }

  lemma StepDescribed(w: World, rest: seq<Gate>, s: Shared, g: Gate)
    requires Describes(w, rest, s) && Ordinary(g)
    ensures Describes(w, rest + [g], RunGate(w, s, g).shared)
  {
    hide DataIs, PathsAre, FilesAre, DocumentOf, DigestOf, PathOf, TreeOf, RunInput,
         RunScanner, AcceptsBinding, AcceptsHuman, ReleaseSigned;
    if g.InputGate? {
      InputStep(w, rest, s, g.name);
      DataStep(w, rest, s.data, g.name);
      PathsStep(w, rest, s.paths, g.name);
      FilesStep(w, rest, s.files, g.name);
    } else {
      OtherStep(w, rest, s, g);
    }
  }

  lemma {:induction false} RestDescribed(w: World, rest: seq<Gate>)
    requires AllOrdinary(rest)
    ensures Describes(w, rest, SharedAfter(w, OPENING + rest))
  {
    hide Describes, RunGate;
    if rest == [] {
      assert OPENING + rest == OPENING;
      OpeningDescribed(w);
    } else {
      var front, last := rest[..|rest| - 1], rest[|rest| - 1];
      assert (OPENING + rest)[..|rest| + 1] == OPENING + front && (OPENING + rest)[|rest| + 1] == last;
      assert last in rest;
      RestDescribed(w, front);
      StepDescribed(w, front, SharedAfter(w, OPENING + front), last);
      assert rest == front + [last];
    }
  }

  // ----- Every gate is decided by the files -----

  ghost predicate AllLoadersRan(rest: seq<Gate>) {
    forall n | n in INPUTS :: InputGate(n) in rest
  }

  predicate KnownGate(g: Gate) {
    match g
    case InputGate(name) => name in INPUTS
    case BindingGate(name) => name in BOUND
    case HumanGate(name) => name in HUMAN
    case _ => true
  }

  lemma ReportDecided(w: World, rest: seq<Gate>, s: Shared, g: Gate)
    requires Describes(w, rest, s) && AllLoadersRan(rest) && g in VALIDATORS && g != ScannerGate
    ensures RunGate(w, s, g).passed == GateOk(w, g)
  {
    hide DocumentOf, DigestOf, PathOf, InputsLoaded, TreeOf, ReleaseSigned, FilesAre, PerformanceEvidence.Accepted;
    assert InputGate("ci_run") in rest && InputGate("ci_artifacts") in rest && InputGate("android_report") in rest;
    assert InputGate("android_apk") in rest && InputGate("recovery_report") in rest && InputGate("performance_report") in rest;
  }

  lemma ScannerDecided(w: World, rest: seq<Gate>, s: Shared)
    requires Describes(w, rest, s) && AllLoadersRan(rest)
    ensures RunScanner(w, s).passed == ScannerOk(w)
  {
    ScannerKeeps(w, s);
    hide RunScanner, RawReadable, DocumentOf, DigestOf, PathOf, InputsLoaded, TreeOf, FilesAre, Same;
    assert InputGate("scanner_reports_dir") in rest && InputGate("scanner_report") in rest;
  }

  lemma BindingDecided(w: World, rest: seq<Gate>, s: Shared, name: string)
    requires Describes(w, rest, s) && AllLoadersRan(rest) && name in BOUND
    ensures AcceptsBinding(w, s, name) == BindingOk(w, name)
  {
    hide DocumentOf, DigestOf, PathOf, InputsLoaded, TreeOf, PathsAre;
    assert InputGate("bindings") in rest && InputGate(name) in rest;
    DocumentsHaveDigests(w, name);
  }

  lemma DocumentsHaveDigests(w: World, name: string)
    ensures DocumentOf(w, name).Some? ==> DigestOf(w, name).Some?
  {
  }

  lemma HumanDecided(w: World, rest: seq<Gate>, s: Shared, gate: string)
    requires Describes(w, rest, s) && AllLoadersRan(rest) && gate in HUMAN
    ensures AcceptsHuman(w, s, gate) == HumanOk(w, gate)
  {
    hide DocumentOf, DigestOf, PathOf, InputsLoaded, TreeOf, EntryAccepted;
    assert InputGate("attestations") in rest;
    SupportsAreInputs(gate);
    forall n | n in Supports(gate)
      ensures InputFile(n) in s.files <==> DigestOf(w, n).Some?
      ensures InputFile(n) in s.files ==> s.files[InputFile(n)] == DigestOf(w, n).value
    {
      assert InputGate(n) in rest;
    }
  }

  lemma SupportsAreInputs(gate: string)
    ensures forall n | n in Supports(gate) :: n in INPUTS && n != "scanner_reports_dir"
  {
  }

  lemma GateDecided(w: World, rest: seq<Gate>, g: Gate)
    requires AllOrdinary(rest) && Ordinary(g) && KnownGate(g) && (g.InputGate? || AllLoadersRan(rest))
    ensures RunGate(w, SharedAfter(w, OPENING + rest), g).passed == GateOk(w, g)
  {
    hide Describes, AcceptsHuman, HumanOk, RunScanner, ScannerOk, AcceptsBinding, BindingOk, SharedAfter, InputOk,
         RunInput, AllLoadersRan;
    RestDescribed(w, rest);
    var s := SharedAfter(w, OPENING + rest);
    if g.InputGate? {
      InputStep(w, rest, s, g.name);
    } else if g.HumanGate? {
      HumanDecided(w, rest, s, g.name);
    } else if g.BindingGate? {
      BindingDecided(w, rest, s, g.name);
    } else if g.ScannerGate? {
      ScannerDecided(w, rest, s);
    } else {
      ReportDecided(w, rest, s, g);
    }
  }

  lemma SegmentOf(i: nat)
    requires i < |Gates()|
    ensures |Gates()| == 28
    ensures Gates()[i] == (if i == 0 then SourceGate else if i == 1 then InputsGate
                           else if i < 12 then InputGate(INPUTS[i - 2]) else if i < 18 then VALIDATORS[i - 12]
                           else if i < 21 then BindingGate(BOUND[i - 18]) else HumanGate(HUMAN[i - 21]))
  {
  }

  lemma GatesShape(i: nat)
    requires i < |Gates()|
    ensures |Gates()| == 28 && KnownGate(Gates()[i])
    ensures i >= 2 ==> Ordinary(Gates()[i])
    ensures 2 <= i < 12 ==> Gates()[i] == InputGate(INPUTS[i - 2])
  {
    hide Gates;
    SegmentOf(i);
  }

  // The engine shares and updates its state between gates; all the same, every gate's outcome is
  // a function of the files alone, whatever other gates did.
  lemma EveryGateIsDecidedByTheFiles(w: World, i: nat)
    requires i < |Gates()|
    ensures Passed(w, Gates(), i) == GateOk(w, Gates()[i])
  {
    hide GateOk, RunGate, Gates, AllLoadersRan, Ordinary, KnownGate;
    GatesShape(i);
    SegmentOf(0);
    SegmentOf(1);
    var gates := Gates();
    if i < 2 {
      assert gates[..i] == OPENING[..i] && gates[i] == OPENING[i];
      OpeningDescribed(w);
    } else {
      var rest := gates[2..i];
      assert gates[..i] == OPENING + rest;
      forall g | g in rest ensures Ordinary(g) {
        var k :| 0 <= k < |rest| && rest[k] == g;
        GatesShape(k + 2);
      }
      if i >= 12 { LoadersFirst(i); }
      GateDecided(w, rest, gates[i]);
    }
  }

  lemma LoadersFirst(i: nat)
    requires 12 <= i < |Gates()|
    ensures AllLoadersRan(Gates()[2..i])
  {
    hide Gates, KnownGate, Ordinary;
    var rest := Gates()[2..i];
    forall n | n in INPUTS ensures InputGate(n) in rest {
      var k :| 0 <= k < |INPUTS| && INPUTS[k] == n;
      GatesShape(k + 2);
      assert rest[k] == InputGate(n);
    }
  }

  // ----- The report -----

  // The checks a build leaves: every gate once, in the fixed order, with its outcome.
  ghost predicate Recorded(w: World, checks: seq<Check>) {
    |checks| == |Gates()| && forall i | 0 <= i < |checks| :: checks[i] == Check(Gates()[i], Passed(w, Gates(), i))
  }

  lemma {:induction false} BlockedAreTheFailed(checks: seq<Check>)
    ensures forall g :: g in Blocked(checks) <==> exists i :: 0 <= i < |checks| && checks[i].gate == g && !checks[i].passed
    ensures Blocked(checks) == [] <==> forall i | 0 <= i < |checks| :: checks[i].passed
  {
    if checks != [] {
      var n := |checks| - 1;
      var front := checks[..n];
      BlockedAreTheFailed(front);
      if !checks[n].passed {
        assert Blocked(checks)[|Blocked(front)|] == checks[n].gate;
      } else {
        forall i | 0 <= i < |checks| && Blocked(checks) == [] ensures checks[i].passed {
          if i < n { assert front[i].passed; }
        }
      }
    }
  }

  // READY exactly when every gate agrees with the files; otherwise the blocked gates are the others.
  lemma ReadyIffEveryGateAgrees(w: World, checks: seq<Check>)
    requires Recorded(w, checks)
    ensures Blocked(checks) == [] <==> forall g | g in Gates() :: GateOk(w, g)
    ensures forall g :: g in Blocked(checks) <==> g in Gates() && !GateOk(w, g)
  {
    hide GateOk, Gates, Passed, Blocked;
    BlockedAreTheFailed(checks);
    forall i | 0 <= i < |checks| ensures checks[i] == Check(Gates()[i], GateOk(w, Gates()[i])) {
      EveryGateIsDecidedByTheFiles(w, i);
    }
    forall g ensures g in Blocked(checks) <==> g in Gates() && !GateOk(w, g) {
      if g in Gates() {
        var i :| 0 <= i < |Gates()| && Gates()[i] == g;
        assert checks[i] == Check(g, GateOk(w, g));
      }
    }
  }

  lemma GatesAreDistinct(i: nat, j: nat)
    requires i < j < |Gates()|
    ensures Gates()[i] != Gates()[j]
  {
    hide Gates;
    SegmentOf(i);
    SegmentOf(j);
  }

  // ----- Attestations -----

  function PassedHumans(checks: seq<Check>): seq<string> {
    if checks == [] then []
    else
      var front, last := PassedHumans(checks[..|checks| - 1]), checks[|checks| - 1];
      if last.passed && last.gate.HumanGate? then front + [last.gate.name] else front
  }

  // The attestations listed are those of the passed human gates, in order, for any gates run.
  lemma {:induction false} AttestationsAreThePassedHumans(w: World, gates: seq<Gate>, checks: seq<Check>)
    requires |checks| == |gates| && forall i | 0 <= i < |gates| :: checks[i] == Check(gates[i], Passed(w, gates, i))
    ensures SharedAfter(w, gates).attested == PassedHumans(checks)
  {
    hide RunGate;
    if gates != [] {
      var n := |gates| - 1;
      forall i | 0 <= i < n ensures checks[..n][i] == Check(gates[..n][i], Passed(w, gates[..n], i)) {
        assert gates[..n][..i] == gates[..i];
      }
      AttestationsAreThePassedHumans(w, gates[..n], checks[..n]);
      OneMoreAttestation(w, SharedAfter(w, gates[..n]), gates[n]);
    }
  }

  lemma OneMoreAttestation(w: World, s: Shared, g: Gate)
    ensures RunGate(w, s, g).shared.attested
            == if RunGate(w, s, g).passed && g.HumanGate? then s.attested + [g.name] else s.attested
  {
    hide AcceptsHuman, RunScanner, AcceptsBinding, ReleaseSigned, InputsShape, OnlyBlanks;
    ScannerKeeps(w, s);
  }

  // A gate that uses an input which did not load is blocked; an attestation needs only the
  // digests of its files, so it can pass beside the blocked loader of a malformed report.
  function Uses(g: Gate): set<string> {
    match g
    case CiGate => {"ci_run", "ci_artifacts"}
    case AndroidGate => {"android_report"}
    case SigningGate => {"android_report"}
    case RecoveryGate => {"recovery_report"}
    case ScannerGate => {"scanner_report"}
    case PerformanceGate => {"performance_report"}
    case BindingGate(name) => {"bindings", name}
    case HumanGate(_) => {"attestations"}
    case _ => {}
  }

  lemma UnloadedInputBlocksItsUsers(w: World, g: Gate, name: string)
    requires KnownGate(g) && name in Uses(g) && !GateOk(w, InputGate(name))
    ensures !GateOk(w, g)
  {
    hide DocumentOf, DigestOf, PathOf, ReleaseSigned, EntryAccepted, HashesAreTheFiles, Same, PerformanceEvidence.Accepted;
    assert name != "android_apk";
  }

  // The hash of an input in a person's attestation.
  function AcceptedHash(w: World, gate: string, name: string): Json {
    var document := DocumentOf(w, "attestations");
    if document.None? then JNull else Field(Field(Field(document.value, gate), "evidence_sha256"), name)
  }

  // In a ready report every person accepted the very bytes the report lists.
  lemma ReadyHashesAreTheFiles(w: World, checks: seq<Check>, gate: string, name: string)
    requires Recorded(w, checks) && Blocked(checks) == [] && gate in HUMAN && name in Supports(gate)
    ensures InputOk(w, name) && DigestOf(w, name).Some? && AcceptedHash(w, gate, name) == JStr(DigestOf(w, name).value)
  {
    hide Recorded, Blocked, EntryAccepted, Gates, InputOk, DocumentOf, DigestOf;
    ReadyIffEveryGateAgrees(w, checks);
    HumanIsAGate(gate);
    SupportsAreInputs(gate);
    InputIsAGate(name);
    assert GateOk(w, HumanGate(gate)) && GateOk(w, InputGate(name));
    EntryIsAnObject(w, gate);
  }

  lemma EntryIsAnObject(w: World, gate: string)
    requires HumanOk(w, gate)
    ensures Field(DocumentOf(w, "attestations").value, gate).JObj?
  {
  }

  lemma HumanIsAGate(gate: string)
    requires gate in HUMAN
    ensures HumanGate(gate) in Gates()
  {
    var i :| 0 <= i < |HUMAN| && HUMAN[i] == gate;
    SegmentOf(i + 21);
  }

  lemma InputIsAGate(name: string)
    requires name in INPUTS
    ensures InputGate(name) in Gates()
  {
    var i :| 0 <= i < |INPUTS| && INPUTS[i] == name;
    SegmentOf(i + 2);
  }
}
