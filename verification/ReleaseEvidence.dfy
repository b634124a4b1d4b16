// build_report: run every evidence gate of a release candidate, in order, whatever fails.
module ReleaseEvidence {
  import opened Options
  import opened JsonValues
  import PerformanceEvidence
  import Text

  const INPUTS := ["android_apk", "android_report", "attestations", "bindings", "ci_artifacts", "ci_run",
                   "performance_report", "recovery_report", "scanner_report", "scanner_reports_dir"]
  const BOUND := ["recovery_report", "scanner_report", "performance_report"]
  const SCANNERS := ["ruff", "pyright", "bandit", "gitleaks", "pip_audit", "format"]
  const HUMAN := ["android_device", "windows_desktop", "web_roles", "security_review", "repository_governance",
                  "operational_setup", "performance_acceptance"]

  function Supports(gate: string): set<string> {
    if gate == "android_device" then {"android_report", "android_apk", "ci_run"}
    else if gate == "security_review" then {"scanner_report", "ci_run"}
    else if gate == "operational_setup" then {"recovery_report"}
    else if gate == "performance_acceptance" then {"performance_report"}
    else {"ci_run"}
  }

  datatype Gate =
    | SourceGate
    | InputsGate
    | InputGate(name: string)
    | CiGate
    | AndroidGate
    | SigningGate
    | RecoveryGate
    | ScannerGate
    | PerformanceGate
    | BindingGate(name: string)
    | HumanGate(name: string)

  function InputGates(names: seq<string>): (r: seq<Gate>)
    ensures |r| == |names| && forall i | 0 <= i < |r| :: r[i] == InputGate(names[i])
  {
    seq(|names|, i requires 0 <= i < |names| => InputGate(names[i]))
  }

  function BindingGates(names: seq<string>): (r: seq<Gate>)
    ensures |r| == |names| && forall i | 0 <= i < |r| :: r[i] == BindingGate(names[i])
  {
    seq(|names|, i requires 0 <= i < |names| => BindingGate(names[i]))
  }

  function HumanGates(names: seq<string>): (r: seq<Gate>)
    ensures |r| == |names| && forall i | 0 <= i < |r| :: r[i] == HumanGate(names[i])
  {
    seq(|names|, i requires 0 <= i < |names| => HumanGate(names[i]))
  }

  const VALIDATORS := [CiGate, AndroidGate, SigningGate, RecoveryGate, ScannerGate, PerformanceGate]

  function Gates(): seq<Gate> {
    [SourceGate, InputsGate] + InputGates(INPUTS) + VALIDATORS + BindingGates(BOUND) + HumanGates(HUMAN)
  }

  // A path on disk: None is an exception of the file system or of JSON.
  datatype OnDisk = OnDisk(digest: Option<string>, json: Option<Json>, directory: bool)

  // Everything outside the engine, fixed while it runs. A validator answers false for an
  // evidence error and for every exception the engine turns into a blocked gate.
  datatype World = World(
    expected: string,
    head: Option<string>, clean: bool, tree: Option<string>,
    inputsFile: Option<Json>, inputsDigest: Option<string>,
    disk: string -> OnDisk,
    ciOk: (Json, Json) -> bool,
    androidOk: (Json, string) -> bool,
    recoveryOk: Json -> bool,
    scannerResult: string -> Option<Json>, baselineDigest: Option<string>, rawDigest: string -> Option<string>,
    dated: Json -> bool,
    bindingOk: (string, Json, Json, string, string) -> bool,
    referenceOk: Json -> bool)

  datatype FileKey = InputsFile | InputFile(name: string) | ScannerBaseline | RawScanner(tool: string)

  datatype Check = Check(gate: Gate, passed: bool)

  // What the gates share: the report's files, the loaded documents, the resolved paths, the tree
  // of the candidate and the accepted attestations.
  datatype Shared = Shared(files: map<FileKey, string>, data: map<string, Json>, paths: map<string, string>,
                           tree: string, attested: seq<string>)

  datatype Step = Step(passed: bool, shared: Shared)

  // ----- The gates -----

  function RunSource(w: World, s: Shared): Step {
    if !IsHex(w.expected, 40) || w.expected == ZEROS || w.head != Some(w.expected) || !w.clean || w.tree.None? then Step(false, s)
    else Step(true, s.(tree := w.tree.value))
  }

  const ZEROS := "0000000000000000000000000000000000000000"

  predicate InputsShape(inputs: Json) {
    && inputs.JObj?
    && Same(Get(inputs.fields, "schema_version"), JInt(1))
    && Get(inputs.fields, "template_only") == JBool(false)
    && (forall k | k in inputs.fields :: k in INPUTS || k == "schema_version" || k == "template_only")
  }

  // The input list is shared before its digest is taken.
  function RunInputs(w: World, s: Shared): Step {
    if w.inputsFile.None? || !InputsShape(w.inputsFile.value) then Step(false, s)
    else
      var loaded := s.(data := s.data["inputs" := w.inputsFile.value]);
      if w.inputsDigest.None? then Step(false, loaded)
      else Step(true, loaded.(files := loaded.files[InputsFile := w.inputsDigest.value]))
  }

  // Nothing is left of the text once blanks are stripped.
  predicate OnlyBlanks(s: string) {
    forall i | 0 <= i < |s| :: Text.IsBlank(s[i])
  }

  function Named(data: map<string, Json>, name: string): Option<string> {
    if "inputs" !in data || !data["inputs"].JObj? then None
    else
      var value := Get(data["inputs"].fields, name);
      if value.JStr? && !OnlyBlanks(value.s) then Some(value.s) else None
  }

  // The path and the digest of an input are recorded before its document is read.
  function RunInput(w: World, s: Shared, name: string): Step {
    var path := Named(s.data, name);
    if path.None? then Step(false, s)
    else
      var found := s.(paths := s.paths[name := path.value]);
      var entry := w.disk(path.value);
      if name == "scanner_reports_dir" then Step(entry.directory, found)
      else if entry.digest.None? then Step(false, found)
      else
        var digested := found.(files := found.files[InputFile(name) := entry.digest.value]);
        if name == "android_apk" then Step(true, digested)
        else if entry.json.None? || !entry.json.value.JObj? then Step(false, digested)
        else Step(true, digested.(data := digested.data[name := entry.json.value]))
  }

  predicate ReleaseSigned(android: Json) {
    && android.JObj?
    && Get(android.fields, "build_mode") == JStr("release") && Get(android.fields, "status") == JStr("signed_candidate")
    && Get(android.fields, "debuggable") == JBool(false)
    && var certificate := Get(android.fields, "certificate_sha256");
    && certificate.JStr? && IsHex(certificate.s, 64) && Get(android.fields, "expected_certificate_sha256") == certificate
  }

  predicate AcceptsScanner(w: World, s: Shared) {
    && "scanner_reports_dir" in s.paths && "scanner_report" in s.data
    && var result := w.scannerResult(s.paths["scanner_reports_dir"]);
    && result.Some? && Field(result.value, "status") == JStr("passed")
    && Same(s.data["scanner_report"], result.value)
  }

  datatype RawRecord = RawRecord(passed: bool, files: map<FileKey, string>)

  // The raw reports are digested one after another, up to the first that cannot be read.
  function RecordRaw(w: World, files: map<FileKey, string>, tools: seq<string>): RawRecord {
    if tools == [] then RawRecord(true, files)
    else
      var front, last := RecordRaw(w, files, tools[..|tools| - 1]), tools[|tools| - 1];
      if !front.passed || w.rawDigest(last).None? then RawRecord(false, front.files)
      else RawRecord(true, front.files[RawScanner(last) := w.rawDigest(last).value])
  }

  function RunScanner(w: World, s: Shared): Step {
    if !AcceptsScanner(w, s) || w.baselineDigest.None? then Step(false, s)
    else
      var r := RecordRaw(w, s.files[ScannerBaseline := w.baselineDigest.value], SCANNERS);
      Step(r.passed, s.(files := r.files))
  }

  predicate AcceptsBinding(w: World, s: Shared, name: string) {
    && "bindings" in s.data && name in s.data && InputFile(name) in s.files
    && w.bindingOk(name, s.data["bindings"], s.data[name], s.files[InputFile(name)], s.tree)
  }

  // The hashes a person accepted are exactly those of the supporting files.
  predicate HashesMatch(hashes: Json, supports: set<string>, files: map<FileKey, string>) {
    && hashes.JObj? && hashes.fields.Keys == supports
    && forall n | n in supports :: InputFile(n) in files && hashes.fields[n] == JStr(files[InputFile(n)])
  }

  predicate EntryAccepted(w: World, gate: string, entry: Json) {
    && entry.JObj?
    && Get(entry.fields, "outcome") == JStr("accepted")
    && Get(entry.fields, "source_sha") == JStr(w.expected)
    && w.dated(Get(entry.fields, "reviewed_at")) && w.referenceOk(Get(entry.fields, "review_ref"))
    && (gate == "performance_acceptance" ==>
          && Get(entry.fields, "backend_source_sha") == JStr(w.expected)
          && Get(entry.fields, "environment_class") == JStr("isolated_production_like"))
  }

  predicate AcceptsHuman(w: World, s: Shared, gate: string) {
    && "attestations" in s.data
    && var entry := Field(s.data["attestations"], gate);
    && EntryAccepted(w, gate, entry) && HashesMatch(Get(entry.fields, "evidence_sha256"), Supports(gate), s.files)
  }

  function RunGate(w: World, s: Shared, g: Gate): Step {
    match g
    case SourceGate => RunSource(w, s)
    case InputsGate => RunInputs(w, s)
    case InputGate(name) => RunInput(w, s, name)
    case CiGate => Step("ci_run" in s.data && "ci_artifacts" in s.data && w.ciOk(s.data["ci_run"], s.data["ci_artifacts"]), s)
    case AndroidGate =>
      Step("android_report" in s.data && "android_apk" in s.paths
           && w.androidOk(s.data["android_report"], s.paths["android_apk"]), s)
    case SigningGate => Step("android_report" in s.data && ReleaseSigned(s.data["android_report"]), s)
    case RecoveryGate => Step("recovery_report" in s.data && w.recoveryOk(s.data["recovery_report"]), s)
    case ScannerGate => RunScanner(w, s)
    case PerformanceGate =>
      Step("performance_report" in s.data && PerformanceEvidence.Accepted(s.data["performance_report"], w.dated), s)
    case BindingGate(name) => Step(AcceptsBinding(w, s, name), s)
    case HumanGate(name) =>
      if AcceptsHuman(w, s, name) then Step(true, s.(attested := s.attested + [name])) else Step(false, s)
  }

  // ----- The report -----

  const NOTHING := Shared(map[], map[], map[], "", [])

  function SharedAfter(w: World, gates: seq<Gate>): Shared {
    if gates == [] then NOTHING
    else RunGate(w, SharedAfter(w, gates[..|gates| - 1]), gates[|gates| - 1]).shared
  }

  function Passed(w: World, gates: seq<Gate>, i: nat): bool
    requires i < |gates|
  {
    RunGate(w, SharedAfter(w, gates[..i]), gates[i]).passed
  }

  datatype Report = Report(ready: bool, checks: seq<Check>, blocked: seq<Gate>, files: map<FileKey, string>, attested: seq<string>)

  function Blocked(checks: seq<Check>): seq<Gate> {
    if checks == [] then []
    else
      var front, last := Blocked(checks[..|checks| - 1]), checks[|checks| - 1];
      if last.passed then front else front + [last.gate]
  }

  class ReportBuilder {
    const w: World
    var checks: seq<Check>
    var shared: Shared
    ghost var ran: seq<Gate>

    ghost predicate Valid()
      reads this
    {
      && shared == SharedAfter(w, ran) && |checks| == |ran|
      && forall i | 0 <= i < |ran| :: checks[i] == Check(ran[i], Passed(w, ran, i))
    }

    constructor (w: World)
      ensures Valid() && this.w == w && ran == []
    {
      this.w, checks, shared, ran := w, [], NOTHING, [];
    }

    // One gate: a failure is recorded and the next gate runs all the same.
    method RunCheck(g: Gate)
      requires Valid()
      modifies this
      ensures Valid() && ran == old(ran) + [g]
    {
      hide RunGate;
      var step := RunGate(w, shared, g);
      ran := ran + [g];
      assert ran[..|ran| - 1] == old(ran);
      forall i | 0 <= i < |ran| - 1 ensures Passed(w, ran, i) == Passed(w, old(ran), i) {
        assert ran[..i] == old(ran)[..i];
      }
      shared := step.shared;
      checks := checks + [Check(g, step.passed)];
    }

    method BuildReport() returns (r: Report)
      requires Valid() && ran == []
      modifies this
      ensures Valid() && ran == Gates()
      ensures r == Report(Blocked(checks) == [], checks, Blocked(checks), shared.files, shared.attested)
    {
      hide SharedAfter, Passed, InputGates, BindingGates, HumanGates, Blocked;
      RunCheck(SourceGate);
      RunCheck(InputsGate);
      assert ran == [SourceGate, InputsGate];
      RunAll(InputGates(INPUTS));
      RunAll(VALIDATORS);
      RunAll(BindingGates(BOUND));
      RunAll(HumanGates(HUMAN));
      var blocked := Blocked(checks);
      r := Report(blocked == [], checks, blocked, shared.files, shared.attested);
    }

    method RunAll(gates: seq<Gate>)
      requires Valid()
      modifies this
      ensures Valid() && ran == old(ran) + gates
    {
      hide SharedAfter, Passed;
      for i := 0 to |gates|
        invariant Valid() && ran == old(ran) + gates[..i]
      {
        RunCheck(gates[i]);
        assert gates[..i + 1] == gates[..i] + [gates[i]];
      }
      assert gates[..|gates|] == gates;
    }
  }
}
