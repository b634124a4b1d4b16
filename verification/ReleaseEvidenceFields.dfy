// The release gates on the members of the documents themselves.
module ReleaseEvidenceFields {
  import opened Options
  import opened JsonValues
  import opened JsonMembers
  import Text
  import opened ReleaseEvidence
  import opened ReleaseEvidenceSafety

  // ----- The source and the inputs -----

  ghost predicate CandidateIsCheckedOut(w: World) {
    && HexDigits(w.expected, 40) && (exists i :: 0 <= i < 40 && w.expected[i] != '0')
    && w.head == Some(w.expected) && w.clean && w.tree.Some?
  }

  lemma {:induction false} ZerosAreAllZero(s: string)
    requires |s| == 40
    ensures s == ZEROS <==> forall i | 0 <= i < 40 :: s[i] == '0'
  {
  }

  lemma SourceGateIff(w: World)
    ensures GateOk(w, SourceGate) <==> CandidateIsCheckedOut(w)
  {
    if |w.expected| == 40 { ZerosAreAllZero(w.expected); }
  }

  ghost predicate InputName(name: string) {
    || name == "android_apk" || name == "android_report" || name == "attestations" || name == "bindings"
    || name == "ci_artifacts" || name == "ci_run" || name == "performance_report" || name == "recovery_report"
    || name == "scanner_report" || name == "scanner_reports_dir"
  }

  // A filled-in template: version 1, no template any more, and no unknown member.
  ghost predicate FilledTemplate(inputs: Json) {
    && inputs.JObj?
    && Same(Member(inputs.fields, "schema_version"), JInt(1)) && Has(inputs.fields, "template_only", JBool(false))
    && forall k | k in inputs.fields :: InputName(k) || k == "schema_version" || k == "template_only"
  }

  lemma InputNamesIff(name: string)
    ensures name in INPUTS <==> InputName(name)
  {
    if InputName(name) {
      assert INPUTS[0] == "android_apk" && INPUTS[1] == "android_report" && INPUTS[2] == "attestations" && INPUTS[3] == "bindings";
      assert INPUTS[4] == "ci_artifacts" && INPUTS[5] == "ci_run" && INPUTS[6] == "performance_report" && INPUTS[7] == "recovery_report";
      assert INPUTS[8] == "scanner_report" && INPUTS[9] == "scanner_reports_dir";
    }
  }

  lemma TemplateIff(inputs: Json)
    ensures InputsShape(inputs) <==> FilledTemplate(inputs)
  {
    hide Same, InputName;
    forall name ensures name in INPUTS <==> InputName(name) { InputNamesIff(name); }
  }

  ghost predicate Blank(s: string) {
    forall i | 0 <= i < |s| :: s[i] == ' ' || 9 <= s[i] as int <= 13
  }

  // The input names the file at that path.
  ghost predicate NamesFile(w: World, name: string, path: string) {
    && w.inputsFile.Some? && FilledTemplate(w.inputsFile.value)
    && Has(w.inputsFile.value.fields, name, JStr(path)) && !Blank(path)
  }

  lemma PathIff(w: World, name: string, path: string)
    ensures PathOf(w, name) == Some(path) <==> NamesFile(w, name, path)
  {
    if w.inputsFile.Some? { TemplateIff(w.inputsFile.value); }
    hide InputsShape, FilledTemplate;
    assert OnlyBlanks(path) <==> Blank(path) by {
      forall i | 0 <= i < |path| ensures Text.IsBlank(path[i]) <==> path[i] == ' ' || 9 <= path[i] as int <= 13 {}
    }
  }

  // The input is a file with that digest, and with that document in it.
  ghost predicate FileHas(w: World, name: string, digest: string) {
    name != "scanner_reports_dir" && exists path :: NamesFile(w, name, path) && w.disk(path).digest == Some(digest)
  }

  ghost predicate DocumentHas(w: World, name: string, document: Json) {
    && name != "scanner_reports_dir" && name != "android_apk" && document.JObj?
    && exists path :: NamesFile(w, name, path) && w.disk(path).digest.Some? && w.disk(path).json == Some(document)
  }

  lemma FileIff(w: World, name: string, digest: string)
    ensures DigestOf(w, name) == Some(digest) <==> FileHas(w, name, digest)
  {
    hide PathOf, NamesFile;
    forall path ensures PathOf(w, name) == Some(path) <==> NamesFile(w, name, path) { PathIff(w, name, path); }
    if PathOf(w, name).Some? { assert NamesFile(w, name, PathOf(w, name).value); }
  }

  lemma DocumentIff(w: World, name: string, document: Json)
    ensures DocumentOf(w, name) == Some(document) <==> DocumentHas(w, name, document)
  {
    hide PathOf, NamesFile;
    forall path ensures PathOf(w, name) == Some(path) <==> NamesFile(w, name, path) { PathIff(w, name, path); }
    if PathOf(w, name).Some? { assert NamesFile(w, name, PathOf(w, name).value); }
  }

  // ----- Attestations -----

  ghost predicate Supporting(gate: string, name: string) {
    if gate == "android_device" then name == "android_report" || name == "android_apk" || name == "ci_run"
    else if gate == "security_review" then name == "scanner_report" || name == "ci_run"
    else if gate == "operational_setup" then name == "recovery_report"
    else if gate == "performance_acceptance" then name == "performance_report"
    else name == "ci_run"
  }

  // The person accepted this candidate at a date, by reference, on exactly the gate's files.
  ghost predicate AcceptedByAPerson(w: World, gate: string, entry: Json) {
    && entry.JObj?
    && Has(entry.fields, "outcome", JStr("accepted"))
    && Has(entry.fields, "source_sha", JStr(w.expected))
    && w.dated(Member(entry.fields, "reviewed_at")) && w.referenceOk(Member(entry.fields, "review_ref"))
    && (gate == "performance_acceptance" ==>
          Has(entry.fields, "backend_source_sha", JStr(w.expected))
          && Has(entry.fields, "environment_class", JStr("isolated_production_like")))
    && AcceptsExactlyTheFiles(w, gate, Member(entry.fields, "evidence_sha256"))
  }

  ghost predicate AcceptsExactlyTheFiles(w: World, gate: string, hashes: Json) {
    && hashes.JObj?
    && (forall name :: name in hashes.fields <==> Supporting(gate, name))
    && (forall name | name in hashes.fields :: hashes.fields[name].JStr? && FileHas(w, name, hashes.fields[name].s))
  }

  ghost predicate Attested(w: World, gate: string) {
    exists document: Json :: DocumentHas(w, "attestations", document) && gate in document.fields
                             && AcceptedByAPerson(w, gate, document.fields[gate])
  }

  lemma SupportsIff(gate: string, name: string)
    ensures name in Supports(gate) <==> Supporting(gate, name)
  {
  }

  lemma HashesIff(w: World, gate: string, hashes: Json)
    ensures HashesAreTheFiles(w, hashes, Supports(gate)) <==> AcceptsExactlyTheFiles(w, gate, hashes)
  {
    hide DigestOf, FileHas, Supports, Supporting;
    forall name ensures name in Supports(gate) <==> Supporting(gate, name) { SupportsIff(gate, name); }
    forall name, digest ensures DigestOf(w, name) == Some(digest) <==> FileHas(w, name, digest) { FileIff(w, name, digest); }
    if AcceptsExactlyTheFiles(w, gate, hashes) {
      assert hashes.fields.Keys == Supports(gate);
      forall n | n in Supports(gate) ensures DigestOf(w, n) == Some(hashes.fields[n].s) { assert n in hashes.fields; }
    }
  }

  lemma EntryIff(w: World, gate: string, entry: Json)
    ensures EntryAccepted(w, gate, entry) && HashesAreTheFiles(w, Get(entry.fields, "evidence_sha256"), Supports(gate))
            <==> AcceptedByAPerson(w, gate, entry)
  {
    hide HashesAreTheFiles, AcceptsExactlyTheFiles, Supports;
    if entry.JObj? { HashesIff(w, gate, Member(entry.fields, "evidence_sha256")); }
  }

  lemma AttestedIff(w: World, gate: string)
    ensures GateOk(w, HumanGate(gate)) <==> Attested(w, gate)
  {
    hide DocumentOf, EntryAccepted, HashesAreTheFiles, AcceptedByAPerson, Supports, NamesFile;
    forall d: Json ensures DocumentOf(w, "attestations") == Some(d) <==> DocumentHas(w, "attestations", d) {
      DocumentIff(w, "attestations", d);
    }
    if DocumentOf(w, "attestations").Some? {
      var document := DocumentOf(w, "attestations").value;
      EntryIff(w, gate, Field(document, gate));
      NullIsNoAttestation(w, gate);
      assert DocumentHas(w, "attestations", document);
      assert HumanOk(w, gate) <==> AcceptedByAPerson(w, gate, Field(document, gate));
      assert document.JObj? && (gate in document.fields ==> Field(document, gate) == document.fields[gate]);
    }
  }

  lemma NullIsNoAttestation(w: World, gate: string)
    ensures !AcceptedByAPerson(w, gate, JNull)
  {
  }

  // ----- Signing -----

  // A release build, signed, with the certificate that was expected.
  ghost predicate SignedRelease(android: Json) {
    && android.JObj?
    && Has(android.fields, "build_mode", JStr("release")) && Has(android.fields, "status", JStr("signed_candidate"))
    && Has(android.fields, "debuggable", JBool(false))
    && exists certificate :: HexDigits(certificate, 64) && Has(android.fields, "certificate_sha256", JStr(certificate))
                             && Has(android.fields, "expected_certificate_sha256", JStr(certificate))
  }

  lemma SignedIff(android: Json)
    ensures ReleaseSigned(android) <==> SignedRelease(android)
  {
    if ReleaseSigned(android) {
      var certificate := Get(android.fields, "certificate_sha256").s;
      assert HexDigits(certificate, 64);
    }
  }

  lemma SigningGateIff(w: World)
    ensures GateOk(w, SigningGate) <==> exists document: Json :: DocumentHas(w, "android_report", document) && SignedRelease(document)
  {
    hide DocumentOf, DocumentHas, ReleaseSigned, SignedRelease;
    forall d: Json ensures DocumentOf(w, "android_report") == Some(d) <==> DocumentHas(w, "android_report", d) {
      DocumentIff(w, "android_report", d);
    }
    forall d ensures ReleaseSigned(d) <==> SignedRelease(d) { SignedIff(d); }
    if DocumentOf(w, "android_report").Some? { assert DocumentHas(w, "android_report", DocumentOf(w, "android_report").value); }
  }

  // ----- The report -----

  // The gates, by name.
  lemma TheGates()
    ensures Gates() == [SourceGate, InputsGate, InputGate("android_apk"), InputGate("android_report"), InputGate("attestations"),
                        InputGate("bindings"), InputGate("ci_artifacts"), InputGate("ci_run"), InputGate("performance_report"),
                        InputGate("recovery_report"), InputGate("scanner_report"), InputGate("scanner_reports_dir"),
                        CiGate, AndroidGate, SigningGate, RecoveryGate, ScannerGate, PerformanceGate,
                        BindingGate("recovery_report"), BindingGate("scanner_report"), BindingGate("performance_report"),
                        HumanGate("android_device"), HumanGate("windows_desktop"), HumanGate("web_roles"),
                        HumanGate("security_review"), HumanGate("repository_governance"), HumanGate("operational_setup"),
                        HumanGate("performance_acceptance")]
  {
    forall i: nat | i < |Gates()| { SegmentOf(i); }
    assert |Gates()| == 28;
  }

  // In a ready report each of the seven attestations was accepted, on this candidate and its
  // files, and the Android build is a signed release.
  lemma ReadyIsAttestedAndSigned(w: World, checks: seq<Check>)
    requires Recorded(w, checks) && Blocked(checks) == []
    ensures forall g | g in ["android_device", "windows_desktop", "web_roles", "security_review", "repository_governance",
                             "operational_setup", "performance_acceptance"] :: Attested(w, g)
    ensures exists document: Json :: DocumentHas(w, "android_report", document) && SignedRelease(document)
    ensures CandidateIsCheckedOut(w)
  {
    hide GateOk, Gates, Recorded, Attested, DocumentHas, SignedRelease, CandidateIsCheckedOut;
    ReadyIffEveryGateAgrees(w, checks);
    SourceGateIff(w);
    SigningGateIff(w);
    TheGates();
    assert Gates()[0] in Gates() && Gates()[14] in Gates();
    forall g | g in HUMAN ensures Attested(w, g) {
      HumanIsAGate(g);
      AttestedIff(w, g);
    }
  }

  // An attestation of any other outcome blocks exactly its own gate: when all else is in order,
  // it is the one blocked gate.
  lemma OtherOutcomeBlocksItsGate(w: World, checks: seq<Check>, gate: string, document: Json)
    requires Recorded(w, checks) && gate in HUMAN
    requires DocumentHas(w, "attestations", document)
    requires gate in document.fields ==> !document.fields[gate].JObj? || !Has(document.fields[gate].fields, "outcome", JStr("accepted"))
    ensures HumanGate(gate) in Blocked(checks)
    ensures (forall g | g in Gates() && g != HumanGate(gate) :: GateOk(w, g)) ==> Blocked(checks) == [HumanGate(gate)]
  {
    hide GateOk, Gates, Recorded, Blocked, DocumentHas, AcceptsExactlyTheFiles;
    NotAttested(w, gate, document);
    AttestedIff(w, gate);
    hide Attested;
    ReadyIffEveryGateAgrees(w, checks);
    HumanIsAGate(gate);
    if forall g | g in Gates() && g != HumanGate(gate) :: GateOk(w, g) {
      BlockedOnce(w, checks, HumanGate(gate));
    }
  }

  lemma NotAttested(w: World, gate: string, document: Json)
    requires DocumentHas(w, "attestations", document)
    requires gate in document.fields ==> !document.fields[gate].JObj? || !Has(document.fields[gate].fields, "outcome", JStr("accepted"))
    ensures !Attested(w, gate)
  {
    hide DocumentHas, AcceptsExactlyTheFiles;
    forall d: Json | DocumentHas(w, "attestations", d) ensures d == document {
      DocumentIff(w, "attestations", d);
      DocumentIff(w, "attestations", document);
    }
  }

  lemma BlockedOnce(w: World, checks: seq<Check>, g: Gate)
    requires Recorded(w, checks) && g in Blocked(checks) && forall h | h in Blocked(checks) :: h == g
    ensures Blocked(checks) == [g]
  {
    hide Gates, Passed, Blocked;
    forall i, j | 0 <= i < j < |checks| ensures checks[i].gate != checks[j].gate { GatesAreDistinct(i, j); }
    hide Recorded;
    BlockedIsDistinct(checks);
    var b := Blocked(checks);
    assert forall i | 0 <= i < |b| :: b[i] in b;
    TwoDiffer(b);
  }

  lemma TwoDiffer(gates: seq<Gate>)
    requires forall i, j | 0 <= i < j < |gates| :: gates[i] != gates[j]
    ensures |gates| >= 2 ==> gates[0] != gates[1]
  {
  }

  lemma {:induction false} BlockedIsDistinct(checks: seq<Check>)
    requires forall i, j | 0 <= i < j < |checks| :: checks[i].gate != checks[j].gate
    ensures forall i, j | 0 <= i < j < |Blocked(checks)| :: Blocked(checks)[i] != Blocked(checks)[j]
  {
    if checks != [] {
      var n := |checks| - 1;
      var front := checks[..n];
      assert forall i | 0 <= i < n :: front[i] == checks[i];
      BlockedIsDistinct(front);
      BlockedAreTheFailed(front);
      forall k | 0 <= k < |Blocked(front)| ensures Blocked(front)[k] != checks[n].gate {
        assert Blocked(front)[k] in Blocked(front);
        var i :| 0 <= i < |front| && front[i].gate == Blocked(front)[k] && !front[i].passed;
        assert checks[i].gate != checks[n].gate;
      }
    }
  }
}
