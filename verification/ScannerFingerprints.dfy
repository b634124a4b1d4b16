// When two findings of one scanner are the same finding, and which source a path names, on the
// members and letters of the findings.
module ScannerFingerprints {
  import opened Options
  import opened ScannerRegression

  // The member as given, or the scanner's default for it.
  ghost predicate SameMember(a: Option<string>, b: Option<string>, default: string) {
    match (a, b)
    case (None, None) => true
    case (Some(s), None) => s == default
    case (None, Some(t)) => t == default
    case (Some(s), Some(t)) => s == t
  }

  // The same finding in everything but its line, with the files compared by the source they name.
  ghost predicate SameFinding(f: Finding, g: Finding) {
    match (f, g)
    case (Ruff(file, code, severity, message, _), Ruff(file', code', severity', message', _)) =>
      RelativeSource(file) == RelativeSource(file') && code == code' && SameMember(severity, severity', "error") && message == message'
    case (Pyright(file, rule, level, message, _), Pyright(file', rule', level', message', _)) =>
      RelativeSource(file) == RelativeSource(file') && SameMember(rule, rule', "") && level == level' && message == message'
    case (Bandit(file, test, severity, confidence, text, _), Bandit(file', test', severity', confidence', text', _)) =>
      && RelativeSource(file) == RelativeSource(file') && test == test' && severity == severity' && confidence == confidence'
      && text == text'
    case (Gitleaks(fingerprint, _), Gitleaks(fingerprint', _)) => fingerprint == fingerprint'
    case (PipAudit(name, version, id), PipAudit(name', version', id')) => name == name' && version == version' && id == id'
    case (Format(path), Format(path')) => RelativeSource(path) == RelativeSource(path')
    case _ => false
  }

  ghost predicate SameTool(f: Finding, g: Finding) {
    || (f.Ruff? && g.Ruff?) || (f.Pyright? && g.Pyright?) || (f.Bandit? && g.Bandit?) || (f.Gitleaks? && g.Gitleaks?)
    || (f.PipAudit? && g.PipAudit?) || (f.Format? && g.Format?)
  }

  // Two findings of one tool are counted together exactly when they are the same finding.
  lemma CountedTogetherIff(f: Finding, g: Finding)
    requires SameTool(f, g)
    ensures FingerprintOf(f) == FingerprintOf(g) <==> SameFinding(f, g)
    ensures Count([f]) == Count([g]) <==> SameFinding(f, g)
  {
    FingerprintsIff(f, g);
    CountOne(f);
    CountOne(g);
    hide FingerprintOf, SameFinding;
    if multiset{FingerprintOf(f)} == multiset{FingerprintOf(g)} { assert FingerprintOf(f) in multiset{FingerprintOf(g)}; }
  }

  lemma FingerprintsIff(f: Finding, g: Finding)
    requires SameTool(f, g)
    ensures FingerprintOf(f) == FingerprintOf(g) <==> SameFinding(f, g)
  {
    hide RelativeSource;
    var a, b := FingerprintOf(f), FingerprintOf(g);
    if a == b {
      assert a[0] == b[0];
      if |a| > 2 { assert a[1] == b[1] && a[2] == b[2]; }
      if |a| > 3 { assert a[3] == b[3]; }
      if |a| > 4 { assert a[4] == b[4]; }
    }
  }

  // ----- Source paths -----

  // The path with a slash for every backslash.
  ghost predicate WithSlashes(value: string, path: string) {
    |path| == |value| && forall i | 0 <= i < |value| :: path[i] == if value[i] == '\\' then '/' else value[i]
  }

  ghost predicate OccursAt(path: string, part: string, at: int) {
    0 <= at <= at + |part| <= |path| && path[at..at + |part|] == part
  }

  ghost predicate FirstAt(path: string, part: string, at: int) {
    OccursAt(path, part, at) && forall i | 0 <= i < at :: !OccursAt(path, part, i)
  }

  ghost predicate Lacks(path: string, part: string) {
    forall i :: !OccursAt(path, part, i)
  }

  lemma {:induction false} SlashedIff(value: string, path: string)
    ensures Slashed(value) == path <==> WithSlashes(value, path)
  {
    if value != "" && |path| == |value| {
      var n := |value| - 1;
      SlashedIff(value[..n], path[..n]);
      assert path == path[..n] + [path[n]];
      assert Slashed(value)[..n] == Slashed(value[..n]);
      if WithSlashes(value, path) {
        assert WithSlashes(value[..n], path[..n]);
      }
      if Slashed(value) == path {
        assert path[..n] == Slashed(value[..n]);
        forall i | 0 <= i < |value| ensures path[i] == if value[i] == '\\' then '/' else value[i] {
          if i < n { assert path[..n][i] == path[i] && value[..n][i] == value[i]; }
        }
      }
    }
  }

  lemma FindIs(path: string, part: string)
    ensures Find(path, part, 0).None? <==> Lacks(path, part)
    ensures forall at :: FirstAt(path, part, at) <==> Find(path, part, 0).Some? && Find(path, part, 0).value == at
  {
    forall i | 0 <= i <= |path| ensures part <= path[i..] <==> OccursAt(path, part, i) {
      if i + |part| <= |path| { assert path[i..][..|part|] == path[i..i + |part|]; }
    }
  }

  lemma FromRootStep(path: string, roots: seq<string>, root: string, rest: seq<string>)
    requires roots == [root] + rest
    ensures forall at | FirstAt(path, root, at) :: FromRoot(path, roots) == Some(path[at..])
    ensures Lacks(path, root) ==> FromRoot(path, roots) == FromRoot(path, rest)
  {
    hide OccursAt, Lacks, FirstAt;
    FindIs(path, root);
    assert roots[0] == root && roots[1..] == rest;
  }

  // The source a path names: from the first place of the first of the four roots that occurs in it,
  // or without a leading "./", with slashes for backslashes.
  lemma RelativeSourceIs(value: string, path: string)
    requires WithSlashes(value, path)
    ensures forall at | FirstAt(path, "gilbic_backend/", at) :: RelativeSource(value) == path[at..]
    ensures Lacks(path, "gilbic_backend/") ==>
              forall at | FirstAt(path, "spina_backend_mobile/", at) :: RelativeSource(value) == path[at..]
    ensures Lacks(path, "gilbic_backend/") && Lacks(path, "spina_backend_mobile/") ==>
              forall at | FirstAt(path, "tools/", at) :: RelativeSource(value) == path[at..]
    ensures Lacks(path, "gilbic_backend/") && Lacks(path, "spina_backend_mobile/") && Lacks(path, "tools/") ==>
              forall at | FirstAt(path, "tests/", at) :: RelativeSource(value) == path[at..]
    ensures Lacks(path, "gilbic_backend/") && Lacks(path, "spina_backend_mobile/") && Lacks(path, "tools/") && Lacks(path, "tests/") ==>
              RelativeSource(value) == if OccursAt(path, "./", 0) then path[2..] else path
  {
    SlashedIff(value, path);
    FromRootStep(path, SOURCE_ROOTS, "gilbic_backend/", ["spina_backend_mobile/", "tools/", "tests/"]);
    FromRootStep(path, ["spina_backend_mobile/", "tools/", "tests/"], "spina_backend_mobile/", ["tools/", "tests/"]);
    FromRootStep(path, ["tools/", "tests/"], "tools/", ["tests/"]);
    FromRootStep(path, ["tests/"], "tests/", []);
    hide Lacks, FirstAt, FromRoot, Slashed, WithSlashes;
    assert "./" <= path <==> OccursAt(path, "./", 0);
  }
}
