// The scanner gate: no tool may report a finding more often than the retained baseline does.
module ScannerRegression {
  import opened Options
  import opened Listing

  // ----- Fingerprints -----

  // A reported finding. The SHA-256 of the listed identity is an opaque name for it, so the
  // identity itself stands for the fingerprint.
  datatype Finding =
    | Ruff(filename: string, code: string, severity: Option<string>, message: string, line: int)
    | Pyright(file: string, rule: Option<string>, level: string, message: string, line: int)
    | Bandit(filename: string, testId: string, issueSeverity: string, confidence: string, text: string, line: int)
    | Gitleaks(fingerprint: string, line: int)
    | PipAudit(name: string, version: string, id: string)
    | Format(path: string)

  type Fingerprint = seq<string>

  const SOURCE_ROOTS := ["gilbic_backend/", "spina_backend_mobile/", "tools/", "tests/"]

  function Slashed(path: string): (r: string)
    ensures |r| == |path|
  {
    if path == "" then "" else Slashed(path[..|path| - 1]) + [if path[|path| - 1] == '\\' then '/' else path[|path| - 1]]
  }

  // The first position of part in s, from `from` on.
  function Find(s: string, part: string, from: nat): (at: Option<nat>)
    ensures at.Some? ==> from <= at.value <= |s| && part <= s[at.value..]
    ensures at.Some? ==> forall i | from <= i < at.value :: !(part <= s[i..])
    ensures at.None? ==> forall i | from <= i <= |s| :: !(part <= s[i..])
    decreases |s| - from
  {
    if from > |s| then None
    else if part <= s[from..] then Some(from)
    else Find(s, part, from + 1)
  }

  function FromRoot(path: string, roots: seq<string>): Option<string> {
    if roots == [] then None
    else
      var at := Find(path, roots[0], 0);
      if at.Some? then Some(path[at.value..]) else FromRoot(path, roots[1..])
  }

  function RelativeSource(value: string): string {
    var path := Slashed(value);
    var found := FromRoot(path, SOURCE_ROOTS);
    if found.Some? then found.value
    else if "./" <= path then path[2..]
    else path
  }

  function OrElse(o: Option<string>, default: string): string {
    if o.Some? then o.value else default
  }

  function FingerprintOf(f: Finding): Fingerprint {
    match f
    case Ruff(filename, code, severity, message, _) => [RelativeSource(filename), code, OrElse(severity, "error"), message]
    case Pyright(file, rule, level, message, _) => [RelativeSource(file), OrElse(rule, ""), level, message]
    case Bandit(filename, testId, severity, confidence, text, _) =>
      [RelativeSource(filename), testId, severity, confidence, text]
    case Gitleaks(fingerprint, _) => [fingerprint]
    case PipAudit(name, version, id) => [name, version, id]
    case Format(path) => [RelativeSource(path)]
  }

  // The same finding at another line.
  function AtLine(f: Finding, line: int): Finding {
    match f
    case Ruff(filename, code, severity, message, _) => Ruff(filename, code, severity, message, line)
    case Pyright(file, rule, level, message, _) => Pyright(file, rule, level, message, line)
    case Bandit(filename, testId, severity, confidence, text, _) => Bandit(filename, testId, severity, confidence, text, line)
    case Gitleaks(fingerprint, _) => Gitleaks(fingerprint, line)
    case _ => f
  }

  // ----- Counting -----

  type Bag = multiset<Fingerprint>
  type Report = map<string, Bag>

  function Count(findings: seq<Finding>): Bag {
    if findings == [] then multiset{}
    else Count(findings[..|findings| - 1]) + multiset{FingerprintOf(findings[|findings| - 1])}
  }

  function LoadReports(found: map<string, seq<Finding>>): Report {
    map t | t in found :: Count(found[t])
  }

  // ----- Comparing -----

  datatype ToolResult = ToolResult(baselineCount: nat, currentCount: nat, added: Bag, removed: Bag)

  datatype Verdict = Verdict(passed: bool, tools: map<string, ToolResult>)

  function BagOf(r: Report, tool: string): Bag {
    if tool in r then r[tool] else multiset{}
  }

  function ResultOf(baseline: Report, current: Report, tool: string): ToolResult {
    var previous, latest := BagOf(baseline, tool), BagOf(current, tool);
    ToolResult(|previous|, |latest|, latest - previous, previous - latest)
  }

  // The same tools, and in no tool a finding reported more often than before.
  predicate Passes(baseline: Report, current: Report) {
    baseline.Keys == current.Keys && forall t | t in current :: current[t] <= baseline[t]
  }

  function Results(baseline: Report, current: Report, names: seq<string>): map<string, ToolResult> {
    if names == [] then map[]
    else
      var last := names[|names| - 1];
      Results(baseline, current, names[..|names| - 1])[last := ResultOf(baseline, current, last)]
  }

  predicate NothingAdded(baseline: Report, current: Report, tool: string) {
    tool in baseline && tool in current && current[tool] <= baseline[tool]
  }

  function Tools(baseline: Report, current: Report): seq<string> {
    StringLeIsTotal();
    SortedListing(StringLe, baseline.Keys + current.Keys)
  }

  predicate NoneAdded(baseline: Report, current: Report, names: seq<string>) {
    forall t | t in names :: NothingAdded(baseline, current, t)
  }

  method Compare(baseline: Report, current: Report) returns (v: Verdict)
    ensures v.passed <==> Passes(baseline, current)
    ensures v.tools.Keys == baseline.Keys + current.Keys
    ensures forall t | t in v.tools :: v.tools[t] == ResultOf(baseline, current, t)
  {
    hide IsListing, Passes, Results, ResultOf, NothingAdded, NoneAdded;
    var passed, tools: map<string, ToolResult> := baseline.Keys == current.Keys, map[];
    var names := Tools(baseline, current);
    NothingSeen(baseline, current, names);
    for i := 0 to |names|
      invariant tools == Results(baseline, current, names[..i])
      invariant passed <==> baseline.Keys == current.Keys && NoneAdded(baseline, current, names[..i])
    {
      var result, clean := CompareTool(baseline, current, names[i]);
      OneMoreTool(baseline, current, names, i);
      passed := passed && clean;
      tools := tools[names[i] := result];
    }
    assert names[..|names|] == names;
    ResultsAreComplete(baseline, current, names);
    PassesIffNothingAdded(baseline, current);
    return Verdict(passed, tools);
  }

  // One turn of the loop.
  method CompareTool(baseline: Report, current: Report, tool: string) returns (result: ToolResult, clean: bool)
    ensures result == ResultOf(baseline, current, tool)
    ensures clean <==> NothingAdded(baseline, current, tool)
  {
    var previous, latest := BagOf(baseline, tool), BagOf(current, tool);
    var added, removed := latest - previous, previous - latest;
    AddedIsEmptyIff(previous, latest);
    clean := added == multiset{} && tool in current && tool in baseline;
    result := ToolResult(|previous|, |latest|, added, removed);
  }

  lemma NothingSeen(baseline: Report, current: Report, names: seq<string>)
    ensures Results(baseline, current, names[..0]) == map[] && NoneAdded(baseline, current, names[..0])
  {
  }

  lemma OneMoreTool(baseline: Report, current: Report, names: seq<string>, i: nat)
    requires i < |names|
    ensures Results(baseline, current, names[..i + 1])
            == Results(baseline, current, names[..i])[names[i] := ResultOf(baseline, current, names[i])]
    ensures NoneAdded(baseline, current, names[..i + 1])
            <==> NoneAdded(baseline, current, names[..i]) && NothingAdded(baseline, current, names[i])
  {
    hide NothingAdded, ResultOf;
    assert names[..i + 1] == names[..i] + [names[i]] && names[..i + 1][..i] == names[..i];
  }

  lemma {:induction false} ResultsAreComplete(baseline: Report, current: Report, names: seq<string>)
    ensures var r := Results(baseline, current, names);
            && (forall t :: t in r <==> t in names)
            && (forall t | t in r :: r[t] == ResultOf(baseline, current, t))
  {
    hide ResultOf;
    if names != [] { ResultsAreComplete(baseline, current, names[..|names| - 1]); }
  }

  lemma PassesIffNothingAdded(baseline: Report, current: Report)
    ensures forall t :: t in Tools(baseline, current) <==> t in baseline.Keys + current.Keys
    ensures Passes(baseline, current) <==>
              baseline.Keys == current.Keys && NoneAdded(baseline, current, Tools(baseline, current))
  {
    hide Ascending;
    var names := Tools(baseline, current);
    forall t ensures t in names <==> t in baseline.Keys + current.Keys {}
    if baseline.Keys == current.Keys && NoneAdded(baseline, current, names) {
      forall t | t in current ensures current[t] <= baseline[t] { assert t in names; }
    }
  }

  lemma AddedIsEmptyIff(previous: Bag, latest: Bag)
    ensures latest - previous == multiset{} <==> latest <= previous
  {
    if latest - previous == multiset{} {
      forall f ensures latest[f] <= previous[f] { assert (latest - previous)[f] == 0; }
    }
  }

  // ----- What a comparison says -----

  // Findings are conserved, none is both added and removed, and the totals differ accordingly.
  lemma FindingsAreConserved(baseline: Report, current: Report, tool: string)
    ensures var r := ResultOf(baseline, current, tool);
            && BagOf(baseline, tool) + r.added == BagOf(current, tool) + r.removed
            && r.added !! r.removed
            && r.baselineCount + |r.added| == r.currentCount + |r.removed|
  {
    var r, previous, latest := ResultOf(baseline, current, tool), BagOf(baseline, tool), BagOf(current, tool);
    assert previous + r.added == latest + r.removed;
    assert |previous + r.added| == |latest + r.removed|;
  }

  // A finding is listed as added as often as its count rose, and as removed as often as it fell.
  lemma EachFindingIsCounted(baseline: Report, current: Report, tool: string, f: Fingerprint)
    ensures var r, was, now := ResultOf(baseline, current, tool), BagOf(baseline, tool)[f], BagOf(current, tool)[f];
            && r.added[f] == (if now > was then now - was else 0)
            && r.removed[f] == (if was > now then was - now else 0)
  {
  }

  lemma PassingIsReflexive(r: Report)
    ensures Passes(r, r)
  {
  }

  // If every revision passes against the one before, the last passes against the first.
  lemma {:induction false} PassingChains(revisions: seq<Report>, i: nat, j: nat)
    requires i <= j < |revisions| && forall k | 0 < k < |revisions| :: Passes(revisions[k - 1], revisions[k])
    ensures Passes(revisions[i], revisions[j])
  {
    if i < j {
      PassingChains(revisions, i, j - 1);
      PassingComposes(revisions[i], revisions[j - 1], revisions[j]);
    }
  }

  lemma PassingComposes(a: Report, b: Report, c: Report)
    requires Passes(a, b) && Passes(b, c)
    ensures Passes(a, c)
  {
    forall t | t in c ensures c[t] <= a[t] { assert c[t] <= b[t] && b[t] <= a[t]; }
  }

  // One occurrence of a fingerprint more than the baseline fails, whatever was fixed elsewhere.
  lemma FixesDoNotPayForNewFindings(baseline: Report, current: Report, tool: string, f: Fingerprint)
    requires tool in current && current[tool][f] > BagOf(baseline, tool)[f]
    ensures !Passes(baseline, current)
  {
  }

  // Dropping findings from any tool keeps a passing report passing.
  lemma {:induction false} RemovingFindingsKeepsPassing(baseline: Report, found: map<string, seq<Finding>>, tool: string, i: nat)
    requires tool in found && i < |found[tool]| && Passes(baseline, LoadReports(found))
    ensures Passes(baseline, LoadReports(found[tool := found[tool][..i] + found[tool][i + 1..]]))
  {
    hide Count;
    var fewer := found[tool := found[tool][..i] + found[tool][i + 1..]];
    RemovedIsCountedLess(found[tool], i);
    forall t | t in fewer ensures LoadReports(fewer)[t] <= baseline[t] {
      assert LoadReports(found)[t] <= baseline[t];
    }
  }

  lemma {:induction false} CountAppends(a: seq<Finding>, b: seq<Finding>)
    ensures Count(a + b) == Count(a) + Count(b)
  {
    if b == [] {
      assert a + b == a;
    } else {
      var front := b[..|b| - 1];
      assert (a + b)[..|a + b| - 1] == a + front && (a + b)[|a + b| - 1] == b[|b| - 1];
      CountAppends(a, front);
    }
  }

  lemma RemovedIsCountedLess(findings: seq<Finding>, i: nat)
    requires i < |findings|
    ensures Count(findings) == Count(findings[..i] + findings[i + 1..]) + multiset{FingerprintOf(findings[i])}
  {
    hide FingerprintOf, Count;
    var one := [findings[i]];
    assert findings == (findings[..i] + one) + findings[i + 1..];
    CountAppends(findings[..i] + one, findings[i + 1..]);
    CountAppends(findings[..i], one);
    CountAppends(findings[..i], findings[i + 1..]);
    CountOne(findings[i]);
  }

  lemma CountOne(f: Finding)
    ensures Count([f]) == multiset{FingerprintOf(f)}
  {
    hide FingerprintOf;
    assert [f][..0] == [];
  }

  lemma TakenOut(b: seq<Finding>, i: nat)
    requires i < |b|
    ensures multiset(b[..i] + b[i + 1..]) == multiset(b) - multiset{b[i]}
  {
    assert b == b[..i] + [b[i]] + b[i + 1..];
  }

  // A report counts the same whatever order the scanner lists its findings in.
  lemma {:induction false} OrderIsNotCounted(a: seq<Finding>, b: seq<Finding>)
    requires multiset(a) == multiset(b)
    ensures Count(a) == Count(b)
    decreases |a|
  {
    hide FingerprintOf, Count;
    if a == [] {
      assert |multiset(b)| == 0;
    } else {
      var i := Match(a, b);
      var rest := b[..i] + b[i + 1..];
      OrderIsNotCounted(a[1..], rest);
      RemovedIsCountedLess(a, 0);
      assert a[..0] + a[1..] == a[1..];
      RemovedIsCountedLess(b, i);
    }
  }

  lemma Match(a: seq<Finding>, b: seq<Finding>) returns (i: nat)
    requires a != [] && multiset(a) == multiset(b)
    ensures i < |b| && b[i] == a[0] && multiset(a[1..]) == multiset(b[..i] + b[i + 1..])
  {
    assert a[0] in multiset(b);
    i :| 0 <= i < |b| && b[i] == a[0];
    SameRest(a, b, i);
  }

  lemma SameRest(a: seq<Finding>, b: seq<Finding>, i: nat)
    requires a != [] && i < |b| && b[i] == a[0] && multiset(a) == multiset(b)
    ensures multiset(a[1..]) == multiset(b[..i] + b[i + 1..])
  {
    TakenOut(b, i);
    assert a == [a[0]] + a[1..];
  }

  // Two reports of the same findings at other lines count the same.
  lemma {:induction false} LinesAreNotCounted(a: seq<Finding>, b: seq<Finding>, lines: seq<int>)
    requires |a| == |b| == |lines| && forall i | 0 <= i < |a| :: b[i] == AtLine(a[i], lines[i])
    ensures Count(a) == Count(b)
  {
    if a != [] {
      var n := |a| - 1;
      LinesAreNotCounted(a[..n], b[..n], lines[..n]);
      assert FingerprintOf(b[n]) == FingerprintOf(a[n]) by { LineIsNotInTheFingerprint(a[n], lines[n]); }
    }
  }

  lemma LineIsNotInTheFingerprint(f: Finding, line: int)
    ensures FingerprintOf(AtLine(f, line)) == FingerprintOf(f)
  {
    hide RelativeSource;
  }

  predicate Contains(path: string, part: string) {
    exists i :: 0 <= i <= |path| && part <= path[i..]
  }

  lemma {:induction false} FromRootSkips(path: string, roots: seq<string>, j: nat)
    requires j < |roots| && Contains(path, roots[j]) && forall i | 0 <= i < j :: !Contains(path, roots[i])
    ensures var at := Find(path, roots[j], 0); at.Some? && FromRoot(path, roots) == Some(path[at.value..])
  {
    hide Contains;
    if j == 0 {
      ContainedIsFound(path, roots[0]);
    } else {
      ContainedIsFound(path, roots[0]);
      forall i | 0 <= i < j - 1 ensures !Contains(path, roots[1..][i]) { assert !Contains(path, roots[i + 1]); }
      FromRootSkips(path, roots[1..], j - 1);
    }
  }

  lemma ContainedIsFound(path: string, part: string)
    ensures Contains(path, part) <==> Find(path, part, 0).Some?
  {
  }

  lemma RootsDiffer(path: string, j: nat, k: nat)
    requires j < |SOURCE_ROOTS| && k < |SOURCE_ROOTS| && SOURCE_ROOTS[j] <= path && SOURCE_ROOTS[k] <= path
    ensures j == k
  {
    assert path[0] == SOURCE_ROOTS[j][0] == SOURCE_ROOTS[k][0];
    assert path[1] == SOURCE_ROOTS[j][1] == SOURCE_ROOTS[k][1];
  }

  ghost predicate NoRootBefore(whole: string, at: nat, k: nat)
    requires k < |SOURCE_ROOTS| && at <= |whole|
  {
    && (forall i | 0 <= i < at :: !(SOURCE_ROOTS[k] <= whole[i..]))
    && (forall j | 0 <= j < k :: !Contains(whole, SOURCE_ROOTS[j]))
  }

  // A scanner run in another checkout directory names the same source file, if and only if the
  // directory does not lead to the file's source root, nor the whole path to one listed before it.
  lemma CheckoutDirectoryIsDropped(directory: string, path: string, k: nat)
    requires k < |SOURCE_ROOTS| && SOURCE_ROOTS[k] <= Slashed(path)
    ensures RelativeSource(directory + path) == Slashed(path)
            <==> NoRootBefore(Slashed(directory) + Slashed(path), |directory|, k)
  {
    SlashedConcat(directory, path);
    RootIsDropped(Slashed(directory), Slashed(path), k);
  }

  lemma RootIsDropped(directory: string, path: string, k: nat)
    requires k < |SOURCE_ROOTS| && SOURCE_ROOTS[k] <= path
    ensures var found := FromRoot(directory + path, SOURCE_ROOTS);
            found.Some? && (found.value == path <==> NoRootBefore(directory + path, |directory|, k))
  {
    hide Find, FromRoot, Contains;
    var whole := directory + path;
    assert whole[|directory|..] == path;
    if forall j | 0 <= j < k :: !Contains(whole, SOURCE_ROOTS[j]) {
      ContainsAt(whole, SOURCE_ROOTS[k], |directory|);
      FromRootSkips(whole, SOURCE_ROOTS, k);
      var at := Find(whole, SOURCE_ROOTS[k], 0).value;
      if at < |directory| { assert |whole[at..]| > |path|; }
    } else {
      var j := FirstContained(whole, k);
      FromRootSkips(whole, SOURCE_ROOTS, j);
      var at := Find(whole, SOURCE_ROOTS[j], 0).value;
      if whole[at..] == path { RootsDiffer(path, j, k); }
    }
  }

  lemma ContainsAt(path: string, part: string, at: nat)
    requires at <= |path| && part <= path[at..]
    ensures Contains(path, part)
  {
  }

  lemma {:induction false} FirstContained(path: string, k: nat) returns (j: nat)
    requires k <= |SOURCE_ROOTS| && exists i :: 0 <= i < k && Contains(path, SOURCE_ROOTS[i])
    ensures j < k && Contains(path, SOURCE_ROOTS[j]) && forall i | 0 <= i < j :: !Contains(path, SOURCE_ROOTS[i])
  {
    hide Contains;
    if exists i :: 0 <= i < k - 1 && Contains(path, SOURCE_ROOTS[i]) { j := FirstContained(path, k - 1); } else { j := k - 1; }
  }

  lemma {:induction false} SlashedConcat(a: string, b: string)
    ensures Slashed(a + b) == Slashed(a) + Slashed(b)
  {
    if b == "" {
      assert a + b == a && Slashed(a) + "" == Slashed(a);
    } else {
      assert (a + b)[..|a + b| - 1] == a + b[..|b| - 1];
      SlashedConcat(a, b[..|b| - 1]);
    }
  }
}
