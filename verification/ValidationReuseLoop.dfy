// decide_validation_reuse as the loops it is, proved equal to ValidationReuse.Decide.
module ValidationReuseLoop {
  import opened Options
  import opened Text
  import opened JsonValues
  import opened ValidationReuse

  function Later(a: Association, k: nat): Association {
    a.(listings := a.listings + k, sleeps := a.sleeps + k)
  }

  lemma {:induction false} NumberedStep(items: seq<Json>, i: nat)
    requires i < |items|
    ensures Numbered(items[..i + 1]) == if Counted(items[i]) then Numbered(items[..i]) + [items[i]] else Numbered(items[..i])
  {
    assert items[..i + 1][..i] == items[..i];
  }

  lemma {:induction false} HaltedPrefix(c: Context, fetch: Fetch, call: nat, items: seq<Json>, i: nat)
    requires i <= |items| && Details(c, fetch, call, Numbered(items[..i])).Halted?
    ensures Details(c, fetch, call, Numbered(items)) == Details(c, fetch, call, Numbered(items[..i]))
    decreases |items| - i
  {
    hide AddDetail, Number;
    if i == |items| {
      assert items[..i] == items;
    } else {
      NumberedStep(items, i);
      var summaries := Numbered(items[..i + 1]);
      if Counted(items[i]) { assert summaries[..|summaries| - 1] == Numbered(items[..i]); }
      HaltedPrefix(c, fetch, call, items, i + 1);
    }
  }

  method OwnerPullRecords(c: Context, items: seq<Json>) returns (candidates: seq<Json>)
    ensures candidates == OwnerPulls(c, items)
  {
    hide OwnerPull;
    candidates := [];
    for i := 0 to |items|
      invariant candidates == OwnerPulls(c, items[..i])
    {
      assert items[..i + 1][..i] == items[..i];
      if OwnerPull(c, items[i], false) { candidates := candidates + [items[i]]; }
    }
    assert items[..|items|] == items;
  }

  lemma DetailStep(c: Context, fetch: Fetch, call: nat, before: seq<Json>, found: seq<Json>, summary: Json)
    requires Details(c, fetch, call, before) == Candidates(found)
    ensures Details(c, fetch, call, before + [summary])
            == AddDetail(c, found, summary, fetch(call + |before|, Detail(Number(summary))))
  {
    hide AddDetail, Number;
    assert (before + [summary])[..|before|] == before;
  }

  // Fetch the authoritative record of every numbered pull request.
  method FetchDetails(c: Context, fetch: Fetch, call: nat, summaries: seq<Json>) returns (p: Progress, next: nat)
    ensures p == Details(c, fetch, call, Numbered(summaries))
    ensures p.Candidates? ==> next == call + |Numbered(summaries)|
  {
    hide AddDetail, Number, Details, Numbered, Counted;
    next, p := call, Candidates([]);
    assert Details(c, fetch, call, Numbered(summaries[..0])) == p && Numbered(summaries[..0]) == [] by { NothingYet(c, fetch, call, summaries); }
    for i := 0 to |summaries|
      invariant next == call + |Numbered(summaries[..i])|
      invariant p.Candidates? && p == Details(c, fetch, call, Numbered(summaries[..i]))
    {
      NumberedStep(summaries, i);
      if Counted(summaries[i]) {
        DetailStep(c, fetch, call, Numbered(summaries[..i]), p.found, summaries[i]);
        p := AddDetail(c, p.found, summaries[i], fetch(next, Detail(Number(summaries[i]))));
        next := next + 1;
        if p.Halted? {
          HaltedPrefix(c, fetch, call, summaries, i + 1);
          return;
        }
      }
    }
    assert summaries[..|summaries|] == summaries;
  }

  lemma NothingYet(c: Context, fetch: Fetch, call: nat, summaries: seq<Json>)
    ensures Numbered(summaries[..0]) == [] && Details(c, fetch, call, Numbered(summaries[..0])) == Candidates([])
  {
  }

  // One pass of the retry loop.
  method TryOnce(c: Context, fetch: Fetch, call: nat) returns (p: Progress, next: nat)
    ensures p == Attempt(c, fetch, call)
    ensures p.Candidates? ==> next == NextCall(c, fetch, call)
  {
    hide Details, OwnerPulls, Numbered;
    var listing := fetch(call, Pulls(c.sha));
    if listing.Failure? { return Halted(Raised), call + 1; }
    if !listing.json.JList? { return Halted(Refuse(BadListing)), call + 1; }
    var summaries := OwnerPullRecords(c, listing.json.items);
    p, next := FetchDetails(c, fetch, call + 1, summaries);
  }

  method Select(c: Context, p: Pull, runs: seq<Json>) returns (d: Decision)
    ensures d == PickRun(c, p, runs)
  {
    hide RunVerdict, Latest;
    var matching: seq<Json> := [];
    for i := 0 to |runs|
      invariant MatchingRuns(c, p, runs[..i]) == Some(matching)
    {
      assert runs[..i + 1][..i] == runs[..i];
      var verdict := RunVerdict(c, p, runs[i]);
      if verdict.Raises? {
        RaisingPrefix(c, p, runs, i + 1);
        return Raised;
      }
      if verdict.Accepted? { matching := matching + [runs[i]]; }
    }
    assert runs[..|runs|] == runs;
    if matching == [] { return RefuseFor(NoRun, p.number, p.head); }
    var latest := Latest(matching);
    if latest.None? || !latest.value.JObj? { return Raised; }
    if !IsInt(Get(latest.value.fields, "id")) { return Refuse(BadRunId); }
    return Reuse(p.number, p.head, Get(latest.value.fields, "id"));
  }

  lemma {:induction false} RaisingPrefix(c: Context, p: Pull, runs: seq<Json>, i: nat)
    requires i <= |runs| && MatchingRuns(c, p, runs[..i]).None?
    ensures MatchingRuns(c, p, runs).None?
    decreases |runs| - i
  {
    hide RunVerdict;
    if i == |runs| {
      assert runs[..i] == runs;
    } else {
      assert runs[..i + 1][..i] == runs[..i];
      RaisingPrefix(c, p, runs, i + 1);
    }
  }

  // The whole decision, with the number of listings and of sleeps it made.
  method DecideValidationReuse(r: Request, fetch: Fetch) returns (d: Decision, listings: nat, sleeps: nat)
    ensures d == Decide(r, fetch)
    ensures Refusal(r).Some? ==> listings == 0 && sleeps == 0
    ensures Refusal(r).None? ==>
              var a := Associate(ContextOf(r), fetch, r.attempts, 0); listings == a.listings && sleeps == a.sleeps
  {
    hide Attempt, NextCall, ContextOf, PickRun, TreeSha;
    listings, sleeps := 0, 0;
    if Refusal(r).Some? { return Refuse(Refusal(r).value), 0, 0; }
    var c, total: nat, attempt: nat, call: nat := ContextOf(r), r.attempts, 0, 0;
    var p := Candidates([]);
    while attempt < total
      invariant attempt <= total && listings == attempt && p == Candidates([])
      invariant attempt < total ==> sleeps == attempt
      invariant attempt < total ==> Associate(c, fetch, total, 0) == Later(Associate(c, fetch, total - attempt, call), attempt)
      invariant attempt == total ==> Associate(c, fetch, total, 0) == Association(p, call, listings, sleeps)
    {
      ghost var start := call;
      p, call := TryOnce(c, fetch, call);
      listings := listings + 1;
      if p.Halted? { return p.decision, listings, sleeps; }
      if |p.found| >= 1 {
        assert Associate(c, fetch, total, 0) == Association(p, call, listings, sleeps);
        break;
      }
      if attempt + 1 < total { sleeps := sleeps + 1; }
      attempt := attempt + 1;
    }
    if |p.found| != 1 { return Refuse(NotExactlyOne), listings, sleeps; }
    d := Judge(c, fetch, call, p.found[0]);
  }

  method Judge(c: Context, fetch: Fetch, call: nat, pull: Json) returns (d: Decision)
    ensures d == JudgePull(c, fetch, call, pull)
  {
    hide PickRun, TreeSha;
    if !HeadOf(pull).JObj? { return Raised; }
    var number, sha := Number(pull), LowerText(GetText(HeadOf(pull).fields, "sha"));
    if !IsInt(number) || !HexText(sha, 40) { return Refuse(BadHead); }
    var p := Pull(number, sha.text, Get(HeadOf(pull).fields, "ref"));
    var main := fetch(call, Commit(c.sha));
    if main.Failure? { return Raised; }
    var head := fetch(call + 1, Commit(p.head));
    if head.Failure? { return Raised; }
    var mainTree, headTree := TreeSha(main.json), TreeSha(head.json);
    if mainTree.None? || headTree.None? { return RefuseFor(BadTrees, number, p.head); }
    if mainTree != headTree { return RefuseFor(TreesDiffer, number, p.head); }
    var reply := fetch(call + 2, Runs(p.head));
    if reply.Failure? { return Raised; }
    if !reply.json.JObj? { return Refuse(BadRuns); }
    var runs := Get(reply.json.fields, "workflow_runs");
    if !runs.JList? { return Refuse(BadRunList); }
    d := Select(c, p, runs.items);
  }
}
