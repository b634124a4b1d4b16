// What a reuse decision proves, for every API that may change its answers between calls, and
// what it does not depend on.
module ValidationReuseSafety {
  import opened Options
  import opened Text
  import opened JsonValues
  import opened ValidationReuse

  // ----- Attempts -----

  // The listing of pull requests that call number `call` returned.
  ghost predicate Listed(c: Context, fetch: Fetch, call: nat, items: seq<Json>) {
    fetch(call, Pulls(c.sha)) == Body(JList(items))
  }

  function DetailReply(fetch: Fetch, call: nat, summaries: seq<Json>, i: nat): Reply
    requires i < |summaries|
  {
    fetch(call + i, Detail(Number(summaries[i])))
  }

  ghost predicate Agrees(fetch: Fetch, call: nat, summaries: seq<Json>, i: nat)
    requires i < |summaries|
  {
    var reply := DetailReply(fetch, call, summaries, i);
    reply.Body? && reply.json.JObj? && Same(Number(reply.json), Number(summaries[i])) && SameHead(summaries[i], reply.json)
  }

  ghost predicate AllAgree(fetch: Fetch, call: nat, summaries: seq<Json>) {
    forall i | 0 <= i < |summaries| :: Agrees(fetch, call, summaries, i)
  }

  ghost predicate Merged(c: Context, fetch: Fetch, call: nat, summaries: seq<Json>, i: nat)
    requires i < |summaries|
  {
    var reply := DetailReply(fetch, call, summaries, i);
    reply.Body? && OwnerPull(c, reply.json, true)
  }

  lemma {:induction false} DetailsAgree(c: Context, fetch: Fetch, call: nat, summaries: seq<Json>)
    requires Details(c, fetch, call, summaries).Candidates?
    ensures AllAgree(fetch, call, summaries)
  {
    hide OwnerPull, Same, SameHead;
    if summaries != [] {
      var front := summaries[..|summaries| - 1];
      DetailsAgree(c, fetch, call, front);
      forall i | 0 <= i < |summaries| ensures Agrees(fetch, call, summaries, i) {
        if i < |front| { assert Agrees(fetch, call, front, i); }
      }
    }
  }

  lemma {:induction false} NoCandidate(c: Context, fetch: Fetch, call: nat, summaries: seq<Json>)
    requires Details(c, fetch, call, summaries) == Candidates([])
    ensures forall i | 0 <= i < |summaries| :: !Merged(c, fetch, call, summaries, i)
  {
    hide OwnerPull, Same, SameHead;
    if summaries != [] {
      var front := summaries[..|summaries| - 1];
      NoCandidate(c, fetch, call, front);
      forall i | 0 <= i < |summaries| ensures !Merged(c, fetch, call, summaries, i) {
        if i < |front| { assert !Merged(c, fetch, call, front, i); }
      }
    }
  }

  ghost predicate OnlyCandidate(c: Context, fetch: Fetch, call: nat, summaries: seq<Json>, j: nat, pull: Json) {
    && j < |summaries| && DetailReply(fetch, call, summaries, j) == Body(pull)
    && forall i | 0 <= i < |summaries| :: Merged(c, fetch, call, summaries, i) <==> i == j
  }

  lemma LastDetail(c: Context, found: seq<Json>, summary: Json, reply: Reply, pull: Json)
    requires AddDetail(c, found, summary, reply) == Candidates([pull])
    ensures found == [] ==> reply == Body(pull) && OwnerPull(c, pull, true)
    ensures found != [] ==> found == [pull] && reply.Body? && !OwnerPull(c, reply.json, true)
  {
    hide OwnerPull, Same, SameHead;
    var added := found + [reply.json];
    assert |added| == |found| + 1 && added[|found|] == reply.json;
  }

  lemma {:induction false} OneCandidate(c: Context, fetch: Fetch, call: nat, summaries: seq<Json>, pull: Json) returns (j: nat)
    requires Details(c, fetch, call, summaries) == Candidates([pull])
    ensures OnlyCandidate(c, fetch, call, summaries, j, pull)
  {
    hide OwnerPull, Same, SameHead;
    var n := |summaries| - 1;
    var front := summaries[..n];
    var before := Details(c, fetch, call, front);
    LastDetail(c, before.found, summaries[n], DetailReply(fetch, call, summaries, n), pull);
    if before == Candidates([]) {
      j := n;
      NoCandidate(c, fetch, call, front);
    } else {
      j := OneCandidate(c, fetch, call, front, pull);
    }
    forall i | 0 <= i < |summaries| ensures Merged(c, fetch, call, summaries, i) <==> i == j {
      if i < n { assert Merged(c, fetch, call, summaries, i) <==> Merged(c, fetch, call, front, i); }
    }
  }

  // ----- Retrying -----

  // The calls at which the attempts listed: each but the last found no candidate.
  ghost predicate Attempts(c: Context, fetch: Fetch, calls: seq<nat>) {
    && calls != []
    && forall i | 0 <= i < |calls| - 1 ::
         Attempt(c, fetch, calls[i]) == Candidates([]) && calls[i + 1] == NextCall(c, fetch, calls[i])
  }

  // A new attempt is made only after one without candidates; the first attempt with a candidate,
  // a refusal or an exception is the last; an empty outcome has used every attempt; and there
  // is one sleep between two attempts and none elsewhere.
  lemma {:induction false} RetriesOnlyWithoutCandidates(c: Context, fetch: Fetch, attempts: nat, call: nat) returns (calls: seq<nat>)
    requires attempts >= 1
    ensures var a := Associate(c, fetch, attempts, call);
            && 1 <= a.listings <= attempts && a.sleeps == a.listings - 1
            && |calls| == a.listings && Attempts(c, fetch, calls) && calls[0] == call
            && a.outcome == Attempt(c, fetch, calls[|calls| - 1]) && a.next == NextCall(c, fetch, calls[|calls| - 1])
            && (a.outcome == Candidates([]) ==> a.listings == attempts)
  {
    hide Attempt, NextCall;
    calls := [call];
    if Attempt(c, fetch, call) == Candidates([]) && attempts > 1 {
      var rest := RetriesOnlyWithoutCandidates(c, fetch, attempts - 1, NextCall(c, fetch, call));
      calls := [call] + rest;
      assert Attempts(c, fetch, calls) by {
        forall i | 0 <= i < |calls| - 1
          ensures Attempt(c, fetch, calls[i]) == Candidates([]) && calls[i + 1] == NextCall(c, fetch, calls[i])
        {
          if i > 0 { assert calls[i] == rest[i - 1] && calls[i + 1] == rest[i]; }
        }
      }
    }
  }

  // Two candidates in one attempt refuse at once, however many attempts are left.
  lemma AmbiguityRefuses(c: Context, fetch: Fetch, attempts: nat, call: nat)
    requires attempts >= 1
    requires Attempt(c, fetch, call).Candidates? && |Attempt(c, fetch, call).found| >= 2
    ensures Associate(c, fetch, attempts, call).listings == 1 && Associate(c, fetch, attempts, call).sleeps == 0
    ensures Conclude(c, fetch, Associate(c, fetch, attempts, call)) == Refuse(NotExactlyOne)
  {
    hide Attempt;
  }

  // ----- Soundness -----

  predicate AcceptedRun(c: Context, p: Pull, run: Json) {
    RunVerdict(c, p, run) == Accepted
  }

  lemma {:induction false} MatchingAreTheAccepted(c: Context, p: Pull, runs: seq<Json>)
    ensures MatchingRuns(c, p, runs).None? <==> exists x | x in runs :: RunVerdict(c, p, x) == Raises
    ensures MatchingRuns(c, p, runs).Some? ==>
              forall x :: x in MatchingRuns(c, p, runs).value <==> x in runs && AcceptedRun(c, p, x)
  {
    hide RunVerdict;
    if runs != [] {
      var front, last := runs[..|runs| - 1], runs[|runs| - 1];
      MatchingAreTheAccepted(c, p, front);
      assert forall x :: x in runs <==> x in front || x == last;
    }
  }

  lemma {:induction false} LatestIsTheGreatest(runs: seq<Json>)
    requires runs != [] && Latest(runs).Some?
    ensures Latest(runs).value in runs && RunKey(Latest(runs).value).Some?
    ensures forall x | x in runs :: RunKey(x).Some? && KeyLe(RunKey(x).value, RunKey(Latest(runs).value).value)
  {
    hide RunKey;
    if |runs| > 1 {
      var front := runs[..|runs| - 1];
      LatestIsTheGreatest(front);
      assert forall x :: x in runs <==> x in front || x == runs[|runs| - 1];
    }
  }

  // run is the id of the greatest (run_number, id) among all accepted runs of the list.
  ghost predicate LatestAccepted(c: Context, p: Pull, runs: seq<Json>, run: Json) {
    exists best | best in runs ::
      && AcceptedRun(c, p, best) && best.JObj? && Get(best.fields, "id") == run && IsInt(run) && RunKey(best).Some?
      && forall x | x in runs && AcceptedRun(c, p, x) :: RunKey(x).Some? && KeyLe(RunKey(x).value, RunKey(best).value)
  }

  lemma PickedRunIsLatest(c: Context, p: Pull, runs: seq<Json>)
    requires PickRun(c, p, runs).Reuse?
    ensures LatestAccepted(c, p, runs, PickRun(c, p, runs).run)
    ensures PickRun(c, p, runs).number == p.number && PickRun(c, p, runs).head == p.head
  {
    hide MatchingRuns, Latest, RunVerdict, RunKey;
    MatchingAreTheAccepted(c, p, runs);
    LatestIsTheGreatest(MatchingRuns(c, p, runs).value);
    var best := Latest(MatchingRuns(c, p, runs).value).value;
    assert AcceptedRun(c, p, best);
  }

  lemma {:induction false} DetailsNeverReuse(c: Context, fetch: Fetch, call: nat, summaries: seq<Json>)
    ensures Details(c, fetch, call, summaries).Halted? ==> !Details(c, fetch, call, summaries).decision.Reuse?
  {
    if summaries != [] { DetailsNeverReuse(c, fetch, call, summaries[..|summaries| - 1]); }
  }

  lemma {:induction false} HaltsNeverReuse(c: Context, fetch: Fetch, attempts: nat, call: nat)
    requires attempts >= 1
    ensures var o := Associate(c, fetch, attempts, call).outcome; o.Halted? ==> !o.decision.Reuse?
  {
    hide Details;
    DetailsNeverReuse(c, fetch, call + 1, Summaries(c, fetch(call, Pulls(c.sha))));
    if attempts > 1 { HaltsNeverReuse(c, fetch, attempts - 1, NextCall(c, fetch, call)); }
  }

  // The evidence for a reuse: the calls from `call` on list the pull requests, name the one
  // merged candidate p, show equal trees for the two commits, and list the runs.
  ghost predicate Evidence(c: Context, fetch: Fetch, call: nat, items: seq<Json>, j: nat, p: Pull, run: Json) {
    var summaries := Numbered(OwnerPulls(c, items));
    var after := call + 1 + |summaries|;
    && Listed(c, fetch, call, items)
    && AllAgree(fetch, call + 1, summaries)
    && (exists pull :: OnlyCandidate(c, fetch, call + 1, summaries, j, pull) && IsPull(pull, p))
    && SameTrees(c, fetch, after, p)
    && RunEvidence(c, fetch, after + 2, p, run)
  }

  predicate IsPull(pull: Json, p: Pull) {
    && pull.JObj? && p.number == Number(pull) && IsInt(p.number) && HeadOf(pull).JObj?
    && LowerText(GetText(HeadOf(pull).fields, "sha")) == Plain(p.head) && IsHex(p.head, 40)
    && p.ref == Get(HeadOf(pull).fields, "ref")
  }

  ghost predicate SameTrees(c: Context, fetch: Fetch, call: nat, p: Pull) {
    var main, head := fetch(call, Commit(c.sha)), fetch(call + 1, Commit(p.head));
    main.Body? && head.Body? && TreeSha(main.json).Some? && TreeSha(main.json) == TreeSha(head.json)
  }

  ghost predicate RunEvidence(c: Context, fetch: Fetch, call: nat, p: Pull, run: Json) {
    var reply := fetch(call, Runs(p.head));
    && reply.Body? && reply.json.JObj? && Get(reply.json.fields, "workflow_runs").JList?
    && LatestAccepted(c, p, Get(reply.json.fields, "workflow_runs").items, run)
  }

  lemma JudgeIsSound(c: Context, fetch: Fetch, call: nat, pull: Json) returns (p: Pull)
    requires pull.JObj? && JudgePull(c, fetch, call, pull).Reuse?
    ensures IsPull(pull, p) && SameTrees(c, fetch, call, p)
    ensures RunEvidence(c, fetch, call + 2, p, JudgePull(c, fetch, call, pull).run)
    ensures JudgePull(c, fetch, call, pull) == Reuse(p.number, p.head, JudgePull(c, fetch, call, pull).run)
  {
    hide PickRun, TreeSha, LatestAccepted;
    var sha := LowerText(GetText(HeadOf(pull).fields, "sha"));
    p := Pull(Number(pull), sha.text, Get(HeadOf(pull).fields, "ref"));
    PickedRunIsLatest(c, p, Get(fetch(call + 2, Runs(p.head)).json.fields, "workflow_runs").items);
  }

  // Whatever the API answers: a commit reuses a validation only on this evidence.
  lemma ReuseIsProven(r: Request, fetch: Fetch) returns (call: nat, items: seq<Json>, j: nat, p: Pull)
    requires Decide(r, fetch).Reuse?
    ensures Refusal(r) == None
    ensures Evidence(ContextOf(r), fetch, call, items, j, p, Decide(r, fetch).run)
    ensures Decide(r, fetch) == Reuse(p.number, p.head, Decide(r, fetch).run)
  {
    hide ContextOf, Associate, Attempt, JudgePull, OnlyCandidate, AllAgree, IsPull, SameTrees, RunEvidence, Same;
    var c := ContextOf(r);
    var a := Associate(c, fetch, r.attempts, 0);
    HaltsNeverReuse(c, fetch, r.attempts, 0);
    var calls := RetriesOnlyWithoutCandidates(c, fetch, r.attempts, 0);
    call := calls[|calls| - 1];
    var pull := a.outcome.found[0];
    items, j := AttemptIsSound(c, fetch, call, pull);
    p := JudgeIsSound(c, fetch, a.next, pull);
  }

  lemma AttemptIsSound(c: Context, fetch: Fetch, call: nat, pull: Json) returns (items: seq<Json>, j: nat)
    requires Attempt(c, fetch, call).Candidates? && Attempt(c, fetch, call).found == [pull]
    ensures Listed(c, fetch, call, items)
    ensures var summaries := Numbered(OwnerPulls(c, items));
            && NextCall(c, fetch, call) == call + 1 + |summaries|
            && AllAgree(fetch, call + 1, summaries)
            && OnlyCandidate(c, fetch, call + 1, summaries, j, pull)
    ensures pull.JObj?
  {
    hide Details, Numbered, OwnerPulls, OwnerPull, Same, SameHead;
    items := fetch(call, Pulls(c.sha)).json.items;
    var summaries := Numbered(OwnerPulls(c, items));
    DetailsAgree(c, fetch, call + 1, summaries);
    j := OneCandidate(c, fetch, call + 1, summaries, pull);
    assert Agrees(fetch, call + 1, summaries, j);
  }

  // ----- Completeness -----

  lemma {:induction false} AgreedDetails(c: Context, fetch: Fetch, call: nat, summaries: seq<Json>)
    requires AllAgree(fetch, call, summaries) && forall i | 0 <= i < |summaries| :: !Merged(c, fetch, call, summaries, i)
    ensures Details(c, fetch, call, summaries) == Candidates([])
  {
    hide OwnerPull, Same, SameHead;
    if summaries != [] {
      var n := |summaries| - 1;
      var front := summaries[..n];
      forall i | 0 <= i < n ensures Agrees(fetch, call, front, i) && !Merged(c, fetch, call, front, i) {
        assert Agrees(fetch, call, summaries, i) && !Merged(c, fetch, call, summaries, i);
      }
      AgreedDetails(c, fetch, call, front);
      assert Agrees(fetch, call, summaries, n) && !Merged(c, fetch, call, summaries, n);
    }
  }

  lemma {:induction false} OnlyCandidateIsFound(c: Context, fetch: Fetch, call: nat, summaries: seq<Json>, j: nat, pull: Json)
    requires AllAgree(fetch, call, summaries) && OnlyCandidate(c, fetch, call, summaries, j, pull)
    ensures Details(c, fetch, call, summaries) == Candidates([pull])
  {
    hide OwnerPull, Same, SameHead;
    var n := |summaries| - 1;
    var front := summaries[..n];
    forall i | 0 <= i < n
      ensures Agrees(fetch, call, front, i) && (Merged(c, fetch, call, front, i) <==> i == j)
    {
      assert Agrees(fetch, call, summaries, i) && (Merged(c, fetch, call, summaries, i) <==> i == j);
    }
    assert Agrees(fetch, call, summaries, n) && (Merged(c, fetch, call, summaries, n) <==> n == j);
    if j == n {
      AgreedDetails(c, fetch, call, front);
      assert [] + [pull] == [pull];
    } else {
      OnlyCandidateIsFound(c, fetch, call, front, j, pull);
    }
  }

  // Every accepted run has an integer id and run number, as the API documents them.
  ghost predicate CountedRuns(c: Context, p: Pull, runs: seq<Json>) {
    forall x | x in runs && AcceptedRun(c, p, x) ::
      x.JObj? && Get(x.fields, "id").JInt? && Get(x.fields, "run_number").JInt?
  }

  lemma CountedKey(run: Json)
    requires run.JObj? && Get(run.fields, "id").JInt? && Get(run.fields, "run_number").JInt?
    ensures RunKey(run) == Some((Get(run.fields, "run_number").n, Get(run.fields, "id").n))
  {
  }

  lemma {:induction false} LatestExists(runs: seq<Json>)
    requires runs != [] && forall x | x in runs :: RunKey(x).Some?
    ensures Latest(runs).Some?
  {
    hide RunKey;
    if |runs| > 1 {
      LatestExists(runs[..|runs| - 1]);
      LatestIsTheGreatest(runs[..|runs| - 1]);
    }
  }

  lemma LatestAcceptedIsPicked(c: Context, p: Pull, runs: seq<Json>, run: Json)
    requires CountedRuns(c, p, runs) && LatestAccepted(c, p, runs, run)
    requires forall x | x in runs :: RunVerdict(c, p, x) != Raises
    ensures PickRun(c, p, runs) == Reuse(p.number, p.head, run)
  {
    hide MatchingRuns, Latest, RunVerdict, RunKey;
    MatchingAreTheAccepted(c, p, runs);
    var matching := MatchingRuns(c, p, runs).value;
    forall x | x in matching ensures RunKey(x).Some? { CountedKey(x); }
    LatestExists(matching);
    LatestIsTheGreatest(matching);
    var best :| best in runs && AcceptedRun(c, p, best) && Get(best.fields, "id") == run && RunKey(best).Some?
                && forall x | x in runs && AcceptedRun(c, p, x) :: RunKey(x).Some? && KeyLe(RunKey(x).value, RunKey(best).value);
    var latest := Latest(matching).value;
    assert best in matching && KeyLe(RunKey(best).value, RunKey(latest).value);
    assert AcceptedRun(c, p, latest) && KeyLe(RunKey(latest).value, RunKey(best).value);
    CountedKey(best);
    CountedKey(latest);
  }

  ghost predicate CountedReply(c: Context, p: Pull, reply: Reply) {
    reply.Body? && reply.json.JObj? && Get(reply.json.fields, "workflow_runs").JList? ==>
      var runs := Get(reply.json.fields, "workflow_runs").items;
      CountedRuns(c, p, runs) && forall x | x in runs :: RunVerdict(c, p, x) != Raises
  }

  // Conversely, when the attempts before it found no candidate, the evidence is enough.
  lemma EvidenceIsEnough(r: Request, fetch: Fetch, calls: seq<nat>, items: seq<Json>, j: nat, p: Pull, run: Json)
    requires Refusal(r) == None && Attempts(ContextOf(r), fetch, calls) && calls[0] == 0 && |calls| <= r.attempts
    requires Evidence(ContextOf(r), fetch, calls[|calls| - 1], items, j, p, run)
    requires CountedReply(ContextOf(r), p, fetch(calls[|calls| - 1] + 3 + |Numbered(OwnerPulls(ContextOf(r), items))|, Runs(p.head)))
    ensures Decide(r, fetch) == Reuse(p.number, p.head, run)
  {
    hide ContextOf, Associate, Details, JudgePull, OnlyCandidate, AllAgree, IsPull, SameTrees, RunEvidence, Same, CountedReply;
    var c, call := ContextOf(r), calls[|calls| - 1];
    var summaries := Numbered(OwnerPulls(c, items));
    var pull :| OnlyCandidate(c, fetch, call + 1, summaries, j, pull) && IsPull(pull, p);
    OnlyCandidateIsFound(c, fetch, call + 1, summaries, j, pull);
    assert Attempt(c, fetch, call) == Candidates([pull]);
    ChainAssociates(c, fetch, r.attempts, calls);
    JudgeIsComplete(c, fetch, NextCall(c, fetch, call), pull, p, run);
  }

  lemma {:induction false} ChainAssociates(c: Context, fetch: Fetch, attempts: nat, calls: seq<nat>)
    requires Attempts(c, fetch, calls) && |calls| <= attempts
    requires Attempt(c, fetch, calls[|calls| - 1]) != Candidates([])
    ensures var a := Associate(c, fetch, attempts, calls[0]);
            a.outcome == Attempt(c, fetch, calls[|calls| - 1]) && a.next == NextCall(c, fetch, calls[|calls| - 1])
  {
    hide Attempt, NextCall;
    if |calls| > 1 {
      var rest := calls[1..];
      forall i | 0 <= i < |rest| - 1
        ensures Attempt(c, fetch, rest[i]) == Candidates([]) && rest[i + 1] == NextCall(c, fetch, rest[i])
      {
        assert rest[i] == calls[i + 1] && rest[i + 1] == calls[i + 2];
      }
      ChainAssociates(c, fetch, attempts - 1, rest);
      assert Attempt(c, fetch, calls[0]) == Candidates([]) && calls[1] == NextCall(c, fetch, calls[0]);
    }
  }

  lemma JudgeIsComplete(c: Context, fetch: Fetch, call: nat, pull: Json, p: Pull, run: Json)
    requires IsPull(pull, p) && SameTrees(c, fetch, call, p) && RunEvidence(c, fetch, call + 2, p, run)
    requires CountedReply(c, p, fetch(call + 2, Runs(p.head)))
    ensures JudgePull(c, fetch, call, pull) == Reuse(p.number, p.head, run)
  {
    hide PickRun, TreeSha, LatestAccepted, CountedRuns;
    LatestAcceptedIsPicked(c, p, Get(fetch(call + 2, Runs(p.head)).json.fields, "workflow_runs").items, run);
  }

  // ----- What the decision does not depend on -----

  ghost predicate Fixed(fetch: Fetch) {
    forall m, n, u :: fetch(m, u) == fetch(n, u)
  }

  // The two lists hold the same runs, save for runs that are not accepted.
  ghost predicate SameRelevantRuns(c: Context, p: Pull, a: seq<Json>, b: seq<Json>) {
    forall x :: RunVerdict(c, p, x) != Rejected ==> (x in a <==> x in b)
  }

  // Permuting the list of runs, repeating runs or inserting ones the filters reject changes nothing.
  lemma PickIgnoresOrder(c: Context, p: Pull, a: seq<Json>, b: seq<Json>)
    requires SameRelevantRuns(c, p, a, b) && CountedRuns(c, p, a)
    ensures PickRun(c, p, a) == PickRun(c, p, b)
  {
    hide MatchingRuns, Latest, RunVerdict, RunKey;
    MatchingAreTheAccepted(c, p, a);
    MatchingAreTheAccepted(c, p, b);
    if MatchingRuns(c, p, a).Some? && MatchingRuns(c, p, b).Some? {
      var ma, mb := MatchingRuns(c, p, a).value, MatchingRuns(c, p, b).value;
      forall x ensures x in ma <==> x in mb {
        assert x in ma ==> AcceptedRun(c, p, x);
      }
      if ma != [] { assert ma[0] in mb; }
      if mb != [] {
        assert mb[0] in ma;
        forall x | x in ma || x in mb ensures RunKey(x).Some? { CountedKey(x); }
        LatestExists(ma);
        LatestExists(mb);
        SameLatestKey(ma, mb);
        CountedKey(Latest(ma).value);
        CountedKey(Latest(mb).value);
      }
    }
  }

  lemma SameLatestKey(a: seq<Json>, b: seq<Json>)
    requires a != [] && b != [] && (forall x :: x in a <==> x in b)
    requires Latest(a).Some? && Latest(b).Some?
    ensures RunKey(Latest(a).value) == RunKey(Latest(b).value)
    ensures Latest(a).value in b && Latest(b).value in a
  {
    hide RunKey, Latest;
    LatestIsTheGreatest(a);
    LatestIsTheGreatest(b);
  }

  // Inserting a pull request that is not the owner's closed one on the base changes nothing.
  lemma {:induction false} OwnerPullsIgnoreOthers(c: Context, a: seq<Json>, x: Json, b: seq<Json>)
    requires !OwnerPull(c, x, false)
    ensures OwnerPulls(c, a + [x] + b) == OwnerPulls(c, a + b)
  {
    hide OwnerPull;
    if b == [] {
      assert (a + [x] + b)[..|a|] == a && a + b == a;
    } else {
      var front, last := b[..|b| - 1], b[|b| - 1];
      OwnerPullsIgnoreOthers(c, a, x, front);
      assert (a + [x] + b)[..|a| + |b|] == a + [x] + front && (a + b)[..|a + b| - 1] == a + front;
      assert (a + [x] + b)[|a| + |b|] == last && (a + b)[|a + b| - 1] == last;
    }
  }

  ghost predicate SameAnswer(c: Context, u: Url, a: Reply, b: Reply) {
    match u
    case Pulls(_) =>
      || a == b
      || (a.Body? && b.Body? && a.json.JList? && b.json.JList? && OwnerPulls(c, a.json.items) == OwnerPulls(c, b.json.items))
    case Runs(head) =>
      || a == b
      || (RunsOf(a).Some? && RunsOf(b).Some?
          && forall p: Pull | p.head == head ::
               SameRelevantRuns(c, p, RunsOf(a).value, RunsOf(b).value) && CountedRuns(c, p, RunsOf(a).value))
    case _ => a == b
  }

  function RunsOf(reply: Reply): Option<seq<Json>> {
    if reply.Body? && reply.json.JObj? && Get(reply.json.fields, "workflow_runs").JList?
    then Some(Get(reply.json.fields, "workflow_runs").items) else None
  }

  ghost predicate Alike(c: Context, f: Fetch, g: Fetch) {
    Fixed(f) && Fixed(g) && forall u :: SameAnswer(c, u, f(0, u), g(0, u))
  }

  lemma {:induction false} SameDetails(c: Context, f: Fetch, g: Fetch, call: nat, summaries: seq<Json>)
    requires Alike(c, f, g)
    ensures Details(c, f, call, summaries) == Details(c, g, call, summaries)
  {
    hide OwnerPull, Same, SameHead, Number;
    if summaries != [] {
      SameDetails(c, f, g, call, summaries[..|summaries| - 1]);
      var u := Detail(Number(summaries[|summaries| - 1]));
      assert SameAnswer(c, u, f(0, u), g(0, u));
    }
  }

  lemma SameAttempt(c: Context, f: Fetch, g: Fetch, call: nat)
    requires Alike(c, f, g)
    ensures Attempt(c, f, call) == Attempt(c, g, call) && NextCall(c, f, call) == NextCall(c, g, call)
  {
    hide Details, OwnerPulls, Numbered;
    var u := Pulls(c.sha);
    assert SameAnswer(c, u, f(0, u), g(0, u));
    assert f(call, u) == f(0, u) && g(call, u) == g(0, u);
    SameDetails(c, f, g, call + 1, Summaries(c, f(call, u)));
  }

  lemma {:induction false} SameAssociation(c: Context, f: Fetch, g: Fetch, attempts: nat, call: nat)
    requires attempts >= 1 && Alike(c, f, g)
    ensures Associate(c, f, attempts, call) == Associate(c, g, attempts, call)
  {
    hide Attempt, NextCall, Alike;
    SameAttempt(c, f, g, call);
    if attempts > 1 { SameAssociation(c, f, g, attempts - 1, NextCall(c, f, call)); }
  }

  lemma SameJudgement(c: Context, f: Fetch, g: Fetch, call: nat, p: Pull)
    requires Alike(c, f, g)
    ensures JudgeTrees(c, f, call, p) == JudgeTrees(c, g, call, p)
  {
    hide TreeSha, PickRun, SameRelevantRuns, CountedRuns;
    var main, head, u := Commit(c.sha), Commit(p.head), Runs(p.head);
    assert SameAnswer(c, main, f(0, main), g(0, main)) && SameAnswer(c, head, f(0, head), g(0, head));
    assert f(call, main) == f(0, main) && g(call, main) == g(0, main);
    assert f(call + 1, head) == f(0, head) && g(call + 1, head) == g(0, head);
    assert f(call + 2, u) == f(0, u) && g(call + 2, u) == g(0, u);
    assert SameAnswer(c, u, f(0, u), g(0, u));
    if f(0, u) != g(0, u) { PickIgnoresOrder(c, p, RunsOf(f(0, u)).value, RunsOf(g(0, u)).value); }
  }

  // Two APIs that do not change over time, and whose answers differ only in records the filters
  // drop and in the order of the runs, lead to the same decision.
  lemma DecisionIgnoresIrrelevantRecords(r: Request, f: Fetch, g: Fetch)
    requires Alike(ContextOf(r), f, g)
    ensures Decide(r, f) == Decide(r, g)
  {
    hide Associate, Alike, ContextOf, JudgeTrees;
    if Refusal(r) == None {
      var c := ContextOf(r);
      SameAssociation(c, f, g, r.attempts, 0);
      var a := Associate(c, f, r.attempts, 0);
      if a.outcome.Candidates? && |a.outcome.found| == 1 {
        var pull := a.outcome.found[0];
        if HeadOf(pull).JObj? && HexText(LowerText(GetText(HeadOf(pull).fields, "sha")), 40) {
          var sha := LowerText(GetText(HeadOf(pull).fields, "sha"));
          SameJudgement(c, f, g, a.next, Pull(Number(pull), sha.text, Get(HeadOf(pull).fields, "ref")));
        }
      }
    }
  }
}
