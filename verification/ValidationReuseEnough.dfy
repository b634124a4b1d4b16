// Conversely to what a reuse rests on: replies that hold it lead to the reuse.
module ValidationReuseEnough {
  import opened Options
  import opened JsonValues
  import opened JsonMembers
  import opened ValidationReuse
  import opened ValidationReuseSafety
  import opened ValidationReuseFields

  // The owner's closed pull requests with a number, a bool being one.
  ghost predicate NumberedPull(c: Context, pull: Json) {
    && ClosedPull(c, pull) && "number" in pull.fields && (pull.fields["number"].JInt? || pull.fields["number"].JBool?)
  }

  lemma NumberedIff(c: Context, pull: Json)
    ensures OwnerPull(c, pull, false) && Counted(pull) <==> NumberedPull(c, pull)
  {
    hide OwnerPull, ClosedPull;
    OwnerPullIff(c, pull);
    if ClosedPull(c, pull) { ClosedIsObject(c, pull); }
  }

  lemma ClosedIsObject(c: Context, pull: Json)
    requires ClosedPull(c, pull)
    ensures pull.JObj? && HasObject(pull.fields, "head")
  {
  }

  lemma NumberedAppend(a: seq<Json>, x: Json)
    ensures Numbered(a + [x]) == if Counted(x) then Numbered(a) + [x] else Numbered(a)
  {
    assert (a + [x])[..|a|] == a;
  }

  lemma OwnersAppend(c: Context, items: seq<Json>, x: Json)
    ensures OwnerPulls(c, items + [x]) == if OwnerPull(c, x, false) then OwnerPulls(c, items) + [x] else OwnerPulls(c, items)
  {
    hide OwnerPull;
    assert (items + [x])[..|items|] == items;
  }

  lemma {:induction false} OnlyListed(c: Context, items: seq<Json>, k: nat)
    requires forall i | 0 <= i < |items| :: NumberedPull(c, items[i]) <==> i == k
    ensures Numbered(OwnerPulls(c, items)) == if k < |items| then [items[k]] else []
  {
    hide OwnerPull, Counted, NumberedPull, OwnerPulls, Numbered;
    if items != [] {
      var front, x := items[..|items| - 1], items[|items| - 1];
      assert items == front + [x];
      OnlyListed(c, front, k);
      NumberedIff(c, x);
      OwnersAppend(c, front, x);
      NumberedAppend(OwnerPulls(c, front), x);
      assert [] + [x] == [x];
    } else {
      NothingListed(c);
    }
  }

  lemma NothingListed(c: Context)
    ensures Numbered(OwnerPulls(c, [])) == []
  {
  }

  // ----- The runs -----

  // The list holds a successful run, and every successful one has an integer number and id.
  ghost predicate ReusableRuns(c: Context, p: Pull, runs: seq<Json>) {
    && (exists i :: 0 <= i < |runs| && SuccessfulRun(c, p, runs[i]))
    && (forall i | 0 <= i < |runs| :: !Breaks(runs[i]) && (SuccessfulRun(c, p, runs[i]) ==> Counts(runs[i])))
  }

  lemma RunsAreCounted(c: Context, p: Pull, runs: seq<Json>)
    requires IsInt(p.number) && IsHex(p.head, 40) && ReusableRuns(c, p, runs)
    ensures CountedRuns(c, p, runs) && (forall x | x in runs :: RunVerdict(c, p, x) != Raises)
    ensures exists x | x in runs :: AcceptedRun(c, p, x)
  {
    hide RunVerdict, SuccessfulRun, Breaks;
    forall x | x in runs
      ensures RunVerdict(c, p, x) != Raises
      ensures AcceptedRun(c, p, x) <==> SuccessfulRun(c, p, x)
      ensures SuccessfulRun(c, p, x) ==> Counts(x)
    {
      VerdictIff(c, p, x);
      var i :| 0 <= i < |runs| && runs[i] == x;
    }
    var i :| 0 <= i < |runs| && SuccessfulRun(c, p, runs[i]);
    assert runs[i] in runs;
  }

  lemma RunsArePicked(c: Context, p: Pull, runs: seq<Json>)
    requires IsInt(p.number) && IsHex(p.head, 40) && ReusableRuns(c, p, runs)
    ensures PickRun(c, p, runs).Reuse?
  {
    hide RunVerdict, ReusableRuns, MatchingRuns, Latest, RunKey;
    RunsAreCounted(c, p, runs);
    MatchingAreTheAccepted(c, p, runs);
    var matching := MatchingRuns(c, p, runs).value;
    var x :| x in runs && AcceptedRun(c, p, x);
    assert x in matching;
    forall m | m in matching ensures RunKey(m).Some? { CountedKey(m); }
    LatestExists(matching);
    LatestIsTheGreatest(matching);
  }

  // ----- The decision -----

  lemma TreesAreSame(a: Json, b: Json)
    requires SameCommitTree(a, b)
    ensures TreeSha(a).Some? && TreeSha(a) == TreeSha(b)
  {
    hide Lower, Says;
    var sha :| IsHex(sha, 40) && Says(a.fields["tree"].fields, "sha", sha) && Says(b.fields["tree"].fields, "sha", sha);
    HexIsLower(sha);
    SaysIff(a.fields["tree"].fields, "sha", sha);
    SaysIff(b.fields["tree"].fields, "sha", sha);
  }

  lemma OwnRecordIsPull(c: Context, listed: Json, own: Json, p: Pull)
    requires ListedAndMerged(c, listed, own, p)
    ensures IsPull(own, p) && SameHead(listed, own) && Same(Number(own), Number(listed)) && OwnerPull(c, own, true)
  {
    OwnerPullIff(c, own);
    hide Says, Lower, OwnerPull;
    HexIsLower(p.head);
    SaysIff(own.fields["head"].fields, "sha", p.head);
    SaysIff(listed.fields["head"].fields, "sha", p.head);
    SameTurns(p.number, listed.fields["number"]);
    SameTurns(Member(listed.fields["head"].fields, "ref"), p.ref);
  }

  lemma SameTurns(a: Json, b: Json)
    ensures Same(a, b) <==> Same(b, a)
  {
    SameIff(a, b);
    SameIff(b, a);
  }

  // The first listing has one numbered pull request; its own record, the two commits and the runs
  // are what a reuse rests on.
  ghost predicate Enough(c: Context, fetch: Fetch, items: seq<Json>, k: nat, own: Json, p: Pull, runs: Fields) {
    && k < |items| && fetch(0, Pulls(c.sha)) == Body(JList(items))
    && (forall i | 0 <= i < |items| :: NumberedPull(c, items[i]) <==> i == k)
    && fetch(1, Detail(items[k].fields["number"])) == Body(own) && ListedAndMerged(c, items[k], own, p)
    && fetch(2, Commit(c.sha)).Body? && fetch(3, Commit(p.head)).Body?
    && SameCommitTree(fetch(2, Commit(c.sha)).json, fetch(3, Commit(p.head)).json)
    && fetch(4, Runs(p.head)) == Body(JObj(runs)) && "workflow_runs" in runs && runs["workflow_runs"].JList?
    && ReusableRuns(c, p, runs["workflow_runs"].items)
  }

  // Such replies are enough: the validation of the latest successful run is reused.
  lemma RepliesAreEnough(r: Request, fetch: Fetch, items: seq<Json>, k: nat, own: Json, p: Pull, runs: Fields)
    returns (best: Json)
    requires GoodRequest(r) && Enough(ContextOf(r), fetch, items, k, own, p, runs)
    ensures best in runs["workflow_runs"].items && SuccessfulRun(ContextOf(r), p, best) && Counts(best)
    ensures forall x | x in runs["workflow_runs"].items && SuccessfulRun(ContextOf(r), p, x) :: Counts(x) && NoLater(x, best)
    ensures Decide(r, fetch) == Reuse(p.number, p.head, best.fields["id"])
  {
    hide Decide, Evidence, GoodRequest, Refusal, ContextOf, ListedAndMerged, SuccessfulRun, PickRun, LatestAccepted, RunVerdict,
         ReusableRuns, SameCommitTree, NumberedPull, CountedReply;
    var c, list := ContextOf(r), runs["workflow_runs"].items;
    RequestIsGoodIff(r);
    TriesOnce(r);
    PullHasNumber(c, items[k], own, p);
    RunsArePicked(c, p, list);
    PickedRunIsLatest(c, p, list);
    best := LatestOfAll(c, p, list);
    EvidenceHeld(c, fetch, items, k, own, p, runs, best.fields["id"]);
    assert Attempts(c, fetch, [0]);
    OnlyListed(c, items, k);
    RunsReplyCounted(c, p, runs, fetch(4, Runs(p.head)));
    EvidenceIsEnough(r, fetch, [0], items, 0, p, best.fields["id"]);
  }

  lemma TriesOnce(r: Request)
    requires GoodRequest(r)
    ensures r.attempts >= 1
  {
  }

  lemma PullHasNumber(c: Context, listed: Json, own: Json, p: Pull)
    requires ListedAndMerged(c, listed, own, p)
    ensures IsInt(p.number) && IsHex(p.head, 40)
  {
  }

  lemma RunsReplyCounted(c: Context, p: Pull, runs: Fields, reply: Reply)
    requires reply == Body(JObj(runs)) && "workflow_runs" in runs && runs["workflow_runs"].JList?
    requires IsInt(p.number) && IsHex(p.head, 40) && ReusableRuns(c, p, runs["workflow_runs"].items)
    ensures CountedReply(c, p, reply)
  {
    hide ReusableRuns, CountedRuns, RunVerdict;
    RunsAreCounted(c, p, runs["workflow_runs"].items);
  }

  lemma LatestOfAll(c: Context, p: Pull, runs: seq<Json>) returns (best: Json)
    requires IsInt(p.number) && IsHex(p.head, 40) && ReusableRuns(c, p, runs) && PickRun(c, p, runs).Reuse?
    ensures best in runs && SuccessfulRun(c, p, best) && Counts(best)
    ensures forall x | x in runs && SuccessfulRun(c, p, x) :: Counts(x) && NoLater(x, best)
    ensures LatestAccepted(c, p, runs, best.fields["id"])
  {
    hide RunVerdict, SuccessfulRun, Breaks, RunKey, PickRun;
    PickedRunIsLatest(c, p, runs);
    best :| best in runs && AcceptedRun(c, p, best) && best.JObj? && Get(best.fields, "id") == PickRun(c, p, runs).run
            && RunKey(best).Some?
            && forall y | y in runs && AcceptedRun(c, p, y) :: RunKey(y).Some? && KeyLe(RunKey(y).value, RunKey(best).value);
    forall x | x in runs && SuccessfulRun(c, p, x) ensures Counts(x) && AcceptedRun(c, p, x) {
      var i :| 0 <= i < |runs| && runs[i] == x;
      VerdictIff(c, p, x);
    }
    VerdictIff(c, p, best);
    CountedKey(best);
    forall x | x in runs && SuccessfulRun(c, p, x) ensures NoLater(x, best) { CountedKey(x); }
  }

  lemma EvidenceHeld(c: Context, fetch: Fetch, items: seq<Json>, k: nat, own: Json, p: Pull, runs: Fields, run: Json)
    requires Enough(c, fetch, items, k, own, p, runs) && LatestAccepted(c, p, runs["workflow_runs"].items, run)
    ensures Evidence(c, fetch, 0, items, 0, p, run)
  {
    hide ListedAndMerged, LatestAccepted, ReusableRuns, SameCommitTree, NumberedPull, OwnerPull, IsPull, TreeSha, Same, SameHead;
    OnlyListed(c, items, k);
    OwnRecordIsPull(c, items[k], own, p);
    TreesAreSame(fetch(2, Commit(c.sha)).json, fetch(3, Commit(p.head)).json);
    var summaries := [items[k]];
    assert NumberedPull(c, items[k]);
    NumberOf(c, items[k]);
    assert DetailReply(fetch, 1, summaries, 0) == Body(own);
    IsObject(own, p);
    assert Agrees(fetch, 1, summaries, 0) && Merged(c, fetch, 1, summaries, 0);
    assert OnlyCandidate(c, fetch, 1, summaries, 0, own);
  }

  lemma NumberOf(c: Context, pull: Json)
    requires NumberedPull(c, pull)
    ensures pull.JObj? && Number(pull) == pull.fields["number"]
  {
  }

  lemma IsObject(own: Json, p: Pull)
    requires IsPull(own, p)
    ensures own.JObj?
  {
  }
}
