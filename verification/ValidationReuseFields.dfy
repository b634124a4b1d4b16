// What a reuse decision rests on, read off the members of the API's own replies.
module ValidationReuseFields {
  import opened Options
  import opened Text
  import opened JsonValues
  import opened JsonMembers
  import opened ValidationReuse
  import opened ValidationReuseSafety

  // ----- Texts -----

  ghost predicate SameLetter(a: char, b: char) {
    a == b || ('A' <= a <= 'Z' && b as int == a as int + 32) || ('A' <= b <= 'Z' && a as int == b as int + 32)
  }

  ghost predicate SameIgnoringCase(a: string, b: string) {
    |a| == |b| && forall i | 0 <= i < |a| :: SameLetter(a[i], b[i])
  }

  lemma LowerCharMatches(a: char, b: char)
    ensures LowerChar(a) == LowerChar(b) <==> SameLetter(a, b)
  {
  }

  lemma {:induction false} LowerMatches(a: string, b: string)
    ensures Lower(a) == Lower(b) <==> SameIgnoringCase(a, b)
  {
    if |a| == |b| && a != "" {
      var n := |a| - 1;
      LowerMatches(a[..n], b[..n]);
      LowerCharMatches(a[n], b[n]);
      assert Lower(a)[..n] == Lower(a[..n]) && Lower(b)[..n] == Lower(b[..n]);
      assert Lower(a)[n] == LowerChar(a[n]) && Lower(b)[n] == LowerChar(b[n]);
    }
  }

  // The member is a text equal to t but for case; a missing one counts as empty, and null, a bool
  // and an integer as Python prints them.
  ghost predicate Says(fields: Fields, key: string, t: string) {
    if key !in fields then t == ""
    else match fields[key]
      case JStr(s) => SameIgnoringCase(s, t)
      case JNull => SameIgnoringCase("None", t)
      case JBool(b) => SameIgnoringCase(if b then "True" else "False", t)
      case JInt(n) => if n < 0 then SameIgnoringCase("-" + Decimal(-n), t) else SameIgnoringCase(Decimal(n), t)
      case _ => false
  }

  lemma SaysIff(fields: Fields, key: string, t: string)
    ensures LowerText(GetText(fields, key)) == Plain(Lower(t)) <==> Says(fields, key, t)
  {
    hide Lower, SameIgnoringCase, Decimal;
    var shown := GetText(fields, key);
    if shown.Plain? { LowerMatches(shown.text, t); }
    if key !in fields { EmptyMatches(t); }
  }

  lemma EmptyMatches(t: string)
    ensures SameIgnoringCase("", t) <==> t == ""
  {
  }

  lemma {:induction false} HexIsLower(s: string)
    requires IsHex(s, |s|)
    ensures Lower(s) == s
  {
    if s != "" {
      HexIsLower(s[..|s| - 1]);
      assert IsHexDigit(s[|s| - 1]);
    }
  }

  // ----- Workflow runs -----

  // The run names the pull request, or no pull request at all.
  ghost predicate ForThePull(p: Pull, pulls: seq<Json>) {
    || (forall i | 0 <= i < |pulls| :: !pulls[i].JObj?)
    || (exists i :: 0 <= i < |pulls| && pulls[i].JObj? && "number" in pulls[i].fields && Same(pulls[i].fields["number"], p.number))
  }

  // A completed, successful pull-request run of this repository for the head, started by the owner.
  ghost predicate SuccessfulRun(c: Context, p: Pull, run: Json) {
    && run.JObj?
    && "pull_requests" in run.fields && run.fields["pull_requests"].JList?
    && HasObject(run.fields, "actor") && HasObject(run.fields, "head_repository")
    && Has(run.fields, "event", JStr("pull_request"))
    && Has(run.fields, "status", JStr("completed"))
    && Has(run.fields, "conclusion", JStr("success"))
    && Says(run.fields, "head_sha", p.head)
    && Same(Member(run.fields, "head_branch"), p.ref)
    && Says(run.fields["actor"].fields, "login", c.owner)
    && Says(run.fields["head_repository"].fields, "full_name", c.repository)
    && ForThePull(p, run.fields["pull_requests"].items)
  }

  // Some pull request's number is a list or an object, on which the code stops with an error.
  ghost predicate Breaks(run: Json) {
    && run.JObj?
    && "pull_requests" in run.fields && run.fields["pull_requests"].JList?
    && HasObject(run.fields, "actor") && HasObject(run.fields, "head_repository")
    && exists i :: 0 <= i < |run.fields["pull_requests"].items| && BadNumber(run.fields["pull_requests"].items[i])
  }

  ghost predicate BadNumber(pull: Json) {
    pull.JObj? && "number" in pull.fields && (pull.fields["number"].JList? || pull.fields["number"].JObj?)
  }

  lemma ForThePullIff(p: Pull, pulls: seq<Json>)
    requires IsInt(p.number)
    ensures NamesThePull(p, pulls) <==> ForThePull(p, pulls)
    ensures (exists x | x in pulls :: x.JObj? && Unhashable(Number(x))) <==> exists i :: 0 <= i < |pulls| && BadNumber(pulls[i])
  {
    hide Same;
    forall x: Json | x.JObj? && "number" !in x.fields ensures !Same(Number(x), p.number) { NullIsNoInt(p.number); }
    if x :| x in pulls && x.JObj? && Same(Number(x), p.number) {
      var i :| 0 <= i < |pulls| && pulls[i] == x;
    }
    if i :| 0 <= i < |pulls| && BadNumber(pulls[i]) { assert pulls[i] in pulls; }
    if i :| 0 <= i < |pulls| && pulls[i].JObj? && "number" in pulls[i].fields && Same(pulls[i].fields["number"], p.number) {
      assert pulls[i] in pulls;
    }
  }

  lemma NullIsNoInt(number: Json)
    requires IsInt(number)
    ensures !Same(JNull, number)
  {
  }

  lemma VerdictIff(c: Context, p: Pull, run: Json)
    requires IsInt(p.number) && IsHex(p.head, 40)
    ensures RunVerdict(c, p, run) == Raises <==> Breaks(run)
    ensures RunVerdict(c, p, run) == Accepted <==> SuccessfulRun(c, p, run) && !Breaks(run)
  {
    hide Same, Says, Lower, NamesThePull, ForThePull, BadNumber, Unhashable;
    if RunShape(run) {
      ForThePullIff(p, run.fields["pull_requests"].items);
      HexIsLower(p.head);
      SaysIff(run.fields, "head_sha", p.head);
      SaysIff(run.fields["actor"].fields, "login", c.owner);
      SaysIff(run.fields["head_repository"].fields, "full_name", c.repository);
    }
  }

  // Without a run of that kind nothing is reused; the refusal names the pull request.
  lemma NoSuccessfulRunRefuses(c: Context, p: Pull, runs: seq<Json>)
    requires IsInt(p.number) && IsHex(p.head, 40)
    requires forall i | 0 <= i < |runs| :: !Breaks(runs[i])
    ensures PickRun(c, p, runs) == RefuseFor(NoRun, p.number, p.head)
            <==> forall i | 0 <= i < |runs| :: !SuccessfulRun(c, p, runs[i])
    ensures PickRun(c, p, runs).Reuse? ==> exists i :: 0 <= i < |runs| && SuccessfulRun(c, p, runs[i])
  {
    hide RunVerdict, SuccessfulRun, Breaks, MatchingRuns, Latest;
    MatchingAreTheAccepted(c, p, runs);
    forall x | x in runs
      ensures AcceptedRun(c, p, x) <==> SuccessfulRun(c, p, x)
      ensures RunVerdict(c, p, x) != Raises
    {
      VerdictIff(c, p, x);
      var i :| 0 <= i < |runs| && runs[i] == x;
    }
    var matching := MatchingRuns(c, p, runs).value;
    assert matching != [] ==> matching[0] in matching;
    if forall i | 0 <= i < |runs| :: !SuccessfulRun(c, p, runs[i]) {
      forall x | x in runs ensures !AcceptedRun(c, p, x) {
        var i :| 0 <= i < |runs| && runs[i] == x;
      }
    } else {
      var i :| 0 <= i < |runs| && SuccessfulRun(c, p, runs[i]);
      assert runs[i] in runs && runs[i] in MatchingRuns(c, p, runs).value;
    }
  }

  // A value of a run's member that its reuse does not allow.
  ghost predicate Spoils(c: Context, p: Pull, key: string, v: Json) {
    || (key == "event" && v != JStr("pull_request"))
    || (key == "status" && v != JStr("completed"))
    || (key == "conclusion" && v != JStr("success"))
    || (key == "head_sha" && !Says(map["head_sha" := v], "head_sha", p.head))
    || (key == "head_branch" && !Same(v, p.ref))
    || (key == "actor" && (!v.JObj? || !Says(v.fields, "login", c.owner)))
    || (key == "head_repository" && (!v.JObj? || !Says(v.fields, "full_name", c.repository)))
    || (key == "pull_requests" && (!v.JList? || !ForThePull(p, v.items)))
  }

  // Replacing any one of those members of the only such run by another value refuses.
  lemma OneSpoiledMemberRefuses(c: Context, p: Pull, runs: seq<Json>, i: nat, key: string, v: Json)
    requires IsInt(p.number) && IsHex(p.head, 40)
    requires i < |runs| && runs[i].JObj? && Spoils(c, p, key, v)
    requires forall j | 0 <= j < |runs| && j != i :: !SuccessfulRun(c, p, runs[j]) && !Breaks(runs[j])
    requires !Breaks(JObj(runs[i].fields[key := v]))
    ensures PickRun(c, p, runs[i := JObj(runs[i].fields[key := v])]) == RefuseFor(NoRun, p.number, p.head)
  {
    SpoiledRun(c, p, runs[i].fields, key, v);
    hide SuccessfulRun, Breaks, Spoils, PickRun;
    var changed := runs[i := JObj(runs[i].fields[key := v])];
    forall j | 0 <= j < |changed| ensures !SuccessfulRun(c, p, changed[j]) && !Breaks(changed[j]) {
      if j != i { assert changed[j] == runs[j]; }
    }
    NoSuccessfulRunRefuses(c, p, changed);
  }

  lemma SpoiledRun(c: Context, p: Pull, fields: Fields, key: string, v: Json)
    requires Spoils(c, p, key, v)
    ensures !SuccessfulRun(c, p, JObj(fields[key := v]))
  {
    hide Same, ForThePull, SameIgnoringCase;
  }

  // ----- Pull requests -----

  ghost predicate Filled(fields: Fields, key: string) {
    && key in fields && fields[key] != JNull && fields[key] != JBool(false) && fields[key] != JInt(0)
    && fields[key] != JFloat(0.0) && fields[key] != JStr("") && fields[key] != JList([]) && fields[key] != JObj(map[])
  }

  // A closed pull request of the owner to the base branch of this repository.
  ghost predicate ClosedPull(c: Context, pull: Json) {
    && pull.JObj?
    && HasObject(pull.fields, "head") && HasObject(pull.fields, "base") && HasObject(pull.fields, "user")
    && HasObject(pull.fields["base"].fields, "repo")
    && Has(pull.fields, "state", JStr("closed"))
    && Has(pull.fields["base"].fields, "ref", JStr(c.base))
    && Says(pull.fields["base"].fields["repo"].fields, "full_name", c.repository)
    && Says(pull.fields["user"].fields, "login", c.owner)
  }

  ghost predicate MergedPull(c: Context, pull: Json) {
    ClosedPull(c, pull) && Has(pull.fields, "merged", JBool(true)) && Filled(pull.fields, "merged_at")
  }

  lemma OwnerPullIff(c: Context, pull: Json)
    ensures OwnerPull(c, pull, false) <==> ClosedPull(c, pull)
    ensures OwnerPull(c, pull, true) <==> MergedPull(c, pull)
  {
    hide Says, Lower;
    if pull.JObj? && HasObject(pull.fields, "base") && HasObject(pull.fields["base"].fields, "repo") && HasObject(pull.fields, "user") {
      SaysIff(pull.fields["base"].fields["repo"].fields, "full_name", c.repository);
      SaysIff(pull.fields["user"].fields, "login", c.owner);
    }
  }

  // ----- The request -----

  ghost predicate GoodRequest(r: Request) {
    && (exists owner, name :: r.repository == owner + ['/'] + name && '/' !in owner && '/' !in name)
    && |r.sha| == 40 && (forall i | 0 <= i < 40 :: HexLetter(r.sha[i]))
    && r.workflow != "" && r.base != "" && r.token != "" && r.attempts >= 1 && r.seconds >= 0.0
  }

  predicate HexLetter(c: char) {
    '0' <= c <= '9' || 'a' <= c <= 'f' || 'A' <= c <= 'F'
  }

  lemma {:induction false} LowerHex(s: string)
    ensures IsHex(Lower(s), |s|) <==> forall i | 0 <= i < |s| :: HexLetter(s[i])
  {
    if s != "" {
      var n := |s| - 1;
      LowerHex(s[..n]);
      assert Lower(s)[..n] == Lower(s[..n]) && Lower(s)[n] == LowerChar(s[n]);
      assert IsHexDigit(LowerChar(s[n])) <==> HexLetter(s[n]);
      assert IsHex(Lower(s), |s|) <==> IsHex(Lower(s[..n]), n) && IsHexDigit(Lower(s)[n]);
    }
  }

  lemma TwoPieces(s: string)
    ensures |Split(s, '/')| == 2 <==> exists owner, name :: s == owner + ['/'] + name && '/' !in owner && '/' !in name
    ensures forall owner, name | s == owner + ['/'] + name && '/' !in owner && '/' !in name :: Split(s, '/')[0] == owner
  {
    hide Split;
    forall owner, name | s == owner + ['/'] + name && '/' !in owner && '/' !in name ensures Split(s, '/') == [owner, name] {
      JoinTwo(owner, name);
      SplitJoin([owner, name], '/');
    }
    if |Split(s, '/')| == 2 {
      var pieces := Split(s, '/');
      JoinSplit(s, '/');
      assert pieces == [pieces[0], pieces[1]] && pieces[0] in pieces && pieces[1] in pieces;
      JoinTwo(pieces[0], pieces[1]);
    }
  }

  lemma JoinTwo(a: string, b: string)
    ensures Join([a, b], '/') == a + ['/'] + b
  {
    assert [a, b][..1] == [a];
  }

  // A request is turned down at once exactly when it is no good request.
  lemma RequestIsGoodIff(r: Request)
    ensures Refusal(r) == None <==> GoodRequest(r)
  {
    hide Split, Lower;
    TwoPieces(r.repository);
    LowerHex(r.sha);
  }

  // ----- The decision -----

  ghost predicate SameCommitTree(a: Json, b: Json) {
    && a.JObj? && b.JObj? && HasObject(a.fields, "tree") && HasObject(b.fields, "tree")
    && exists sha :: IsHex(sha, 40) && Says(a.fields["tree"].fields, "sha", sha) && Says(b.fields["tree"].fields, "sha", sha)
  }

  lemma TreesIff(a: Json, b: Json)
    requires TreeSha(a).Some? && TreeSha(a) == TreeSha(b)
    ensures SameCommitTree(a, b)
  {
    hide Lower, Says;
    var sha := TreeSha(a).value;
    HexIsLower(sha);
    SaysIff(a.fields["tree"].fields, "sha", sha);
    SaysIff(b.fields["tree"].fields, "sha", sha);
  }

  // The one listed pull request behind the decision, with its own record.
  ghost predicate ListedAndMerged(c: Context, listed: Json, own: Json, p: Pull) {
    && ClosedPull(c, listed) && MergedPull(c, own)
    && Has(own.fields, "number", p.number) && (p.number.JInt? || p.number.JBool?)
    && "number" in listed.fields && Same(listed.fields["number"], p.number)
    && IsHex(p.head, 40) && Says(own.fields["head"].fields, "sha", p.head) && Says(listed.fields["head"].fields, "sha", p.head)
    && p.ref == Member(own.fields["head"].fields, "ref") && Same(Member(listed.fields["head"].fields, "ref"), p.ref)
  }

  // Whatever the API answers, a reuse rests on these replies: a listing with the pull request,
  // its own record, two commits with one tree, and a list of runs holding a completed, successful
  // one for its head, whose id is returned.
  ghost predicate RestsOn(c: Context, fetch: Fetch, call: nat, n: nat, items: seq<Json>, listed: Json, own: Json, p: Pull,
                          runs: Fields, best: Json) {
    && fetch(call, Pulls(c.sha)) == Body(JList(items)) && listed in items
    && (exists i, number | call < i <= call + n :: fetch(i, Detail(number)) == Body(own))
    && ListedAndMerged(c, listed, own, p)
    && fetch(call + n + 1, Commit(c.sha)).Body? && fetch(call + n + 2, Commit(p.head)).Body?
    && SameCommitTree(fetch(call + n + 1, Commit(c.sha)).json, fetch(call + n + 2, Commit(p.head)).json)
    && fetch(call + n + 3, Runs(p.head)) == Body(JObj(runs))
    && "workflow_runs" in runs && runs["workflow_runs"].JList? && best in runs["workflow_runs"].items
    && SuccessfulRun(c, p, best)
  }

  // What the decision is about: the owner's part of the repository's name, and the commit.
  ghost predicate About(r: Request, c: Context) {
    && c.repository == r.repository && c.base == r.base && IsHex(c.sha, 40) && SameIgnoringCase(c.sha, r.sha)
    && '/' !in c.owner && exists name :: r.repository == c.owner + ['/'] + name && '/' !in name
  }

  lemma ContextIs(r: Request)
    requires GoodRequest(r)
    ensures About(r, ContextOf(r))
  {
    hide Split, Lower;
    TwoPieces(r.repository);
    LowerHex(r.sha);
    HexIsLower(Lower(r.sha));
    LowerMatches(Lower(r.sha), r.sha);
  }

  lemma ReuseRestsOnTheReplies(r: Request, fetch: Fetch)
    returns (call: nat, n: nat, items: seq<Json>, listed: Json, own: Json, p: Pull, runs: Fields, best: Json)
    requires Decide(r, fetch).Reuse?
    ensures GoodRequest(r) && About(r, ContextOf(r))
    ensures RestsOn(ContextOf(r), fetch, call, n, items, listed, own, p, runs, best)
    ensures "id" in best.fields && Decide(r, fetch) == Reuse(p.number, p.head, best.fields["id"])
  {
    hide Decide, Evidence, RestsOn, GoodRequest, Refusal, ContextOf, About;
    var j: nat;
    call, items, j, p := ReuseIsProven(r, fetch);
    RequestIsGoodIff(r);
    ContextIs(r);
    n, listed, own, runs, best := EvidenceRests(ContextOf(r), fetch, call, items, j, p, Decide(r, fetch).run);
  }

  lemma EvidenceRests(c: Context, fetch: Fetch, call: nat, items: seq<Json>, j: nat, p: Pull, run: Json)
    returns (n: nat, listed: Json, own: Json, runs: Fields, best: Json)
    requires Evidence(c, fetch, call, items, j, p, run)
    ensures RestsOn(c, fetch, call, n, items, listed, own, p, runs, best)
    ensures "id" in best.fields && best.fields["id"] == run
  {
    hide OwnerPull, SameHead, Same, SuccessfulRun, SameCommitTree, ListedAndMerged, LatestAccepted, TreeSha;
    var summaries := Numbered(OwnerPulls(c, items));
    n := |summaries|;
    own :| OnlyCandidate(c, fetch, call + 1, summaries, j, own) && IsPull(own, p);
    listed := summaries[j];
    assert Agrees(fetch, call + 1, summaries, j) && Merged(c, fetch, call + 1, summaries, j);
    assert listed in summaries;
    assert fetch(call + 1 + j, Detail(Number(listed))) == Body(own);
    PullRests(c, listed, own, p);
    TreesIff(fetch(call + n + 1, Commit(c.sha)).json, fetch(call + n + 2, Commit(p.head)).json);
    runs := fetch(call + n + 3, Runs(p.head)).json.fields;
    best := RunRests(c, p, Get(runs, "workflow_runs").items, run);
  }

  lemma PullRests(c: Context, listed: Json, own: Json, p: Pull)
    requires OwnerPull(c, listed, false) && OwnerPull(c, own, true) && IsPull(own, p)
    requires Same(Number(own), Number(listed)) && SameHead(listed, own) && Counted(listed)
    ensures ListedAndMerged(c, listed, own, p)
  {
    OwnerPullIff(c, listed);
    OwnerPullIff(c, own);
    hide OwnerPull, Says, Lower, ClosedPull, MergedPull;
    HeadsSay(c, listed, own, p);
  }

  lemma HeadsSay(c: Context, listed: Json, own: Json, p: Pull)
    requires ClosedPull(c, listed) && MergedPull(c, own) && IsPull(own, p) && SameHead(listed, own)
    requires Same(Number(own), Number(listed)) && Counted(listed)
    ensures ListedAndMerged(c, listed, own, p)
  {
    hide Says, Lower;
    HexIsLower(p.head);
    SaysIff(own.fields["head"].fields, "sha", p.head);
    SaysIff(listed.fields["head"].fields, "sha", p.head);
  }

  ghost predicate Counts(run: Json) {
    run.JObj? && "run_number" in run.fields && run.fields["run_number"].JInt? && "id" in run.fields && run.fields["id"].JInt?
  }

  // a was started no later than b: the run number decides, and between equal ones the id.
  ghost predicate NoLater(a: Json, b: Json)
    requires Counts(a) && Counts(b)
  {
    || a.fields["run_number"].n < b.fields["run_number"].n
    || (a.fields["run_number"].n == b.fields["run_number"].n && a.fields["id"].n <= b.fields["id"].n)
  }

  // Of the successful runs the latest is reused.
  lemma LatestRunIsReused(c: Context, p: Pull, runs: seq<Json>, x: Json) returns (best: Json)
    requires IsInt(p.number) && IsHex(p.head, 40) && PickRun(c, p, runs).Reuse?
    requires forall y | y in runs && SuccessfulRun(c, p, y) :: Counts(y)
    requires x in runs && SuccessfulRun(c, p, x) && !Breaks(x)
    ensures best in runs && SuccessfulRun(c, p, best) && Counts(best) && NoLater(x, best)
    ensures PickRun(c, p, runs) == Reuse(p.number, p.head, best.fields["id"])
  {
    hide RunVerdict, SuccessfulRun, Breaks, RunKey, PickRun;
    PickedRunIsLatest(c, p, runs);
    best :| best in runs && AcceptedRun(c, p, best) && best.JObj? && Get(best.fields, "id") == PickRun(c, p, runs).run
            && RunKey(best).Some?
            && forall y | y in runs && AcceptedRun(c, p, y) :: RunKey(y).Some? && KeyLe(RunKey(y).value, RunKey(best).value);
    VerdictIff(c, p, best);
    VerdictIff(c, p, x);
    CountedKey(best);
    CountedKey(x);
    assert AcceptedRun(c, p, x);
  }

  // The number a member is read as.
  lemma NumbersRead(n: int, s: string, x: real)
    ensures IntOf(JNull) == Some(0) && IntOf(JBool(false)) == Some(0) && IntOf(JBool(true)) == Some(1) && IntOf(JInt(n)) == Some(n)
    ensures IntOf(JStr("")) == Some(0) && IntOf(JList([])) == Some(0) && IntOf(JObj(map[])) == Some(0)
    ensures s != "" ==> IntOf(JStr(s)) == IntOfText(s)
    ensures IntOf(JFloat(x)).Some? && (0.0 <= x ==> IntOf(JFloat(x)).value as real <= x < IntOf(JFloat(x)).value as real + 1.0)
    ensures x <= 0.0 ==> IntOf(JFloat(x)).value as real - 1.0 < x <= IntOf(JFloat(x)).value as real
    ensures forall j: Json | (j.JList? && j.items != []) || (j.JObj? && j.fields != map[]) :: IntOf(j) == None
  {
  }

  lemma RunRests(c: Context, p: Pull, runs: seq<Json>, run: Json) returns (best: Json)
    requires LatestAccepted(c, p, runs, run) && IsInt(p.number) && IsHex(p.head, 40)
    ensures best in runs && SuccessfulRun(c, p, best) && "id" in best.fields && best.fields["id"] == run
  {
    hide RunVerdict, SuccessfulRun, RunKey;
    best :| best in runs && AcceptedRun(c, p, best) && best.JObj? && Get(best.fields, "id") == run && IsInt(run);
    VerdictIff(c, p, best);
  }
}
