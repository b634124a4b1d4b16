// decide_validation_reuse: may a commit on main reuse the validation its pull request passed?
// The GitHub API is an oracle that may answer every call differently, or fail.
module ValidationReuse {
  import opened Options
  import opened Text
  import opened JsonValues

  datatype Url = Pulls(sha: string) | Detail(number: Json) | Commit(sha: string) | Runs(head: string)

  datatype Reply = Body(json: Json) | Failure

  // The reply to the n-th call of a decision, counting from zero.
  type Fetch = (nat, Url) -> Reply

  datatype Context = Context(repository: string, owner: string, base: string, sha: string)

  datatype Reason =
    | BadRepository | BadSha | MissingContext | BadRetry | BadListing | BadDetail | Disagreement | NotExactlyOne
    | BadHead | BadTrees | TreesDiffer | BadRuns | BadRunList | NoRun | BadRunId

  // Raised is an exception that leaves the decision; the caller then runs the full validation.
  datatype Decision =
    | Refuse(why: Reason)
    | RefuseFor(why: Reason, number: Json, head: string)
    | Reuse(number: Json, head: string, run: Json)
    | Raised

  type Fields = map<string, Json>

  // An int in Python's sense: a bool is one.
  predicate IsInt(j: Json) {
    j.JInt? || j.JBool?
  }

  predicate NamesEqual(fields: Fields, key: string, name: string) {
    LowerText(GetText(fields, key)) == Plain(Lower(name))
  }

  // ----- Pull requests -----

  predicate OwnerPull(c: Context, item: Json, merged: bool) {
    && item.JObj?
    && var f := item.fields;
    && Get(f, "head").JObj? && Get(f, "base").JObj? && Get(f, "user").JObj?
    && Get(Get(f, "base").fields, "repo").JObj?
    && Get(f, "state") == JStr("closed")
    && Get(Get(f, "base").fields, "ref") == JStr(c.base)
    && NamesEqual(Get(Get(f, "base").fields, "repo").fields, "full_name", c.repository)
    && NamesEqual(Get(f, "user").fields, "login", c.owner)
    && (merged ==> Get(f, "merged") == JBool(true) && Truthy(Get(f, "merged_at")))
  }

  function OwnerPulls(c: Context, items: seq<Json>): (r: seq<Json>)
    ensures forall x :: x in r <==> x in items && OwnerPull(c, x, false)
  {
    if items == [] then [] else
      var front, last := OwnerPulls(c, items[..|items| - 1]), items[|items| - 1];
      if OwnerPull(c, last, false) then front + [last] else front
  }

  predicate Counted(item: Json) {
    item.JObj? && IsInt(Get(item.fields, "number"))
  }

  function Number(item: Json): Json {
    if item.JObj? then Get(item.fields, "number") else JNull
  }

  function Numbered(items: seq<Json>): (r: seq<Json>)
    ensures forall x :: x in r <==> x in items && Counted(x)
  {
    if items == [] then [] else
      var front, last := Numbered(items[..|items| - 1]), items[|items| - 1];
      if Counted(last) then front + [last] else front
  }

  function HeadOf(item: Json): Json {
    if item.JObj? then Get(item.fields, "head") else JNull
  }

  // The authoritative record of a pull request says the same as its listing.
  predicate SameHead(summary: Json, detail: Json) {
    && HeadOf(summary).JObj? && HeadOf(detail).JObj?
    && LowerText(GetText(HeadOf(summary).fields, "sha")) == LowerText(GetText(HeadOf(detail).fields, "sha"))
    && Same(Get(HeadOf(summary).fields, "ref"), Get(HeadOf(detail).fields, "ref"))
  }

  datatype Progress = Candidates(found: seq<Json>) | Halted(decision: Decision)

  function AddDetail(c: Context, found: seq<Json>, summary: Json, reply: Reply): Progress {
    if reply.Failure? then Halted(Raised)
    else if !reply.json.JObj? || !Same(Number(reply.json), Number(summary)) then Halted(Refuse(BadDetail))
    else if !SameHead(summary, reply.json) then Halted(Refuse(Disagreement))
    else Candidates(if OwnerPull(c, reply.json, true) then found + [reply.json] else found)
  }

  function Details(c: Context, fetch: Fetch, call: nat, summaries: seq<Json>): Progress {
    if summaries == [] then Candidates([]) else
      var front, last := Details(c, fetch, call, summaries[..|summaries| - 1]), summaries[|summaries| - 1];
      if front.Halted? then front
      else AddDetail(c, front.found, last, fetch(call + |summaries| - 1, Detail(Number(last))))
  }

  function Summaries(c: Context, reply: Reply): seq<Json> {
    if reply.Body? && reply.json.JList? then Numbered(OwnerPulls(c, reply.json.items)) else []
  }

  // One attempt: the listing is call number `call`, the details follow.
  function Attempt(c: Context, fetch: Fetch, call: nat): Progress {
    var reply := fetch(call, Pulls(c.sha));
    if reply.Failure? then Halted(Raised)
    else if !reply.json.JList? then Halted(Refuse(BadListing))
    else Details(c, fetch, call + 1, Summaries(c, reply))
  }

  function NextCall(c: Context, fetch: Fetch, call: nat): nat {
    call + 1 + |Summaries(c, fetch(call, Pulls(c.sha)))|
  }

  // The outcome of all attempts, the next free call number, and how often it listed and slept.
  datatype Association = Association(outcome: Progress, next: nat, listings: nat, sleeps: nat)

  function Associate(c: Context, fetch: Fetch, attempts: nat, call: nat): Association
    requires attempts >= 1
  {
    var p, next := Attempt(c, fetch, call), NextCall(c, fetch, call);
    if p == Candidates([]) && attempts > 1 then
      var rest := Associate(c, fetch, attempts - 1, next);
      rest.(listings := rest.listings + 1, sleeps := rest.sleeps + 1)
    else Association(p, next, 1, 0)
  }

  // ----- Trees -----

  function TreeSha(payload: Json): Option<string> {
    if !payload.JObj? || !Get(payload.fields, "tree").JObj? then None
    else
      var sha := LowerText(GetText(Get(payload.fields, "tree").fields, "sha"));
      if HexText(sha, 40) then Some(sha.text) else None
  }

  // ----- Workflow runs -----

  datatype Verdict = Accepted | Rejected | Raises

  predicate Unhashable(j: Json) {
    j.JList? || j.JObj?
  }

  datatype Pull = Pull(number: Json, head: string, ref: Json)

  predicate NamesThePull(p: Pull, pulls: seq<Json>) {
    || (forall x | x in pulls :: !x.JObj?)
    || (exists x | x in pulls :: x.JObj? && Same(Number(x), p.number))
  }

  predicate RunShape(run: Json) {
    && run.JObj? && Get(run.fields, "pull_requests").JList? && Get(run.fields, "actor").JObj?
    && Get(run.fields, "head_repository").JObj?
  }

  function RunVerdict(c: Context, p: Pull, run: Json): Verdict {
    if !RunShape(run) then Rejected
    else
      var f := run.fields;
      var pulls := Get(f, "pull_requests").items;
      if exists x | x in pulls :: x.JObj? && Unhashable(Number(x)) then Raises
      else if
        && Get(f, "event") == JStr("pull_request") && Get(f, "status") == JStr("completed")
        && Get(f, "conclusion") == JStr("success")
        && LowerText(GetText(f, "head_sha")) == Plain(p.head) && Same(Get(f, "head_branch"), p.ref)
        && NamesThePull(p, pulls)
        && NamesEqual(Get(f, "actor").fields, "login", c.owner)
        && NamesEqual(Get(f, "head_repository").fields, "full_name", c.repository)
      then Accepted
      else Rejected
  }

  // The accepted runs, or None for an exception.
  function MatchingRuns(c: Context, p: Pull, runs: seq<Json>): Option<seq<Json>> {
    if runs == [] then Some([]) else
      var front, last := MatchingRuns(c, p, runs[..|runs| - 1]), runs[|runs| - 1];
      if front.None? || RunVerdict(c, p, last).Raises? then None
      else if RunVerdict(c, p, last).Accepted? then Some(front.value + [last])
      else front
  }

  function Truncated(x: real): int {
    if x < 0.0 then -(-x).Floor else x.Floor
  }

  // The number a value is read as, 0 if it is false or missing; None is an exception.
  function IntOf(j: Json): Option<int> {
    if !Truthy(j) then Some(0)
    else match j
      case JBool(b) => Some(1)
      case JInt(n) => Some(n)
      case JFloat(x) => Some(Truncated(x))
      case JStr(s) => IntOfText(s)
      case _ => None
  }

  function RunKey(run: Json): Option<(int, int)> {
    if !run.JObj? then None
    else
      var number, id := IntOf(Get(run.fields, "run_number")), IntOf(Get(run.fields, "id"));
      if number.None? || id.None? then None else Some((number.value, id.value))
  }

  predicate KeyLe(a: (int, int), b: (int, int)) {
    a.0 < b.0 || (a.0 == b.0 && a.1 <= b.1)
  }

  // max with that key: the first of the greatest, or None for an exception.
  function Latest(runs: seq<Json>): Option<Json>
    requires runs != []
  {
    var last := runs[|runs| - 1];
    if RunKey(last).None? then None
    else if |runs| == 1 then Some(last)
    else
      var best := Latest(runs[..|runs| - 1]);
      if best.None? || RunKey(best.value).None? then None
      else if KeyLe(RunKey(last).value, RunKey(best.value).value) then best
      else Some(last)
  }

  function PickRun(c: Context, p: Pull, runs: seq<Json>): Decision {
    var matching := MatchingRuns(c, p, runs);
    if matching.None? then Raised
    else if matching.value == [] then RefuseFor(NoRun, p.number, p.head)
    else
      var latest := Latest(matching.value);
      if latest.None? || !latest.value.JObj? then Raised
      else if !IsInt(Get(latest.value.fields, "id")) then Refuse(BadRunId)
      else Reuse(p.number, p.head, Get(latest.value.fields, "id"))
  }

  // ----- The decision -----

  function JudgeRuns(c: Context, p: Pull, reply: Reply): Decision {
    if reply.Failure? then Raised
    else if !reply.json.JObj? then Refuse(BadRuns)
    else if !Get(reply.json.fields, "workflow_runs").JList? then Refuse(BadRunList)
    else PickRun(c, p, Get(reply.json.fields, "workflow_runs").items)
  }

  function JudgeTrees(c: Context, fetch: Fetch, call: nat, p: Pull): Decision {
    var main, head := fetch(call, Commit(c.sha)), fetch(call + 1, Commit(p.head));
    if main.Failure? || head.Failure? then Raised
    else if TreeSha(main.json).None? || TreeSha(head.json).None? then RefuseFor(BadTrees, p.number, p.head)
    else if TreeSha(main.json) != TreeSha(head.json) then RefuseFor(TreesDiffer, p.number, p.head)
    else JudgeRuns(c, p, fetch(call + 2, Runs(p.head)))
  }

  function JudgePull(c: Context, fetch: Fetch, call: nat, pull: Json): Decision {
    if !HeadOf(pull).JObj? then Raised
    else
      var sha := LowerText(GetText(HeadOf(pull).fields, "sha"));
      if !IsInt(Number(pull)) || !HexText(sha, 40) then Refuse(BadHead)
      else JudgeTrees(c, fetch, call, Pull(Number(pull), sha.text, Get(HeadOf(pull).fields, "ref")))
  }

  function Conclude(c: Context, fetch: Fetch, a: Association): Decision {
    match a.outcome
    case Halted(d) => d
    case Candidates(found) => if |found| != 1 then Refuse(NotExactlyOne) else JudgePull(c, fetch, a.next, found[0])
  }

  datatype Request = Request(repository: string, sha: string, workflow: string, base: string, token: string,
                             attempts: int, seconds: real)

  function Refusal(r: Request): Option<Reason> {
    if |Split(r.repository, '/')| != 2 then Some(BadRepository)
    else if !IsHex(Lower(r.sha), 40) then Some(BadSha)
    else if r.workflow == "" || r.base == "" || r.token == "" then Some(MissingContext)
    else if r.attempts < 1 || r.seconds < 0.0 then Some(BadRetry)
    else None
  }

  function ContextOf(r: Request): Context {
    Context(r.repository, Split(r.repository, '/')[0], r.base, Lower(r.sha))
  }

  function Decide(r: Request, fetch: Fetch): Decision {
    if Refusal(r).Some? then Refuse(Refusal(r).value)
    else Conclude(ContextOf(r), fetch, Associate(ContextOf(r), fetch, r.attempts, 0))
  }
}
