// spina_portal/sw.js: a cache-first worker with any number of requests in flight. Every await
// of shellResponse is a point where other requests may proceed.
module ServiceWorker {
  import opened Options

  datatype Url = Url(origin: string, path: string, query: string)
  datatype Request = Request(httpMethod: string, url: Url, navigate: bool)
  datatype Response = Response(status: nat, body: string)

  predicate Ok(r: Response) {
    200 <= r.status <= 299
  }

  // cache.put and cache.addAll reject a partial response, although it is ok.
  predicate Storable(r: Response) {
    Ok(r) && r.status != 206
  }

  predicate StartsWith(s: string, prefix: string) {
    prefix <= s
  }

  // The worker's origin and the paths it precaches; the shell page is one of them.
  datatype Site = Site(origin: string, assets: seq<string>) {
    predicate Valid() {
      "/index.html" in assets
    }

    function Asset(path: string): Url {
      Url(origin, path, "")
    }

    predicate IsShell(u: Url) {
      u.origin == origin && u.query == "" && u.path in assets
    }

    predicate Handles(r: Request) {
      && r.httpMethod == "GET"
      && r.url.origin == origin
      && !StartsWith(r.url.path, "/api/")
      && !StartsWith(r.url.path, "/health/")
    }

    // Navigations share the entry of the shell page.
    function KeyOf(r: Request): Url {
      if r.navigate then Asset("/index.html") else r.url
    }
  }

  // Where a request stands in shellResponse: before cache.match, before fetch, before cache.put.
  datatype Stage = Matching | Fetching | Putting(response: Response)
  datatype Flight = Flight(request: Request, stage: Stage)

  datatype Answer = Answered(response: Response) | NetworkError

  // `replies` is everything the network ever said to the worker, `answers` everything the
  // worker said to pages.
  datatype System = System(installed: bool, cache: map<Url, Response>, flights: map<nat, Flight>,
                           replies: seq<(Request, Response)>, answers: seq<(Request, Answer)>)

  datatype Event =
    | Install(batch: seq<Response>)
    | Fetch(id: nat, request: Request)
    | Match(id: nat)
    | Reply(id: nat, response: Response)
    | Fail(id: nat)
    | Put(id: nat, stored: bool)

  function AssetRequests(site: Site): seq<Request> {
    seq(|site.assets|, i requires 0 <= i < |site.assets| => Request("GET", site.Asset(site.assets[i]), false))
  }

  function AddAll(cache: map<Url, Response>, replies: seq<(Request, Response)>): map<Url, Response> {
    if replies == [] then cache
    else AddAll(cache, replies[..|replies| - 1])[replies[|replies| - 1].0.url := replies[|replies| - 1].1]
  }

  function Zip(requests: seq<Request>, responses: seq<Response>): seq<(Request, Response)>
    requires |requests| == |responses|
  {
    seq(|requests|, i requires 0 <= i < |requests| => (requests[i], responses[i]))
  }

  function Finish(s: System, id: nat, a: Answer): System
    requires id in s.flights
  {
    s.(flights := s.flights - {id}, answers := s.answers + [(s.flights[id].request, a)])
  }

  function Step(site: Site, s: System, e: Event): System {
    match e
    case Install(batch) =>
      // addAll stores all responses or none.
      if !s.installed && |batch| == |site.assets| && forall r | r in batch :: Storable(r) then
        var replies := Zip(AssetRequests(site), batch);
        s.(installed := true, cache := AddAll(s.cache, replies), replies := s.replies + replies)
      else s
    case Fetch(id, request) =>
      if s.installed && site.Handles(request) && id !in s.flights
      then s.(flights := s.flights[id := Flight(request, Matching)]) else s
    case Match(id) =>
      if id in s.flights && s.flights[id].stage.Matching? then
        var key := site.KeyOf(s.flights[id].request);
        if key in s.cache then Finish(s, id, Answered(s.cache[key]))
        else s.(flights := s.flights[id := Flight(s.flights[id].request, Fetching)])
      else s
    case Reply(id, response) =>
      if id in s.flights && s.flights[id].stage.Fetching? then
        var t := s.(replies := s.replies + [(s.flights[id].request, response)]);
        if Ok(response) then t.(flights := t.flights[id := Flight(t.flights[id].request, Putting(response))])
        else Finish(t, id, Answered(response))
      else s
    case Fail(id) =>
      if id in s.flights && s.flights[id].stage.Fetching? then Finish(s, id, NetworkError) else s
    case Put(id, stored) =>
      if id in s.flights && s.flights[id].stage.Putting? then
        var f := s.flights[id];
        var t := if stored && Storable(f.stage.response)
                 then s.(cache := s.cache[site.KeyOf(f.request) := f.stage.response]) else s;
        Finish(t, id, Answered(f.stage.response))
      else s
  }

  function Run(site: Site, s: System, events: seq<Event>): System {
    if events == [] then s
    else Step(site, Run(site, s, events[..|events| - 1]), events[|events| - 1])
  }

  const Fresh := System(false, map[], map[], [], [])

  // ----- The cache and the answers come from the network -----

  ghost predicate FromNetwork(site: Site, replies: seq<(Request, Response)>, key: Url, r: Response) {
    exists i :: 0 <= i < |replies| && replies[i].1 == r && site.KeyOf(replies[i].0) == key
  }

  ghost predicate Replied(replies: seq<(Request, Response)>, request: Request, r: Response) {
    exists i :: 0 <= i < |replies| && replies[i] == (request, r)
  }

  ghost predicate Honest(site: Site, replies: seq<(Request, Response)>, answer: (Request, Answer)) {
    answer.1.Answered? ==>
      || (Ok(answer.1.response) && FromNetwork(site, replies, site.KeyOf(answer.0), answer.1.response))
      || Replied(replies, answer.0, answer.1.response)
  }

  ghost predicate Inv(site: Site, s: System) {
    && (forall k | k in s.cache :: Storable(s.cache[k]) && FromNetwork(site, s.replies, k, s.cache[k]))
    && (forall id | id in s.flights ::
          site.Handles(s.flights[id].request)
          && (s.flights[id].stage.Putting? ==>
                Ok(s.flights[id].stage.response) && Replied(s.replies, s.flights[id].request, s.flights[id].stage.response)))
    && (forall i | 0 <= i < |s.answers| :: site.Handles(s.answers[i].0) && Honest(site, s.replies, s.answers[i]))
  }

  lemma MoreReplies(site: Site, replies: seq<(Request, Response)>, more: seq<(Request, Response)>)
    ensures forall k, r | FromNetwork(site, replies, k, r) :: FromNetwork(site, replies + more, k, r)
    ensures forall q, r | Replied(replies, q, r) :: Replied(replies + more, q, r)
    ensures forall a | Honest(site, replies, a) :: Honest(site, replies + more, a)
  {
    forall k, r | FromNetwork(site, replies, k, r) ensures FromNetwork(site, replies + more, k, r) {
      var i :| 0 <= i < |replies| && replies[i].1 == r && site.KeyOf(replies[i].0) == k;
      assert (replies + more)[i] == replies[i];
    }
    forall q, r | Replied(replies, q, r) ensures Replied(replies + more, q, r) {
      var i :| 0 <= i < |replies| && replies[i] == (q, r);
      assert (replies + more)[i] == replies[i];
    }
  }

  lemma {:induction false} AddAllStores(site: Site, cache: map<Url, Response>, replies: seq<(Request, Response)>)
    ensures var after := AddAll(cache, replies);
            && (forall k | k in after :: (k in cache && after[k] == cache[k])
                                        || exists i :: 0 <= i < |replies| && replies[i].0.url == k && replies[i].1 == after[k])
            && (forall i | 0 <= i < |replies| :: replies[i].0.url in after)
  {
    if replies != [] {
      var before := replies[..|replies| - 1];
      AddAllStores(site, cache, before);
      var after := AddAll(cache, replies);
      forall k | k in after
        ensures (k in cache && after[k] == cache[k])
                || exists i :: 0 <= i < |replies| && replies[i].0.url == k && replies[i].1 == after[k]
      {
        if k == replies[|replies| - 1].0.url {
          assert replies[|replies| - 1].1 == after[k];
        } else if !(k in cache && after[k] == cache[k]) {
          var i :| 0 <= i < |before| && before[i].0.url == k && before[i].1 == after[k];
          assert replies[i] == before[i];
        }
      }
      forall i | 0 <= i < |replies| ensures replies[i].0.url in after {
        if i < |before| { assert before[i] == replies[i]; }
      }
    }
  }

  lemma InstallKeepsInv(site: Site, s: System, e: Event)
    requires Inv(site, s) && e.Install?
    ensures Inv(site, Step(site, s, e))
  {
    var t := Step(site, s, e);
    if t != s {
      var replies := Zip(AssetRequests(site), e.batch);
      AddAllStores(site, s.cache, replies);
      MoreReplies(site, s.replies, replies);
      hide AddAll;
      forall k | k in t.cache ensures Storable(t.cache[k]) && FromNetwork(site, t.replies, k, t.cache[k]) {
        if !(k in s.cache && t.cache[k] == s.cache[k]) {
          var i :| 0 <= i < |replies| && replies[i].0.url == k && replies[i].1 == t.cache[k];
          assert t.replies[|s.replies| + i] == replies[i];
          assert site.KeyOf(replies[i].0) == k;
          assert e.batch[i] in e.batch;
        }
      }
    }
  }

  lemma ReplyKeepsInv(site: Site, s: System, e: Event)
    requires Inv(site, s) && e.Reply?
    ensures Inv(site, Step(site, s, e))
  {
    if e.id in s.flights && s.flights[e.id].stage.Fetching? {
      var more := [(s.flights[e.id].request, e.response)];
      MoreReplies(site, s.replies, more);
      assert (s.replies + more)[|s.replies|] == more[0];
      assert Replied(s.replies + more, s.flights[e.id].request, e.response);
      hide FromNetwork, Replied;
    }
  }

  lemma StepKeepsInv(site: Site, s: System, e: Event)
    requires Inv(site, s)
    ensures Inv(site, Step(site, s, e))
  {
    match e
    case Install(_) => InstallKeepsInv(site, s, e);
    case Reply(_, _) => ReplyKeepsInv(site, s, e);
    case Put(id, _) =>
      if id in s.flights && s.flights[id].stage.Putting? {
        var f := s.flights[id];
        RepliedIsFromNetwork(site, s.replies, f.request, f.stage.response);
      }
      hide FromNetwork, Replied;
    case _ =>
      hide FromNetwork, Replied, AddAll;
  }

  lemma RepliedIsFromNetwork(site: Site, replies: seq<(Request, Response)>, q: Request, r: Response)
    requires Replied(replies, q, r)
    ensures FromNetwork(site, replies, site.KeyOf(q), r)
  {
  }

  lemma {:induction false} RunKeepsInv(site: Site, events: seq<Event>)
    ensures Inv(site, Run(site, Fresh, events))
  {
    if events != [] {
      hide Inv, Step;
      RunKeepsInv(site, events[..|events| - 1]);
      StepKeepsInv(site, Run(site, Fresh, events[..|events| - 1]), events[|events| - 1]);
    }
  }

  // Under every interleaving: a cached entry is an ok response the network gave for that key,
  // and an answer is either such a response or the network's own reply to that very request.
  lemma CacheAndAnswersComeFromTheNetwork(site: Site, events: seq<Event>)
    ensures var s := Run(site, Fresh, events);
            && (forall k | k in s.cache :: Ok(s.cache[k]) && FromNetwork(site, s.replies, k, s.cache[k]))
            && (forall i | 0 <= i < |s.answers| :: site.Handles(s.answers[i].0) && Honest(site, s.replies, s.answers[i]))
  {
    RunKeepsInv(site, events);
  }

  // One deployed version: whatever the network says that is ok is the page or asset deployed
  // under that key, navigations being served as the shell page.
  ghost predicate Serves(site: Site, deployed: Url -> Response, replies: seq<(Request, Response)>) {
    forall i | 0 <= i < |replies| && Ok(replies[i].1) :: replies[i].1 == deployed(site.KeyOf(replies[i].0))
  }

  // Cache-first is then indistinguishable from asking the network: an answer is the deployed
  // response for its key, or an error the network itself gave to that request.
  lemma CacheFirstRefinesTheNetwork(site: Site, deployed: Url -> Response, events: seq<Event>)
    requires Serves(site, deployed, Run(site, Fresh, events).replies)
    ensures var s := Run(site, Fresh, events);
            forall i | 0 <= i < |s.answers| && s.answers[i].1.Answered? ::
              var r := s.answers[i].1.response;
              if Ok(r) then r == deployed(site.KeyOf(s.answers[i].0)) else Replied(s.replies, s.answers[i].0, r)
  {
    RunKeepsInv(site, events);
    var s := Run(site, Fresh, events);
    hide Run;
    forall i | 0 <= i < |s.answers| && s.answers[i].1.Answered? && Ok(s.answers[i].1.response)
      ensures s.answers[i].1.response == deployed(site.KeyOf(s.answers[i].0))
    {
      assert Honest(site, s.replies, s.answers[i]);
      if Replied(s.replies, s.answers[i].0, s.answers[i].1.response) {
        RepliedIsFromNetwork(site, s.replies, s.answers[i].0, s.answers[i].1.response);
      }
    }
  }

  // ----- What touches the cache -----

  // A request of another method, another origin, the API or the health checks can be left out of
  // any run: it changes nothing, then or later.
  lemma {:induction false} ForeignRequestsChangeNothing(site: Site, s: System, before: seq<Event>, id: nat, q: Request, after: seq<Event>)
    requires !site.Handles(q)
    ensures Run(site, s, before + [Fetch(id, q)] + after) == Run(site, s, before + after)
  {
    if after == [] {
      assert (before + [Fetch(id, q)] + after)[..|before|] == before && before + after == before;
    } else {
      hide Step;
      var front, last := after[..|after| - 1], after[|after| - 1];
      ForeignRequestsChangeNothing(site, s, before, id, q, front);
      var longer, shorter := before + [Fetch(id, q)] + after, before + after;
      assert longer[..|longer| - 1] == before + [Fetch(id, q)] + front && longer[|longer| - 1] == last;
      assert shorter[..|shorter| - 1] == before + front && shorter[|shorter| - 1] == last;
    }
  }

  // The put of a request that missed the key, with a response the cache takes.
  predicate Stores(site: Site, s: System, e: Event, key: Url) {
    && e.Put? && e.stored && e.id in s.flights && s.flights[e.id].stage.Putting?
    && Storable(s.flights[e.id].stage.response) && site.KeyOf(s.flights[e.id].request) == key
  }

  // The response a run stored last under the key, if any.
  function LastStored(site: Site, s: System, events: seq<Event>, key: Url): Option<Response> {
    if events == [] then None
    else
      var front, e := events[..|events| - 1], events[|events| - 1];
      var t := Run(site, s, front);
      if Stores(site, t, e, key) then Some(t.flights[e.id].stage.response) else LastStored(site, s, front, key)
  }

  function Entry(s: System, key: Url): Option<Response> {
    if key in s.cache then Some(s.cache[key]) else None
  }

  // Between two states of a run after installation the entry of a key is the response last
  // stored under it, and where nothing was stored it is what it was.
  lemma {:induction false} EntryIsTheLastStored(site: Site, s: System, events: seq<Event>, key: Url)
    requires s.installed
    ensures var t, last := Run(site, s, events), LastStored(site, s, events, key);
            t.installed && Entry(t, key) == if last.Some? then last else Entry(s, key)
  {
    if events != [] {
      hide Step, Stores;
      var front := events[..|events| - 1];
      EntryIsTheLastStored(site, s, front, key);
      StoresStep(site, Run(site, s, front), events[|events| - 1], key);
    }
  }

  lemma StoresStep(site: Site, s: System, e: Event, key: Url)
    requires s.installed
    ensures Step(site, s, e).installed
    ensures Stores(site, s, e, key) ==> e.id in s.flights && s.flights[e.id].stage.Putting?
    ensures Entry(Step(site, s, e), key) == if Stores(site, s, e, key) then Some(s.flights[e.id].stage.response) else Entry(s, key)
  {
    hide AddAll;
  }

  // ----- Exactly when an entry is final -----

  // A request in flight that can still change the entry of its key: it has missed the key and
  // waits for the network, or holds another response that the cache takes.
  predicate Threatens(f: Flight, entry: Response) {
    f.stage.Fetching? || (f.stage.Putting? && Storable(f.stage.response) && f.stage.response != entry)
  }

  ghost predicate Frozen(site: Site, s: System, key: Url) {
    key in s.cache
    && forall id | id in s.flights && site.KeyOf(s.flights[id].request) == key :: !Threatens(s.flights[id], s.cache[key])
  }

  ghost predicate Final(site: Site, s: System, key: Url) {
    forall events :: Entry(Run(site, s, events), key) == Entry(s, key)
  }

  // A cached entry stays the same in every continuation if and only if no request in flight
  // threatens it.
  lemma EntryIsFinalIffFrozen(site: Site, s: System, key: Url)
    requires s.installed && key in s.cache
    ensures Frozen(site, s, key) <==> Final(site, s, key)
  {
    hide Step, Run;
    if Frozen(site, s, key) {
      forall events ensures Entry(Run(site, s, events), key) == Entry(s, key) { FrozenRun(site, s, key, events); }
    } else {
      var id :| id in s.flights && site.KeyOf(s.flights[id].request) == key && Threatens(s.flights[id], s.cache[key]);
      var events := ThreatCarriedOut(site, s, key, id);
    }
  }

  lemma {:induction false} FrozenRun(site: Site, s: System, key: Url, events: seq<Event>)
    requires s.installed && Frozen(site, s, key)
    ensures var t := Run(site, s, events);
            t.installed && Frozen(site, t, key) && t.cache[key] == s.cache[key]
  {
    if events != [] {
      hide Frozen, Step;
      FrozenRun(site, s, key, events[..|events| - 1]);
      FrozenStep(site, Run(site, s, events[..|events| - 1]), key, events[|events| - 1]);
    }
  }

  lemma FrozenStep(site: Site, s: System, key: Url, e: Event)
    requires s.installed && Frozen(site, s, key)
    ensures var t := Step(site, s, e);
            t.installed && Frozen(site, t, key) && t.cache[key] == s.cache[key]
  {
    hide AddAll;
  }

  lemma ThreatCarriedOut(site: Site, s: System, key: Url, id: nat) returns (events: seq<Event>)
    requires s.installed && key in s.cache && id in s.flights && site.KeyOf(s.flights[id].request) == key
    requires Threatens(s.flights[id], s.cache[key])
    ensures Entry(Run(site, s, events), key) != Entry(s, key)
  {
    var other := Response(200, if s.cache[key].body == "" then "x" else "");
    if s.flights[id].stage.Putting? {
      events := [Put(id, true)];
      assert events[..0] == [];
    } else {
      events := [Reply(id, other), Put(id, true)];
      assert events[..1] == [Reply(id, other)] && [Reply(id, other)][..0] == [];
      assert Run(site, s, [Reply(id, other)]) == Step(site, s, Reply(id, other));
    }
  }

  // Threats arise: on every site, from the first installation, two requests for a page outside
  // the shell that both miss it store one response and then overwrite it with the other.
  lemma ConcurrentMissesOverwrite(site: Site, batch: seq<Response>, q: Request, first: Response, second: Response)
    returns (events: seq<Event>)
    requires |batch| == |site.assets| && forall r | r in batch :: Storable(r)
    requires site.Handles(q) && !site.IsShell(site.KeyOf(q)) && Storable(first) && Storable(second) && first != second
    ensures var s := Run(site, Fresh, events);
            && s.installed && Entry(s, site.KeyOf(q)) == Some(first) && !Frozen(site, s, site.KeyOf(q))
            && Entry(Step(site, s, Put(1, true)), site.KeyOf(q)) == Some(second)
  {
    var s := InstalledOnly(site, batch, site.KeyOf(q));
    hide Run, Step, Frozen, AddAll;
    events := Then(site, [], Install(batch));
    events := Then(site, events, Fetch(0, q));
    events := Then(site, events, Fetch(1, q));
    events := Then(site, events, Match(0));
    events := Then(site, events, Match(1));
    events := Then(site, events, Reply(0, first));
    events := Then(site, events, Reply(1, second));
    events := Then(site, events, Put(0, true));
    BothMissed(site, s, q, first, second);
  }

  lemma Then(site: Site, events: seq<Event>, e: Event) returns (longer: seq<Event>)
    ensures longer == events + [e] && Run(site, Fresh, longer) == Step(site, Run(site, Fresh, events), e)
    ensures events == [] ==> Run(site, Fresh, events) == Fresh
  {
    hide Step;
    longer := events + [e];
    assert longer[..|events|] == events;
  }

  lemma InstalledOnly(site: Site, batch: seq<Response>, key: Url) returns (s: System)
    requires |batch| == |site.assets| && (forall r | r in batch :: Storable(r)) && !site.IsShell(key)
    ensures s == Step(site, Fresh, Install(batch)) && s.installed && s.flights == map[] && key !in s.cache
  {
    var replies := Zip(AssetRequests(site), batch);
    AddAllStores(site, map[], replies);
    hide AddAll;
    s := Step(site, Fresh, Install(batch));
    forall i | 0 <= i < |replies| ensures replies[i].0.url != key { assert site.IsShell(replies[i].0.url); }
  }

  function AfterTwo(site: Site, s: System, a: Event, b: Event): System {
    Step(site, Step(site, s, a), b)
  }

  lemma BothMissed(site: Site, s: System, q: Request, first: Response, second: Response)
    requires s.installed && s.flights == map[] && site.KeyOf(q) !in s.cache
    requires site.Handles(q) && Storable(first) && Storable(second) && first != second
    ensures var t := AfterTwo(site, AfterTwo(site, AfterTwo(site, Step(site, s, Fetch(0, q)), Fetch(1, q), Match(0)),
                                             Match(1), Reply(0, first)), Reply(1, second), Put(0, true));
            && t.installed && Entry(t, site.KeyOf(q)) == Some(first) && !Frozen(site, t, site.KeyOf(q))
            && Entry(Step(site, t, Put(1, true)), site.KeyOf(q)) == Some(second)
  {
    var a := TwoMiss(site, s, q);
    var b := TwoReplies(site, a, q, first, second);
    hide Step;
    assert Threatens(b.flights[1], b.cache[site.KeyOf(q)]);
  }

  lemma TwoMiss(site: Site, s: System, q: Request) returns (t: System)
    requires s.installed && s.flights == map[] && site.KeyOf(q) !in s.cache && site.Handles(q)
    ensures t == Step(site, AfterTwo(site, Step(site, s, Fetch(0, q)), Fetch(1, q), Match(0)), Match(1))
    ensures t.installed && t.cache == s.cache && t.flights == map[0 := Flight(q, Fetching), 1 := Flight(q, Fetching)]
  {
    hide AddAll;
    var a := AfterTwo(site, Step(site, s, Fetch(0, q)), Fetch(1, q), Match(0));
    assert a == s.(flights := map[0 := Flight(q, Fetching), 1 := Flight(q, Matching)]);
    t := Step(site, a, Match(1));
  }

  lemma TwoReplies(site: Site, s: System, q: Request, first: Response, second: Response) returns (t: System)
    requires s.installed && s.flights == map[0 := Flight(q, Fetching), 1 := Flight(q, Fetching)]
    requires Storable(first) && Storable(second)
    ensures t == AfterTwo(site, Step(site, s, Reply(0, first)), Reply(1, second), Put(0, true))
    ensures t.installed && t.cache == s.cache[site.KeyOf(q) := first] && 1 in t.flights && t.flights[1] == Flight(q, Putting(second))
    ensures Entry(Step(site, t, Put(1, true)), site.KeyOf(q)) == Some(second)
  {
    hide AddAll;
    t := AfterTwo(site, Step(site, s, Reply(0, first)), Reply(1, second), Put(0, true));
  }

  // ----- One version of the shell -----

  // All shell entries are there, and no request for one of them ever gets past cache.match.
  ghost predicate ShellInv(site: Site, s: System, shell: map<Url, Response>) {
    && (forall k | site.IsShell(k) :: k in shell && k in s.cache && s.cache[k] == shell[k])
    && (forall id | id in s.flights && site.IsShell(site.KeyOf(s.flights[id].request)) :: s.flights[id].stage.Matching?)
    && (forall i | 0 <= i < |s.answers| && site.IsShell(site.KeyOf(s.answers[i].0)) ::
          s.answers[i].1 == Answered(shell[site.KeyOf(s.answers[i].0)]))
  }

  lemma StepKeepsShell(site: Site, s: System, shell: map<Url, Response>, e: Event)
    requires s.installed && ShellInv(site, s, shell)
    ensures Step(site, s, e).installed && ShellInv(site, Step(site, s, e), shell)
  {
    hide AddAll;
  }

  // After installation the shell is frozen: whatever the network serves later, newer releases
  // included, every shell entry stays the one of the installed batch, and every navigation and
  // every request for a shell asset is answered from that batch.
  lemma {:induction false} ShellStaysOnOneVersion(site: Site, s: System, events: seq<Event>)
    requires s.installed && s.flights == map[] && s.answers == [] && forall k | site.IsShell(k) :: k in s.cache
    ensures var t := Run(site, s, events);
            && t.installed
            && ShellInv(site, t, s.cache)
  {
    if events != [] {
      hide Step;
      ShellStaysOnOneVersion(site, s, events[..|events| - 1]);
      StepKeepsShell(site, Run(site, s, events[..|events| - 1]), s.cache, events[|events| - 1]);
    }
  }

  // Installation itself establishes the premise.
  lemma InstallFillsTheShell(site: Site, batch: seq<Response>)
    requires |batch| == |site.assets| && forall r | r in batch :: Storable(r)
    ensures var s := Step(site, Fresh, Install(batch));
            && s.installed && s.flights == map[] && s.answers == []
            && (forall k | site.IsShell(k) :: k in s.cache)
            && (forall q: Request | site.Valid() && q.navigate :: site.IsShell(site.KeyOf(q)))
  {
    var replies := Zip(AssetRequests(site), batch);
    AddAllStores(site, map[], replies);
    hide AddAll;
    var s := Step(site, Fresh, Install(batch));
    forall k | site.IsShell(k) ensures k in s.cache {
      var i :| 0 <= i < |site.assets| && site.assets[i] == k.path;
      assert replies[i].0.url == k;
    }
  }
}
