// What the worker does with a request, from the request's own method, origin and path and the
// reply's own status, over whole runs.
module ServiceWorkerRules {
  import opened Options
  import opened ServiceWorker

  // A read of the worker's origin outside the API and the health checks.
  ghost predicate OwnRead(site: Site, q: Request) {
    q.httpMethod == "GET" && q.url.origin == site.origin && OpenPath(q.url.path)
  }

  ghost predicate OpenPath(path: string) {
    !("/api/" <= path) && !("/health/" <= path)
  }

  // A reply the cache may keep: successful and whole.
  ghost predicate Keepable(r: Response) {
    200 <= r.status < 300 && r.status != 206
  }

  ghost predicate ShellKey(site: Site, key: Url) {
    key.origin == site.origin && key.query == "" && key.path in site.assets
  }

  // The key a request is cached under.
  ghost predicate CachedUnder(site: Site, q: Request, key: Url) {
    if q.navigate then key == Url(site.origin, "/index.html", "") else key == q.url
  }

  // Only own reads are in flight or answered, and but for the shell only they are cached; every
  // cached reply is successful and whole.
  ghost predicate InScope(site: Site, s: System) {
    && (forall id | id in s.flights :: OwnRead(site, s.flights[id].request))
    && (forall i | 0 <= i < |s.answers| :: OwnRead(site, s.answers[i].0))
    && (forall key | key in s.cache :: ShellKey(site, key) || (key.origin == site.origin && OpenPath(key.path)))
    && (forall key | key in s.cache :: Keepable(s.cache[key]))
  }

  lemma InstallStaysInScope(site: Site, s: System, batch: seq<Response>)
    requires InScope(site, s)
    ensures InScope(site, Step(site, s, Install(batch)))
  {
    hide OwnRead, OpenPath, Ok;
    var t := Step(site, s, Install(batch));
    if t != s {
      var replies := Zip(AssetRequests(site), batch);
      AddAllStores(site, s.cache, replies);
      hide AddAll;
      forall key | key in t.cache && !(key in s.cache && t.cache[key] == s.cache[key])
        ensures ShellKey(site, key) && Storable(t.cache[key])
      {
        var i :| 0 <= i < |replies| && replies[i].0.url == key && replies[i].1 == t.cache[key];
        assert batch[i] in batch && site.assets[i] in site.assets;
      }
      forall r | Storable(r) ensures Keepable(r) { StorableIsKeepable(r); }
    }
  }

  lemma StorableIsKeepable(r: Response)
    ensures Storable(r) <==> Keepable(r)
  {
  }

  lemma StepStaysInScope(site: Site, s: System, e: Event)
    requires InScope(site, s)
    ensures InScope(site, Step(site, s, e))
  {
    hide OwnRead, OpenPath, Keepable, ShellKey, AddAll, Ok;
    match e
    case Install(batch) => InstallStaysInScope(site, s, batch);
    case Fetch(_, q) => HandledAreOwn(site, q);
    case Put(id, _) =>
      if id in s.flights && s.flights[id].stage.Putting? {
        KeyIsOpen(site, s.flights[id].request);
        StorableIsKeepable(s.flights[id].stage.response);
      }
    case _ =>
  }

  lemma KeyIsOpen(site: Site, q: Request)
    requires OwnRead(site, q)
    ensures site.KeyOf(q).origin == site.origin && OpenPath(site.KeyOf(q).path)
  {
    assert "/index.html"[1] == 'i' && "/api/"[1] == 'a' && "/health/"[1] == 'h';
  }

  lemma HandledAreOwn(site: Site, q: Request)
    ensures site.Handles(q) <==> OwnRead(site, q)
  {
  }

  // In every run no API, health, non-GET or cross-origin request is ever taken up, answered or
  // cached, and no failed or partial reply is.
  lemma {:induction false} RunsStayInScope(site: Site, events: seq<Event>)
    ensures InScope(site, Run(site, Fresh, events))
  {
    if events != [] {
      hide Step, InScope;
      RunsStayInScope(site, events[..|events| - 1]);
      StepStaysInScope(site, Run(site, Fresh, events[..|events| - 1]), events[|events| - 1]);
    }
  }

  // A request that is no own read can be left out of any run, whatever else happens.
  lemma OthersAreLeftAlone(site: Site, s: System, before: seq<Event>, id: nat, q: Request, after: seq<Event>)
    requires !OwnRead(site, q)
    ensures Run(site, s, before + [Fetch(id, q)] + after) == Run(site, s, before + after)
  {
    HandledAreOwn(site, q);
    ForeignRequestsChangeNothing(site, s, before, id, q, after);
  }

  lemma Two(site: Site, s: System, a: Event, b: Event)
    ensures Run(site, s, [a, b]) == Step(site, Step(site, s, a), b)
  {
    hide Step;
    assert [a, b][..1] == [a] && [a][..0] == [];
    assert Run(site, s, [a]) == Step(site, s, a);
  }

  lemma Four(site: Site, s: System, a: Event, b: Event, c: Event, d: Event)
    ensures Run(site, s, [a, b, c, d]) == Step(site, Step(site, Step(site, Step(site, s, a), b), c), d)
  {
    hide Step;
    Two(site, s, a, b);
    assert [a, b, c, d][..3] == [a, b, c] && [a, b, c][..2] == [a, b];
    assert Run(site, s, [a, b, c]) == Step(site, Run(site, s, [a, b]), c);
  }

  // Every own read enters the flow. When its key is cached it is answered from there and nothing
  // else changes.
  lemma CachedReadIsAnswered(site: Site, s: System, id: nat, q: Request, key: Url)
    requires s.installed && id !in s.flights && OwnRead(site, q) && CachedUnder(site, q, key) && key in s.cache
    ensures Run(site, s, [Fetch(id, q), Match(id)]) == s.(answers := s.answers + [(q, Answered(s.cache[key]))])
  {
    hide AddAll;
    Two(site, s, Fetch(id, q), Match(id));
    assert s.flights[id := Flight(q, Matching)] - {id} == s.flights;
  }

  lemma MissedReadIsFetched(site: Site, s: System, id: nat, q: Request, key: Url)
    requires s.installed && id !in s.flights && OwnRead(site, q) && CachedUnder(site, q, key) && key !in s.cache
    ensures Step(site, Step(site, s, Fetch(id, q)), Match(id)) == s.(flights := s.flights[id := Flight(q, Fetching)])
  {
    hide AddAll;
    assert s.flights[id := Flight(q, Matching)][id := Flight(q, Fetching)] == s.flights[id := Flight(q, Fetching)];
  }

  // When its key is not cached and nobody interferes, it is answered with the network's reply,
  // which is stored under the key if it is successful and whole and there is room.
  lemma MissedReadIsAnsweredAndStored(site: Site, s: System, id: nat, q: Request, key: Url, r: Response, room: bool)
    requires s.installed && id !in s.flights && OwnRead(site, q) && CachedUnder(site, q, key) && key !in s.cache
    ensures Run(site, s, [Fetch(id, q), Match(id), Reply(id, r), Put(id, room)])
            == s.(cache := if Keepable(r) && room then s.cache[key := r] else s.cache,
                  replies := s.replies + [(q, r)], answers := s.answers + [(q, Answered(r))])
  {
    Four(site, s, Fetch(id, q), Match(id), Reply(id, r), Put(id, room));
    MissedReadIsFetched(site, s, id, q, key);
    ReplyIsStored(site, s, id, q, key, r, room);
    hide Step;
  }

  lemma ReplyIsStored(site: Site, s: System, id: nat, q: Request, key: Url, r: Response, room: bool)
    requires id !in s.flights && CachedUnder(site, q, key)
    ensures Step(site, Step(site, s.(flights := s.flights[id := Flight(q, Fetching)]), Reply(id, r)), Put(id, room))
            == s.(cache := if Keepable(r) && room then s.cache[key := r] else s.cache,
                  replies := s.replies + [(q, r)], answers := s.answers + [(q, Answered(r))])
  {
    hide AddAll;
    var u := s.(flights := s.flights[id := Flight(q, Fetching)]);
    assert u.flights - {id} == s.flights;
    assert u.flights[id := Flight(q, Putting(r))] - {id} == s.flights;
  }

  // And when the network fails, so does the answer, and nothing is stored.
  lemma FailedReadIsAnError(site: Site, s: System, id: nat, q: Request, key: Url)
    requires s.installed && id !in s.flights && OwnRead(site, q) && CachedUnder(site, q, key) && key !in s.cache
    ensures Step(site, Step(site, Step(site, s, Fetch(id, q)), Match(id)), Fail(id))
            == s.(answers := s.answers + [(q, NetworkError)])
  {
    MissedReadIsFetched(site, s, id, q, key);
    hide AddAll;
    assert s.flights[id := Flight(q, Fetching)] - {id} == s.flights;
  }

  // ----- The order of a request's steps -----

  // An event out of a request's turn changes nothing, and a request in flight is not taken up again.
  lemma OutOfTurn(site: Site, s: System, id: nat, q: Request, r: Response, room: bool)
    ensures id in s.flights ==> Step(site, s, Fetch(id, q)) == s
    ensures id !in s.flights || !s.flights[id].stage.Matching? ==> Step(site, s, Match(id)) == s
    ensures id !in s.flights || !s.flights[id].stage.Fetching? ==> Step(site, s, Reply(id, r)) == s && Step(site, s, Fail(id)) == s
    ensures id !in s.flights || !s.flights[id].stage.Putting? ==> Step(site, s, Put(id, room)) == s
  {
    hide AddAll;
  }

  // The request is still in flight, or was answered after the first n answers.
  ghost predicate FlyingOrAnswered(s: System, id: nat, q: Request, n: nat) {
    || (id in s.flights && s.flights[id].request == q)
    || (exists i :: n <= i < |s.answers| && s.answers[i].0 == q)
  }

  // No request taken up is dropped: in every continuation it is in flight until it is answered.
  lemma {:induction false} NoRequestIsDropped(site: Site, s: System, events: seq<Event>, id: nat)
    requires id in s.flights
    ensures FlyingOrAnswered(Run(site, s, events), id, s.flights[id].request, |s.answers|)
    ensures s.answers <= Run(site, s, events).answers
  {
    if events != [] {
      hide Step, FlyingOrAnswered;
      NoRequestIsDropped(site, s, events[..|events| - 1], id);
      StepDropsNothing(site, Run(site, s, events[..|events| - 1]), events[|events| - 1], id, s.flights[id].request, |s.answers|);
    }
  }

  lemma StepDropsNothing(site: Site, s: System, e: Event, id: nat, q: Request, n: nat)
    requires FlyingOrAnswered(s, id, q, n) && n <= |s.answers|
    ensures FlyingOrAnswered(Step(site, s, e), id, q, n) && s.answers <= Step(site, s, e).answers
  {
    hide AddAll;
    var t := Step(site, s, e);
    if i :| n <= i < |s.answers| && s.answers[i].0 == q { assert t.answers[i] == s.answers[i]; }
    if id in s.flights && id !in t.flights { assert t.answers[|s.answers|].0 == s.flights[id].request; }
  }

  // ----- Installation -----

  // An installation stores, for assets all different, each asset's own reply under its own
  // address if all replies are successful and whole, and nothing otherwise.
  lemma InstallStoresEachAsset(site: Site, batch: seq<Response>)
    requires |batch| == |site.assets| && forall i, j | 0 <= i < j < |batch| :: site.assets[i] != site.assets[j]
    ensures var s := Step(site, Fresh, Install(batch));
            if forall i | 0 <= i < |batch| :: Keepable(batch[i]) then
              s.installed && |s.replies| == |batch| && AddAllStored(site, batch, s.cache, s.replies)
            else s == Fresh
  {
    hide Keepable, Storable, AddAll, AddAllStored;
    if forall i | 0 <= i < |batch| :: Keepable(batch[i]) {
      forall r | r in batch ensures Storable(r) { StorableIsKeepable(r); }
      var s := Step(site, Fresh, Install(batch));
      assert s.cache == AddAll(map[], Zip(AssetRequests(site), batch)) && s.replies == [] + Zip(AssetRequests(site), batch);
      assert s.replies == Zip(AssetRequests(site), batch);
      EachAssetIsStored(site, batch);
    } else {
      var i :| 0 <= i < |batch| && !Keepable(batch[i]);
      StorableIsKeepable(batch[i]);
      assert batch[i] in batch && !Storable(batch[i]);
    }
  }

  ghost predicate AddAllStored(site: Site, batch: seq<Response>, cache: map<Url, Response>, replies: seq<(Request, Response)>)
    requires |batch| == |site.assets| == |replies|
  {
    && (forall key :: key in cache <==> ShellKey(site, key))
    && (forall i | 0 <= i < |batch| :: var u := Url(site.origin, site.assets[i], "");
          u in cache && cache[u] == batch[i] && replies[i] == (Request("GET", u, false), batch[i]))
  }

  lemma EachAssetIsStored(site: Site, batch: seq<Response>)
    requires |batch| == |site.assets| && forall i, j | 0 <= i < j < |batch| :: site.assets[i] != site.assets[j]
    ensures var replies := Zip(AssetRequests(site), batch); AddAllStored(site, batch, AddAll(map[], replies), replies)
  {
    hide AddAll;
    var replies := Zip(AssetRequests(site), batch);
    forall i | 0 <= i < |batch|
      ensures replies[i] == (Request("GET", Url(site.origin, site.assets[i], ""), false), batch[i]) {}
    AddAllStores(site, map[], replies);
    AddAllKeepsLast(map[], replies);
    forall key ensures key in AddAll(map[], replies) <==> ShellKey(site, key) {
      if key in AddAll(map[], replies) {
        var i :| 0 <= i < |replies| && replies[i].0.url == key;
        assert site.assets[i] in site.assets;
      }
      if ShellKey(site, key) {
        var i :| 0 <= i < |site.assets| && site.assets[i] == key.path;
        assert replies[i].0.url == key;
      }
    }
  }

  lemma {:induction false} AddAllKeepsLast(cache: map<Url, Response>, replies: seq<(Request, Response)>)
    requires forall i, j | 0 <= i < j < |replies| :: replies[i].0.url != replies[j].0.url
    ensures forall i | 0 <= i < |replies| ::
              replies[i].0.url in AddAll(cache, replies) && AddAll(cache, replies)[replies[i].0.url] == replies[i].1
  {
    if replies != [] {
      var front := replies[..|replies| - 1];
      AddAllKeepsLast(cache, front);
      forall i | 0 <= i < |front| ensures replies[i] == front[i] && replies[i].0.url != replies[|front|].0.url {}
    }
  }
}
