// The event handlers of spina_portal/sw.js, changing the browser's cache storage in place.
module ServiceWorkerHandlers {
  import opened ServiceWorker
  import opened ServiceWorkerRules

  class Worker {
    const site: Site
    const cacheName: string
    var caches: map<string, map<Url, Response>>    // of this and of older releases
    var installed: bool
    var flights: map<nat, Flight>
    ghost var replies: seq<(Request, Response)>
    ghost var answers: seq<(Request, Answer)>

    // The system this release is in, as long as its cache exists.
    ghost function State(): System
      requires cacheName in caches
      reads this
    {
      System(installed, caches[cacheName], flights, replies, answers)
    }

    constructor (site: Site, cacheName: string, older: map<string, map<Url, Response>>)
      requires cacheName !in older
      ensures this.site == site && this.cacheName == cacheName
      ensures cacheName in caches && State() == Fresh && forall n | n in older :: n in caches && caches[n] == older[n]
    {
      this.site, this.cacheName := site, cacheName;
      caches := older[cacheName := map[]];
      installed, flights, replies, answers := false, map[], [], [];
    }

    // install: cache.addAll of every asset, reloaded from the network; all or nothing.
    method OnInstall(batch: seq<Response>)
      requires cacheName in caches && |batch| == |site.assets|
      modifies this
      ensures cacheName in caches && State() == Step(site, old(State()), Install(batch))
    {
      if installed || exists r :: r in batch && !Storable(r) { return; }
      var pending := Zip(AssetRequests(site), batch);
      var cache := caches[cacheName];
      for i := 0 to |pending|
        invariant cache == AddAll(caches[cacheName], pending[..i])
        invariant caches == old(caches)
      {
        cache := cache[pending[i].0.url := pending[i].1];
        assert pending[..i + 1][..i] == pending[..i];
      }
      assert pending[..|pending|] == pending;
      caches, installed := caches[cacheName := cache], true;
      replies := replies + pending;
    }

    // activate: every cache but the active release's is deleted, and that one is untouched.
    method OnActivate()
      requires cacheName in caches
      modifies `caches
      ensures caches == map[cacheName := old(caches)[cacheName]]
      ensures State() == old(State())
    {
      var outdated := caches.Keys - {cacheName};
      while outdated != {}
        invariant cacheName in caches && caches[cacheName] == old(caches)[cacheName]
        invariant outdated == caches.Keys - {cacheName}
        decreases |outdated|
      {
        var name :| name in outdated;
        caches := caches - {name};
        outdated := outdated - {name};
      }
      assert caches.Keys == {cacheName};
    }

    // fetch: foreign requests are left to the browser, the others enter shellResponse.
    method OnFetch(id: nat, request: Request)
      requires cacheName in caches && installed && id !in flights
      modifies `flights
      ensures State() == Step(site, old(State()), ServiceWorker.Fetch(id, request))
      ensures flights == if OwnRead(site, request) then old(flights)[id := Flight(request, Matching)] else old(flights)
    {
      HandledAreOwn(site, request);
      if request.httpMethod != "GET" || request.url.origin != site.origin
         || StartsWith(request.url.path, "/api/") || StartsWith(request.url.path, "/health/") { return; }
      flights := flights[id := Flight(request, Matching)];
    }

    // shellResponse up to its fetch: the look-up in the cache.
    method MatchCache(id: nat) returns (cached: bool)
      requires cacheName in caches && id in flights && flights[id].stage.Matching?
      modifies this
      ensures cacheName in caches && State() == Step(site, old(State()), Match(id))
      ensures caches == old(caches)
      ensures cached <==> site.KeyOf(old(flights)[id].request) in caches[cacheName]
    {
      var request := flights[id].request;
      var key := site.KeyOf(request);
      cached := key in caches[cacheName];
      if cached {
        answers := answers + [(request, Answered(caches[cacheName][key]))];
        flights := flights - {id};
      } else {
        flights := flights[id := Flight(request, Fetching)];
      }
    }

    // The network has replied.
    method Fetched(id: nat, response: Response)
      requires cacheName in caches && id in flights && flights[id].stage.Fetching?
      modifies this
      ensures cacheName in caches && State() == Step(site, old(State()), Reply(id, response))
      ensures caches == old(caches)
    {
      var request := flights[id].request;
      replies := replies + [(request, response)];
      if Ok(response) {
        flights := flights[id := Flight(request, Putting(response))];
      } else {
        answers := answers + [(request, Answered(response))];
        flights := flights - {id};
      }
    }

    // The network request has failed.
    method FetchFailed(id: nat)
      requires cacheName in caches && id in flights && flights[id].stage.Fetching?
      modifies this
      ensures cacheName in caches && State() == Step(site, old(State()), Fail(id))
      ensures caches == old(caches)
    {
      answers := answers + [(flights[id].request, NetworkError)];
      flights := flights - {id};
    }

    // The put, whose failure is swallowed; then the answer.
    method StoreAndAnswer(id: nat, quotaLeft: bool)
      requires cacheName in caches && id in flights && flights[id].stage.Putting?
      modifies this
      ensures cacheName in caches && State() == Step(site, old(State()), ServiceWorker.Put(id, quotaLeft))
      ensures forall n | n in old(caches) && n != cacheName :: n in caches && caches[n] == old(caches)[n]
    {
      var request, response := flights[id].request, flights[id].stage.response;
      if quotaLeft && Storable(response) {
        caches := caches[cacheName := caches[cacheName][site.KeyOf(request) := response]];
      }
      answers := answers + [(request, Answered(response))];
      flights := flights - {id};
    }
  }
}
