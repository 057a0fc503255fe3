/** The service worker: the precache catalog, the versioned cache names, and
    the `install`, `activate`, `fetch` and `message` handlers, each modelled
    as one atomic step over the cache storage. */
module ServiceWorker {
  import opened Wrappers
  import opened Text
  import opened CacheStore

  /** Declared but used by no handler; activation therefore deletes a cache of this name. */
  const CacheName := "interactive-stories-v1.2"
  const StaticCacheName := "static-v1.2"
  const DynamicCacheName := "dynamic-v1.2"

  /** The shell document and the placeholder image the offline fallbacks look up. */
  const ShellDocument := "./index.html"
  const PlaceholderImage := "./assets/images/placeholder.svg"

  /** The resources precached at install time, in declaration order. */
  const StaticFiles: seq<string> := [
    "./",
    "./index.html",
    "./styles.css",
    "./app.js",
    "./data/stories.js",
    "./manifest.webmanifest",
    "./assets/images/s1.jpg",
    "./assets/images/s2.jpg",
    "./assets/images/s3.jpg",
    "./assets/images/s4.jpg",
    "./assets/images/s5.jpg",
    "./assets/images/s6.jpg",
    "./assets/images/s7.jpg",
    "./assets/images/s8.jpg",
    "./assets/images/s9.jpg",
    "./assets/images/s10.jpg",
    "./assets/images/s11.jpg",
    "./assets/images/s12.jpg",
    "./assets/images/s13.jpg",
    "./assets/images/s14.jpg",
    "./assets/images/s15.jpg",
    "./assets/images/s16.jpg",
    "./assets/images/s17.jpg",
    "./assets/images/s18.jpg",
    "./assets/images/s19.jpg",
    "./assets/images/s20.jpg",
    "./assets/images/placeholder.svg",
    "./assets/icons/icon-72.png",
    "./assets/icons/icon-96.png",
    "./assets/icons/icon-128.png",
    "./assets/icons/icon-144.png",
    "./assets/icons/icon-152.png",
    "./assets/icons/icon-192.png",
    "./assets/icons/icon-384.png",
    "./assets/icons/icon-512.png",
    "./assets/icons/maskable-icon-192.png",
    "./assets/icons/maskable-icon-512.png",
    "https://fonts.googleapis.com/css2?family=Vazirmatn:wght@400;500;600;700&family=Readex+Pro:wght@400;500;600&family=Cairo+Play:wght@400;500;600;700&display=swap"
  ]

  // ---------------------------------------------------------------------------
  // Catalog membership (the routing test of the fetch handler)

  /** A catalog entry with its first "./" removed, as the routing test compares it. */
  function Stripped(file: string): (r: string)
    ensures "./" <= file ==> r == file[2..]
    ensures !Contains(file, "./") ==> r == file
  {
    ContainsIffOccurs(file, "./");
    ReplaceFirst(file, "./", "")
  }

  /** The request goes to the static branch when its URL contains some stripped
      catalog entry (substring containment, not path equality). */
  predicate IsCatalogRequest(url: Url)
  {
    exists file :: file in StaticFiles && Contains(url, Stripped(file))
  }

  /** The catalog's first entry, "./", strips to the empty string, which every URL contains:
      the routing test holds for EVERY request URL. */
  lemma EveryRequestIsCatalogRequest(url: Url)
    ensures Stripped(StaticFiles[0]) == ""
    ensures IsCatalogRequest(url)
  {
    assert StaticFiles[0] == "./";
    assert IndexOf("./", "./") == Some(0);
    assert Contains(url, "");
  }

  // ---------------------------------------------------------------------------
  // Install

  /** The cache list after `install`: the static cache is opened, then `addAll`
      stores the whole catalog or, on any failure, nothing (the failure is swallowed). */
  function Installed(cs: seq<NamedCache>, net: Network): (r: seq<NamedCache>)
    ensures StaticCacheName in Names(r)
  {
    var withCache := Opened(cs, StaticCacheName);
    if AllFetchOk(StaticFiles, net) then Stored(withCache, StaticCacheName, Batch(StaticFiles, net))
    else withCache
  }

  lemma InstallSpec(cs: seq<NamedCache>, net: Network)
    requires DistinctNames(cs)
    ensures DistinctNames(Installed(cs, net))
    ensures StaticCacheName in Names(Installed(cs, net))
    ensures forall n :: n in Names(Installed(cs, net)) <==> n in Names(cs) || n == StaticCacheName
    ensures forall n :: n != StaticCacheName ==> Find(Installed(cs, net), n) == Find(cs, n)
    ensures AllFetchOk(StaticFiles, net) ==>
      forall f :: f in StaticFiles ==>
        f in Find(Installed(cs, net), StaticCacheName).value &&
        Find(Installed(cs, net), StaticCacheName).value[f] == net(f).response
    ensures !AllFetchOk(StaticFiles, net) ==>
      Find(Installed(cs, net), StaticCacheName) ==
        if StaticCacheName in Names(cs) then Find(cs, StaticCacheName) else Some(map[])
    ensures StaticCacheName in Names(cs) ==>
      Find(cs, StaticCacheName).value.Keys <= Find(Installed(cs, net), StaticCacheName).value.Keys
  {
    InstallNames(cs, net);
    forall n | n != StaticCacheName ensures Find(Installed(cs, net), n) == Find(cs, n) {
      InstallFind(cs, net, n);
    }
    InstallFind(cs, net, StaticCacheName);
  }

  /** The names after `install`: the old ones and the static cache's, still distinct. */
  lemma InstallNames(cs: seq<NamedCache>, net: Network)
    requires DistinctNames(cs)
    ensures DistinctNames(Installed(cs, net))
    ensures forall n :: n in Names(Installed(cs, net)) <==> n in Names(cs) || n == StaticCacheName
  {
    var withCache := Opened(cs, StaticCacheName);
    OpenedSpec(cs, StaticCacheName);
    if AllFetchOk(StaticFiles, net) {
      StoredKeepsDistinct(withCache, StaticCacheName, Batch(StaticFiles, net));
    }
  }

  /** What `Find` sees after `install`, one name at a time: the static cache holds its old
      entries (none if it was new) plus, on success, the whole catalog. */
  lemma InstallFind(cs: seq<NamedCache>, net: Network, n: string)
    ensures Find(Installed(cs, net), n) ==
      if n != StaticCacheName then Find(cs, n)
      else Some((if StaticCacheName in Names(cs) then Find(cs, StaticCacheName).value else map[]) +
                (if AllFetchOk(StaticFiles, net) then Batch(StaticFiles, net) else map[]))
  {
    var withCache := Opened(cs, StaticCacheName);
    OpenedFind(cs, StaticCacheName, n);
    if AllFetchOk(StaticFiles, net) {
      StoredFind(withCache, StaticCacheName, Batch(StaticFiles, net), n);
    } else if n == StaticCacheName {
      var before := Find(withCache, StaticCacheName).value;
      assert before + map[] == before;
    }
  }

  /** Installing twice over the same network gives the same caches as installing once. */
  lemma InstallIdempotent(cs: seq<NamedCache>, net: Network)
    ensures Installed(Installed(cs, net), net) == Installed(cs, net)
  {
    var withCache := Opened(cs, StaticCacheName);
    OpenedSpec(cs, StaticCacheName);
    if AllFetchOk(StaticFiles, net) {
      StoredTwice(withCache, StaticCacheName, Batch(StaticFiles, net));
    }
  }

  // ---------------------------------------------------------------------------
  // Activate

  /** The names activation keeps: exactly the current static and dynamic cache names. */
  predicate IsCurrent(name: string)
  {
    name == StaticCacheName || name == DynamicCacheName
  }

  /** The cache list after `activate`: every cache whose name is not current is deleted, order kept. */
  function Retained(cs: seq<NamedCache>): (r: seq<NamedCache>)
    ensures forall c :: c in r <==> c in cs && IsCurrent(c.name)
  {
    if cs == [] then []
    else (if IsCurrent(cs[0].name) then [cs[0]] else []) + Retained(cs[1..])
  }

  lemma {:induction false} RetainedAppend(a: seq<NamedCache>, b: seq<NamedCache>)
    ensures Retained(a + b) == Retained(a) + Retained(b)
  {
    if a == [] {
      assert a + b == b;
    } else {
      var head := if IsCurrent(a[0].name) then [a[0]] else [];
      assert (a + b)[0] == a[0] && (a + b)[1..] == a[1..] + b;
      assert Retained(a + b) == head + Retained(a[1..] + b);
      RetainedAppend(a[1..], b);
      assert head + (Retained(a[1..]) + Retained(b)) == (head + Retained(a[1..])) + Retained(b);
    }
  }

  /** After activation the names are the old names intersected with the two current
      names, each kept cache keeps its contents, and the distinctness of names is kept. */
  lemma {:induction false} RetainedSpec(cs: seq<NamedCache>)
    ensures forall n :: n in Names(Retained(cs)) <==> n in Names(cs) && IsCurrent(n)
    ensures forall n :: Find(Retained(cs), n) == if IsCurrent(n) then Find(cs, n) else None
    ensures DistinctNames(cs) ==> DistinctNames(Retained(cs))
  {
    if cs != [] {
      RetainedSpec(cs[1..]);
      var head := if IsCurrent(cs[0].name) then [cs[0]] else [];
      NamesAppend(head, Retained(cs[1..]));
      forall n ensures Find(Retained(cs), n) == if IsCurrent(n) then Find(cs, n) else None {
        FindAppend(head, Retained(cs[1..]), n);
      }
      if DistinctNames(cs) && head != [] {
        var r := Retained(cs);
        assert cs[0].name !in Names(cs[1..]);
        forall i, j | 0 <= i < j < |r| ensures r[i].name != r[j].name {
          if i == 0 {
            assert r[j] == Retained(cs[1..])[j - 1];
            assert Names(Retained(cs[1..]))[j - 1] == r[j].name;
          } else {
            assert r[i] == Retained(cs[1..])[i - 1] && r[j] == Retained(cs[1..])[j - 1];
          }
        }
      }
    }
  }

  /** The unused `CacheName` generation is among the deleted ones. */
  lemma ActivationDeletesUnusedCacheName(cs: seq<NamedCache>)
    ensures CacheName !in Names(Retained(cs))
  {
    RetainedSpec(cs);
  }

  /** Activating twice is the same as activating once. */
  lemma {:induction false} RetainedIdempotent(cs: seq<NamedCache>)
    ensures Retained(Retained(cs)) == Retained(cs)
  {
    if cs != [] {
      var head := if IsCurrent(cs[0].name) then [cs[0]] else [];
      RetainedAppend(head, Retained(cs[1..]));
      RetainedIdempotent(cs[1..]);
      if head != [] {
        assert Retained(head) == head;
      }
    }
  }

  /** `Retained` of a list grown by one cache. */
  lemma RetainedSnoc(cs: seq<NamedCache>, c: NamedCache)
    ensures Retained(cs + [c]) == Retained(cs) + (if IsCurrent(c.name) then [c] else [])
  {
    RetainedAppend(cs, [c]);
    assert [c][1..] == [];
  }

  /** A name that is not current never survives activation. */
  lemma NotCurrentNotRetained(cs: seq<NamedCache>, n: string)
    requires !IsCurrent(n)
    ensures n !in Names(Retained(cs))
  {
    RetainedSpec(cs);
  }

  /** One step of the activation loop, over the snapshot `cs` of the caches it enumerated. */
  lemma ActivationStep(cs: seq<NamedCache>, i: nat)
    requires DistinctNames(cs) && i < |cs|
    ensures IsCurrent(cs[i].name) ==>
      Retained(cs[..i]) + cs[i..] == Retained(cs[..i + 1]) + cs[i + 1..]
    ensures !IsCurrent(cs[i].name) ==>
      Without(Retained(cs[..i]) + cs[i..], cs[i].name) == Retained(cs[..i + 1]) + cs[i + 1..]
  {
    var c := cs[i];
    var done := Retained(cs[..i]);
    var rest := cs[i + 1..];
    assert cs[..i + 1] == cs[..i] + [c];
    RetainedSnoc(cs[..i], c);
    assert cs[i..] == [c] + rest;
    if IsCurrent(c.name) {
      assert done + ([c] + rest) == (done + [c]) + rest;
    } else {
      NotCurrentNotRetained(cs[..i], c.name);
      NameNotLater(cs, i);
      WithoutAppend(done, [c] + rest, c.name);
      WithoutAbsent(done, c.name);
      assert ([c] + rest)[1..] == rest;
      WithoutAbsent(rest, c.name);
      assert done + [] == done;
    }
  }

  // ---------------------------------------------------------------------------
  // Fetch

  /** A request as the handler inspects it: its URL and its `destination`. */
  datatype Request = Request(url: Url, destination: string)

  /** What a handler step leaves behind: the response given to the page (`None` is a
      network error) and the cache list afterwards. */
  datatype Outcome = Outcome(response: Option<Response>, caches: seq<NamedCache>)

  /** The static branch: cache first, then the network (any status), and, when the
      network rejects, the cached shell document for a URL containing ".html". */
  function StaticOutcome(cs: seq<NamedCache>, url: Url, net: Network): (r: Option<Response>)
    ensures MatchIn(cs, url).Some? ==> r == MatchIn(cs, url)
    ensures MatchIn(cs, url).None? && net(url).Fetched? ==> r == Some(net(url).response)
    ensures MatchIn(cs, url).None? && net(url).Rejected? && Contains(url, ".html") ==>
      r == MatchIn(cs, ShellDocument)
    ensures MatchIn(cs, url).None? && net(url).Rejected? && !Contains(url, ".html") ==> r.None?
  {
    match MatchIn(cs, url)
    case Some(hit) => Some(hit)
    case None =>
      match net(url)
      case Fetched(response) => Some(response)
      case Rejected => if Contains(url, ".html") then MatchIn(cs, ShellDocument) else None
  }

  /** On a cache hit the static branch does not depend on the network at all. */
  lemma StaticHitIgnoresNetwork(cs: seq<NamedCache>, url: Url, net1: Network, net2: Network)
    requires MatchIn(cs, url).Some?
    ensures StaticOutcome(cs, url, net1) == StaticOutcome(cs, url, net2) == MatchIn(cs, url)
  {
  }

  /** The dynamic branch's fallback when the network rejects, chosen by `destination`. */
  function OfflineFallback(cs: seq<NamedCache>, destination: string): (r: Option<Response>)
    ensures destination == "document" ==> r == MatchIn(cs, ShellDocument)
    ensures destination == "image" ==> r == MatchIn(cs, PlaceholderImage)
    ensures destination != "document" && destination != "image" ==> r.None?
  {
    if destination == "document" then MatchIn(cs, ShellDocument)
    else if destination == "image" then MatchIn(cs, PlaceholderImage)
    else None
  }

  /** The dynamic branch: cache first, then the network; a 200 response is written
      through to the dynamic cache (created if needed), any other response is only returned. */
  function DynamicOutcome(cs: seq<NamedCache>, req: Request, net: Network): (r: Outcome)
    ensures MatchIn(cs, req.url).Some? ==> r == Outcome(MatchIn(cs, req.url), cs)
    ensures MatchIn(cs, req.url).None? && net(req.url).Fetched? ==>
      r.response == Some(net(req.url).response)
    ensures MatchIn(cs, req.url).None? && net(req.url).Fetched? && net(req.url).response.status == 200 ==>
      && (forall n :: n in Names(r.caches) <==> n in Names(cs) || n == DynamicCacheName)
      && Find(r.caches, DynamicCacheName) ==
           Some((if DynamicCacheName in Names(cs) then Find(cs, DynamicCacheName).value else map[])
                [req.url := net(req.url).response])
      && (forall n :: n != DynamicCacheName ==> Find(r.caches, n) == Find(cs, n))
    ensures MatchIn(cs, req.url).None? && net(req.url).Fetched? && net(req.url).response.status != 200 ==>
      r.caches == cs
    ensures MatchIn(cs, req.url).None? && net(req.url).Rejected? ==>
      r == Outcome(OfflineFallback(cs, req.destination), cs)
  {
    match MatchIn(cs, req.url)
    case Some(hit) => Outcome(Some(hit), cs)
    case None =>
      match net(req.url)
      case Fetched(response) =>
        if response.status == 200 then
          WriteThroughSpec(cs, req.url, response);
          Outcome(Some(response), WriteThrough(cs, req.url, response))
        else Outcome(Some(response), cs)
      case Rejected => Outcome(OfflineFallback(cs, req.destination), cs)
  }

  /** The cache list after the dynamic branch's write-through: the dynamic cache is
      opened (created if absent) and `put` stores the response under the request URL. */
  function WriteThrough(cs: seq<NamedCache>, url: Url, response: Response): (r: seq<NamedCache>)
    ensures DynamicCacheName in Names(r)
  {
    Stored(Opened(cs, DynamicCacheName), DynamicCacheName, map[url := response])
  }

  lemma WriteThroughSpec(cs: seq<NamedCache>, url: Url, response: Response)
    ensures forall n :: n in Names(WriteThrough(cs, url, response)) <==> n in Names(cs) || n == DynamicCacheName
    ensures Find(WriteThrough(cs, url, response), DynamicCacheName) ==
      Some((if DynamicCacheName in Names(cs) then Find(cs, DynamicCacheName).value else map[])[url := response])
    ensures forall n :: n != DynamicCacheName ==> Find(WriteThrough(cs, url, response), n) == Find(cs, n)
  {
    WriteThroughNames(cs, url, response);
    forall n ensures Find(WriteThrough(cs, url, response), n) ==
      if n == DynamicCacheName
      then Some((if DynamicCacheName in Names(cs) then Find(cs, DynamicCacheName).value else map[])[url := response])
      else Find(cs, n)
    {
      WriteThroughFind(cs, url, response, n);
    }
  }

  /** The names after a write-through: the old ones and the dynamic cache's. */
  lemma WriteThroughNames(cs: seq<NamedCache>, url: Url, response: Response)
    ensures forall n :: n in Names(WriteThrough(cs, url, response)) <==> n in Names(cs) || n == DynamicCacheName
  {
    OpenedSpec(cs, DynamicCacheName);
  }

  /** What `Find` sees after a write-through, one name at a time. */
  lemma WriteThroughFind(cs: seq<NamedCache>, url: Url, response: Response, n: string)
    ensures Find(WriteThrough(cs, url, response), n) ==
      if n == DynamicCacheName
      then Some((if DynamicCacheName in Names(cs) then Find(cs, DynamicCacheName).value else map[])[url := response])
      else Find(cs, n)
  {
    var withCache := Opened(cs, DynamicCacheName);
    var put := map[url := response];
    OpenedFind(cs, DynamicCacheName, n);
    StoredFind(withCache, DynamicCacheName, put, n);
    if n == DynamicCacheName {
      assert DynamicCacheName in Names(withCache);
      MergeOne(Find(withCache, DynamicCacheName).value, url, response);
    }
  }

  /** The fetch handler: the catalog test picks the branch; the static branch writes nothing. */
  function FetchOutcome(cs: seq<NamedCache>, req: Request, net: Network): (r: Outcome)
    ensures forall n :: n != DynamicCacheName ==> Find(r.caches, n) == Find(cs, n)
  {
    if IsCatalogRequest(req.url) then Outcome(StaticOutcome(cs, req.url, net), cs)
    else DynamicOutcome(cs, req, net)
  }

  /** Because every URL passes the catalog test, the dynamic branch is never taken:
      every request is served by the static branch and no fetch ever writes a cache. */
  lemma DynamicBranchUnreachable(cs: seq<NamedCache>, req: Request, net: Network)
    ensures FetchOutcome(cs, req, net) == Outcome(StaticOutcome(cs, req.url, net), cs)
  {
    EveryRequestIsCatalogRequest(req.url);
  }

  /** After a successful install and an activation, every catalog entry is answered from
      the cache whatever the network later does, for instance when it is entirely offline. */
  lemma {:induction false} CatalogServedOffline(cs: seq<NamedCache>, net: Network, later: Network, req: Request)
    requires DistinctNames(cs) && AllFetchOk(StaticFiles, net) && req.url in StaticFiles
    ensures FetchOutcome(Retained(Installed(cs, net)), req, later).response.Some?
  {
    var installed := Installed(cs, net);
    var active := Retained(installed);
    assert req.url in Find(installed, StaticCacheName).value by {
      InstallSpec(cs, net);
    }
    assert Find(active, StaticCacheName) == Find(installed, StaticCacheName) by {
      RetainedSpec(installed);
    }
    MatchFindsStored(active, StaticCacheName, req.url);
    DynamicBranchUnreachable(active, req, later);
  }

  // ---------------------------------------------------------------------------
  // Message

  /** What `event.data` can be: falsy (absent), or a value whose `type` property may be set. */
  datatype MessageData = NoData | Data(messageType: Option<string>)

  /** The message the page posts when the user accepts an update. */
  const UpdateMessage := Data(Some("SKIP_WAITING"))

  /** The message filter: only a present message whose `type` is "SKIP_WAITING" is acted on. */
  predicate RequestsSkipWaiting(data: MessageData): (r: bool)
    ensures r <==> data == UpdateMessage
  {
    data.Data? && data.messageType == Some("SKIP_WAITING")
  }

  // ---------------------------------------------------------------------------
  // The worker global

  /** The worker's global scope: its cache storage and the two host effects it requests. */
  class Worker {
    const storage: CacheStorage
    /** `self.skipWaiting()` has been called. */
    var skipWaitingCalled: bool
    /** `self.clients.claim()` has been called. */
    var clientsClaimed: bool

    ghost predicate Valid()
      reads this, storage
    {
      storage.Valid()
    }

    constructor (storage: CacheStorage)
      requires storage.Valid()
      ensures Valid() && this.storage == storage
      ensures !skipWaitingCalled && !clientsClaimed
    {
      this.storage := storage;
      skipWaitingCalled := false;
      clientsClaimed := false;
    }

    /** The `install` handler. It never fails and always requests skipping the waiting phase. */
    method Install(net: Network)
      requires Valid()
      modifies this, storage
      ensures Valid()
      ensures storage.caches == Installed(old(storage.caches), net)
      ensures skipWaitingCalled && clientsClaimed == old(clientsClaimed)
    {
      OpenedSpec(storage.caches, StaticCacheName);
      storage.Open(StaticCacheName);
      var ok := storage.AddAll(StaticCacheName, StaticFiles, net);
      skipWaitingCalled := true;
    }

    /** The `activate` handler: deletes every cache not named by a current name, then claims the clients. */
    method Activate()
      requires Valid()
      modifies this, storage
      ensures Valid()
      ensures storage.caches == Retained(old(storage.caches))
      ensures clientsClaimed && skipWaitingCalled == old(skipWaitingCalled)
    {
      DeleteOldCaches();
      clientsClaimed := true;
    }

    /** The deletion pass of `activate`: enumerates the cache names, then deletes each old one. */
    method DeleteOldCaches()
      requires storage.Valid()
      modifies storage
      ensures storage.Valid()
      ensures storage.caches == Retained(old(storage.caches))
    {
      // `caches.keys()`: the names of this snapshot, in creation order.
      var cs := storage.caches;
      var i := 0;
      while i < |cs|
        invariant 0 <= i <= |cs|
        invariant storage.Valid()
        invariant storage.caches == Retained(cs[..i]) + cs[i..]
      {
        DeleteIfOld(cs, i);
        i := i + 1;
      }
      assert cs[..i] == cs;
    }

    /** One pass of the activation loop over the enumerated names `cs`: the cache named
        `cs[i].name` is deleted when that name is neither the static nor the dynamic one. */
    method DeleteIfOld(cs: seq<NamedCache>, i: nat)
      requires storage.Valid() && DistinctNames(cs) && i < |cs|
      requires storage.caches == Retained(cs[..i]) + cs[i..]
      modifies storage
      ensures storage.Valid()
      ensures storage.caches == Retained(cs[..i + 1]) + cs[i + 1..]
    {
      ActivationStep(cs, i);
      var name := cs[i].name;
      if name != StaticCacheName && name != DynamicCacheName {
        var deleted := storage.Delete(name);
      }
    }

    /** The static branch of the `fetch` handler; it only reads the caches. */
    method RespondStatic(url: Url, net: Network) returns (response: Option<Response>)
      ensures response == StaticOutcome(storage.caches, url, net)
    {
      response := storage.Match(url);
      if response.None? {
        match net(url)
        case Fetched(r) =>
          response := Some(r);
        case Rejected =>
          if Contains(url, ".html") {
            response := storage.Match(ShellDocument);
          }
      }
    }

    /** The dynamic branch of the `fetch` handler, with its write-through `put`. */
    method RespondDynamic(req: Request, net: Network) returns (response: Option<Response>)
      requires Valid()
      modifies storage
      ensures Valid()
      ensures Outcome(response, storage.caches) == DynamicOutcome(old(storage.caches), req, net)
    {
      response := storage.Match(req.url);
      if response.Some? {
        return;
      }
      match net(req.url)
      case Fetched(r) =>
        if r.status == 200 {
          OpenedSpec(storage.caches, DynamicCacheName);
          storage.Open(DynamicCacheName);
          storage.Put(DynamicCacheName, req.url, r);
        }
        response := Some(r);
      case Rejected =>
        if req.destination == "document" {
          response := storage.Match(ShellDocument);
        } else if req.destination == "image" {
          response := storage.Match(PlaceholderImage);
        }
    }

    /** The `fetch` handler. */
    method HandleFetch(req: Request, net: Network) returns (response: Option<Response>)
      requires Valid()
      modifies storage
      ensures Valid()
      ensures Outcome(response, storage.caches) == FetchOutcome(old(storage.caches), req, net)
    {
      if IsCatalogRequest(req.url) {
        response := RespondStatic(req.url, net);
      } else {
        response := RespondDynamic(req, net);
      }
    }

    /** The `message` handler. */
    method OnMessage(data: MessageData)
      modifies this
      ensures skipWaitingCalled == (old(skipWaitingCalled) || RequestsSkipWaiting(data))
      ensures clientsClaimed == old(clientsClaimed)
    {
      if RequestsSkipWaiting(data) {
        skipWaitingCalled := true;
      }
    }
  }
}
