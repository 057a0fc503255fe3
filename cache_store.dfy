/** The host's Cache Storage as the worker sees it: an ordered list of named
    caches (in creation order, as `caches.keys()` lists them), each mapping a
    request URL to a stored response. Requests and responses are abstract: a
    URL string is the key, a response is a status plus an opaque body token. */
module CacheStore {
  import opened Wrappers

  type Url = string

  /** An HTTP response reduced to what the worker inspects: its status code, and a body token. */
  datatype Response = Response(status: int, body: string)

  /** How a `fetch` settles: with a response of any status, or with a rejection (network failure). */
  datatype NetResult = Fetched(response: Response) | Rejected

  /** The network, as an input: the outcome `fetch` would have for each URL. */
  type Network = Url -> NetResult

  datatype NamedCache = NamedCache(name: string, entries: map<Url, Response>)

  /** `caches.keys()`: the cache names in creation order. */
  function Names(cs: seq<NamedCache>): (r: seq<string>)
    ensures |r| == |cs|
    ensures forall i {:trigger r[i]} :: 0 <= i < |cs| ==> r[i] == cs[i].name
  {
    if cs == [] then [] else [cs[0].name] + Names(cs[1..])
  }

  ghost predicate DistinctNames(cs: seq<NamedCache>)
  {
    forall i, j :: 0 <= i < j < |cs| ==> cs[i].name != cs[j].name
  }

  /** The entries of the first cache called `name`, if there is one. */
  function Find(cs: seq<NamedCache>, name: string): (r: Option<map<Url, Response>>)
    ensures r.Some? <==> name in Names(cs)
  {
    if cs == [] then None
    else if cs[0].name == name then Some(cs[0].entries)
    else Find(cs[1..], name)
  }

  lemma {:induction false} FindAt(cs: seq<NamedCache>, i: nat)
    requires DistinctNames(cs) && i < |cs|
    ensures Find(cs, cs[i].name) == Some(cs[i].entries)
  {
    if i > 0 {
      assert cs[0].name != cs[i].name;
      assert cs[1..][i - 1] == cs[i];
      FindAt(cs[1..], i - 1);
    }
  }

  /** Cache `i` is the first one, in creation order, that holds `url`. */
  ghost predicate FirstHolder(cs: seq<NamedCache>, url: Url, i: int)
  {
    0 <= i < |cs| && url in cs[i].entries && forall k :: 0 <= k < i ==> url !in cs[k].entries
  }

  /** `caches.match(url)`: the response stored for `url` in the first cache that holds it. */
  function MatchIn(cs: seq<NamedCache>, url: Url): (r: Option<Response>)
    ensures r.None? <==> forall k :: 0 <= k < |cs| ==> url !in cs[k].entries
    ensures r.Some? ==> exists i :: FirstHolder(cs, url, i) && r.value == cs[i].entries[url]
  {
    if cs == [] then None
    else if url in cs[0].entries then
      assert FirstHolder(cs, url, 0);
      Some(cs[0].entries[url])
    else
      FirstHolderShifted(cs, url);
      MatchIn(cs[1..], url)
  }

  lemma FirstHolderShifted(cs: seq<NamedCache>, url: Url)
    requires cs != [] && url !in cs[0].entries
    ensures forall k :: 1 <= k < |cs| ==> cs[1..][k - 1] == cs[k]
    ensures forall i :: FirstHolder(cs[1..], url, i) ==> FirstHolder(cs, url, i + 1)
  {
  }

  /** A URL that the cache called `name` holds is found by `caches.match`. */
  lemma {:induction false} MatchFindsStored(cs: seq<NamedCache>, name: string, url: Url)
    requires Find(cs, name).Some? && url in Find(cs, name).value
    ensures MatchIn(cs, url).Some?
  {
    if cs[0].name == name {
      assert url in cs[0].entries;
    } else {
      MatchFindsStored(cs[1..], name, url);
      var i :| FirstHolder(cs[1..], url, i);
      assert url in cs[i + 1].entries;
    }
  }

  /** `caches.open(name)`: the list after opening, with a fresh empty cache appended if `name` was absent. */
  function Opened(cs: seq<NamedCache>, name: string): (r: seq<NamedCache>)
    ensures cs <= r && |r| <= |cs| + 1
    ensures name in Names(r)
  {
    if name in Names(cs) then cs
    else
      var r := cs + [NamedCache(name, map[])];
      assert Names(r)[|cs|] == r[|cs|].name == name;
      r
  }

  lemma {:induction false} NamesAppend(a: seq<NamedCache>, b: seq<NamedCache>)
    ensures Names(a + b) == Names(a) + Names(b)
  {
    if a != [] {
      assert (a + b)[1..] == a[1..] + b;
      NamesAppend(a[1..], b);
    }
  }

  lemma {:induction false} FindAppend(a: seq<NamedCache>, b: seq<NamedCache>, n: string)
    ensures Find(a + b, n) == if n in Names(a) then Find(a, n) else Find(b, n)
  {
    if a == [] {
      assert a + b == b;
    } else {
      assert (a + b)[1..] == a[1..] + b;
      FindAppend(a[1..], b, n);
    }
  }

  lemma OpenedSpec(cs: seq<NamedCache>, name: string)
    ensures DistinctNames(cs) ==> DistinctNames(Opened(cs, name))
    ensures name in Names(Opened(cs, name))
    ensures forall n :: n in Names(Opened(cs, name)) <==> n in Names(cs) || n == name
    ensures Find(Opened(cs, name), name) == if name in Names(cs) then Find(cs, name) else Some(map[])
    ensures forall n :: n != name ==> Find(Opened(cs, name), n) == Find(cs, n)
  {
    if name !in Names(cs) {
      var c := [NamedCache(name, map[])];
      var r := cs + c;
      NamesAppend(cs, c);
      assert Names(r) == Names(cs) + [name];
      if DistinctNames(cs) {
        forall i, j | 0 <= i < j < |r| ensures r[i].name != r[j].name {
          assert Names(cs)[i] == cs[i].name;
          if j < |cs| {
            assert r[i] == cs[i] && r[j] == cs[j];
          }
        }
      }
      forall n ensures Find(r, n) == if n in Names(cs) then Find(cs, n) else Find(c, n) {
        FindAppend(cs, c, n);
      }
    }
  }

  /** What `Find` sees after opening, one name at a time. */
  lemma OpenedFind(cs: seq<NamedCache>, name: string, n: string)
    ensures Find(Opened(cs, name), n) == if n == name && name !in Names(cs) then Some(map[]) else Find(cs, n)
  {
    OpenedSpec(cs, name);
  }

  /** The list after `put`/`addAll` store `batch` into the cache(s) called `name`; later writes win. */
  function Stored(cs: seq<NamedCache>, name: string, batch: map<Url, Response>): (r: seq<NamedCache>)
    ensures Names(r) == Names(cs)
  {
    if cs == [] then []
    else
      var head := if cs[0].name == name then NamedCache(name, cs[0].entries + batch) else cs[0];
      [head] + Stored(cs[1..], name, batch)
  }

  lemma {:induction false} StoredSpec(cs: seq<NamedCache>, name: string, batch: map<Url, Response>)
    ensures DistinctNames(cs) ==> DistinctNames(Stored(cs, name, batch))
    ensures Find(Stored(cs, name, batch), name) ==
      if name in Names(cs) then Some(Find(cs, name).value + batch) else None
    ensures forall n :: n != name ==> Find(Stored(cs, name, batch), n) == Find(cs, n)
  {
    var r := Stored(cs, name, batch);
    assert forall i :: 0 <= i < |cs| ==> r[i].name == Names(r)[i] == Names(cs)[i] == cs[i].name;
    forall n ensures Find(r, n) == if n == name then (if name in Names(cs) then Some(Find(cs, name).value + batch) else None) else Find(cs, n) {
      StoredFind(cs, name, batch, n);
    }
  }

  /** What `Find` sees after a store, one name at a time. */
  lemma {:induction false} StoredFind(cs: seq<NamedCache>, name: string, batch: map<Url, Response>, n: string)
    ensures Find(Stored(cs, name, batch), n) ==
      if n == name then (if name in Names(cs) then Some(Find(cs, name).value + batch) else None) else Find(cs, n)
  {
    if cs != [] {
      var r := Stored(cs, name, batch);
      assert r[0].name == cs[0].name;
      assert r[1..] == Stored(cs[1..], name, batch);
      StoredFind(cs[1..], name, batch, n);
    }
  }

  /** Merging a one-entry map is updating that entry. */
  lemma MergeOne(entries: map<Url, Response>, url: Url, response: Response)
    ensures entries + map[url := response] == entries[url := response]
  {
    var merged := entries + map[url := response];
    assert merged.Keys == entries[url := response].Keys;
    assert forall u :: u in merged ==> merged[u] == entries[url := response][u];
  }

  /** Storing never changes the names, so it keeps them distinct. */
  lemma StoredKeepsDistinct(cs: seq<NamedCache>, name: string, batch: map<Url, Response>)
    requires DistinctNames(cs)
    ensures DistinctNames(Stored(cs, name, batch))
  {
    var r := Stored(cs, name, batch);
    assert forall i :: 0 <= i < |cs| ==> r[i].name == Names(r)[i] == Names(cs)[i] == cs[i].name;
  }

  /** Storing the same batch twice is the same as storing it once. */
  lemma {:induction false} StoredTwice(cs: seq<NamedCache>, name: string, batch: map<Url, Response>)
    ensures Stored(Stored(cs, name, batch), name, batch) == Stored(cs, name, batch)
  {
    if cs != [] {
      var r := Stored(cs, name, batch);
      assert r[1..] == Stored(cs[1..], name, batch);
      StoredTwice(cs[1..], name, batch);
      if cs[0].name == name {
        assert cs[0].entries + batch + batch == cs[0].entries + batch;
      }
    }
  }

  /** The list after `caches.delete(name)`. */
  function Without(cs: seq<NamedCache>, name: string): (r: seq<NamedCache>)
    ensures |r| <= |cs|
    ensures forall c :: c in r <==> c in cs && c.name != name
  {
    if cs == [] then []
    else if cs[0].name == name then Without(cs[1..], name)
    else [cs[0]] + Without(cs[1..], name)
  }

  lemma {:induction false} WithoutSpec(cs: seq<NamedCache>, name: string)
    ensures forall n :: n in Names(Without(cs, name)) <==> n in Names(cs) && n != name
    ensures Find(Without(cs, name), name) == None
    ensures forall n :: n != name ==> Find(Without(cs, name), n) == Find(cs, n)
    ensures name !in Names(cs) ==> Without(cs, name) == cs
  {
    if cs != [] {
      WithoutSpec(cs[1..], name);
      if cs[0].name != name {
        NamesAppend([cs[0]], Without(cs[1..], name));
        assert ([cs[0]] + Without(cs[1..], name))[1..] == Without(cs[1..], name);
      }
      if name !in Names(cs) {
        assert cs == [cs[0]] + cs[1..];
      }
    }
  }

  /** Deleting a name that no cache has changes nothing. */
  lemma WithoutAbsent(cs: seq<NamedCache>, name: string)
    requires name !in Names(cs)
    ensures Without(cs, name) == cs
  {
    WithoutSpec(cs, name);
  }

  /** In a list of distinct names, the name at `i` does not occur after `i`. */
  lemma NameNotLater(cs: seq<NamedCache>, i: nat)
    requires DistinctNames(cs) && i < |cs|
    ensures cs[i].name !in Names(cs[i + 1..])
  {
    var rest := cs[i + 1..];
    forall k | 0 <= k < |rest| ensures Names(rest)[k] != cs[i].name {
      assert rest[k] == cs[i + 1 + k];
    }
  }

  lemma {:induction false} WithoutAppend(a: seq<NamedCache>, b: seq<NamedCache>, name: string)
    ensures Without(a + b, name) == Without(a, name) + Without(b, name)
  {
    if a == [] {
      assert a + b == b;
    } else {
      assert (a + b)[1..] == a[1..] + b;
      WithoutAppend(a[1..], b, name);
    }
  }

  lemma {:induction false} WithoutKeepsDistinct(cs: seq<NamedCache>, name: string)
    requires DistinctNames(cs)
    ensures DistinctNames(Without(cs, name))
  {
    if cs != [] {
      WithoutKeepsDistinct(cs[1..], name);
      WithoutSpec(cs[1..], name);
      if cs[0].name != name {
        var r := [cs[0]] + Without(cs[1..], name);
        assert cs[0].name !in Names(cs[1..]);
        assert cs[0].name !in Names(Without(cs[1..], name));
        forall i, j | 0 <= i < j < |r| ensures r[i].name != r[j].name {
          if i == 0 {
            assert r[j] == Without(cs[1..], name)[j - 1];
            assert Names(Without(cs[1..], name))[j - 1] == r[j].name;
          }
        }
      }
    }
  }

  /** The cache storage object of the worker's origin. */
  class CacheStorage {
    var caches: seq<NamedCache>

    ghost predicate Valid()
      reads this
    {
      DistinctNames(caches)
    }

    constructor ()
      ensures Valid() && caches == []
    {
      caches := [];
    }

    /** `caches.open(name)`: creates the cache if it does not exist yet. */
    method Open(name: string)
      requires Valid()
      modifies this
      ensures Valid()
      ensures caches == Opened(old(caches), name)
    {
      OpenedSpec(caches, name);
      if name !in Names(caches) {
        caches := caches + [NamedCache(name, map[])];
      }
    }

    /** `cache.put(url, response)` on the opened cache `name`. */
    method Put(name: string, url: Url, response: Response)
      requires Valid() && name in Names(caches)
      modifies this
      ensures Valid()
      ensures caches == Stored(old(caches), name, map[url := response])
    {
      StoredSpec(caches, name, map[url := response]);
      caches := Stored(caches, name, map[url := response]);
    }

    /** `caches.delete(name)`: reports whether a cache of that name existed. */
    method Delete(name: string) returns (found: bool)
      requires Valid()
      modifies this
      ensures Valid()
      ensures found == (name in Names(old(caches)))
      ensures caches == Without(old(caches), name)
    {
      WithoutKeepsDistinct(caches, name);
      found := name in Names(caches);
      caches := Without(caches, name);
    }

    /** `caches.match(url)`: searches the caches in creation order. */
    method Match(url: Url) returns (r: Option<Response>)
      ensures r == MatchIn(caches, url)
    {
      var i := 0;
      while i < |caches|
        invariant 0 <= i <= |caches|
        invariant MatchIn(caches, url) == MatchIn(caches[i..], url)
      {
        if url in caches[i].entries {
          return Some(caches[i].entries[url]);
        }
        assert caches[i..][1..] == caches[i + 1..];
        i := i + 1;
      }
      return None;
    }

    /** `cache.addAll(urls)` on the opened cache `name`: fetches every URL and
        stores all responses, or, if any fetch is rejected or answers with a
        status that is not ok, stores nothing and reports failure. */
    method AddAll(name: string, urls: seq<Url>, net: Network) returns (ok: bool)
      requires Valid() && name in Names(caches)
      modifies this
      ensures Valid()
      ensures ok == AllFetchOk(urls, net)
      ensures caches == if ok then Stored(old(caches), name, Batch(urls, net)) else old(caches)
    {
      var batch: map<Url, Response> := map[];
      var i := 0;
      while i < |urls|
        invariant 0 <= i <= |urls|
        invariant AllFetchOk(urls[..i], net)
        invariant batch == Batch(urls[..i], net)
        invariant caches == old(caches)
      {
        var outcome := net(urls[i]);
        if !FetchOk(outcome) {
          assert urls[i] in urls;
          return false;
        }
        BatchStep(urls, i, net);
        batch := batch[urls[i] := outcome.response];
        i := i + 1;
      }
      assert urls[..i] == urls;
      StoredKeepsDistinct(caches, name, batch);
      caches := Stored(caches, name, batch);
      ok := true;
    }
  }

  /** A fetch outcome that `addAll` accepts: a response whose status is ok (200-299) and not 206. */
  predicate FetchOk(outcome: NetResult)
  {
    outcome.Fetched? && 200 <= outcome.response.status <= 299 && outcome.response.status != 206
  }

  predicate AllFetchOk(urls: seq<Url>, net: Network)
  {
    forall u :: u in urls ==> FetchOk(net(u))
  }

  /** The entries `addAll(urls)` stores when every fetch succeeds. */
  function Batch(urls: seq<Url>, net: Network): (r: map<Url, Response>)
    requires AllFetchOk(urls, net)
    ensures r.Keys == set u | u in urls
    ensures forall u :: u in urls ==> r[u] == net(u).response
  {
    if urls == [] then map[]
    else
      var last := urls[|urls| - 1];
      assert urls == urls[..|urls| - 1] + [last];
      Batch(urls[..|urls| - 1], net)[last := net(last).response]
  }

  /** One more successful fetch extends the batch by exactly that response. */
  lemma BatchStep(urls: seq<Url>, i: nat, net: Network)
    requires i < |urls| && AllFetchOk(urls[..i], net) && FetchOk(net(urls[i]))
    ensures AllFetchOk(urls[..i + 1], net)
    ensures Batch(urls[..i + 1], net) == Batch(urls[..i], net)[urls[i] := net(urls[i]).response]
  {
    assert urls[..i + 1] == urls[..i] + [urls[i]];
    assert urls[..i + 1][..i] == urls[..i];
  }
}
