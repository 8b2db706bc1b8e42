/** The data hooks of src/hooks/useNetworkData.ts: the page-wide cache of
    sector networks, the network hook's load step, the best-effort preload,
    and the sector, stats, cascade and roles loaders.

    `fetch` followed by `response.json()` is abstract: a network loader is
    given the outcome for every path (`fetch: string -> FetchOutcome<...>`)
    and a single-file loader the outcome of its one request. Each load step
    is modelled as one atomic step from the call to its `finally` block. */
module NetworkData {
  import opened Types
  import Utils

  /** What a thrown value was: an `Error` with a message or anything else. */
  datatype Thrown = ErrorValue(message: string) | NonError

  /** The outcome of requesting one JSON file. */
  datatype FetchOutcome<T> =
    | Ok(payload: T)       // `response.ok` and the body parsed
    | NotOk                // a response whose `ok` is false
    | Threw(thrown: Thrown) // `fetch` rejected or the body did not parse

  /** The error a hook stores; always an `Error` object. */
  datatype LoadError = LoadError(message: string)

  /** `err instanceof Error ? err : new Error('Unknown error')`. */
  function Caught(t: Thrown): (e: LoadError)
    ensures t.ErrorValue? ==> e.message == t.message
    ensures t.NonError? ==> e.message == "Unknown error"
  {
    match t
    case ErrorValue(m) => LoadError(m)
    case NonError => LoadError("Unknown error")
  }

  /** The error a failed request leaves: the loader's own message for a
      non-ok response, the caught value otherwise. */
  function FailureOf<T>(o: FetchOutcome<T>, notOkMessage: string): (e: LoadError)
    requires !o.Ok?
    ensures o.NotOk? ==> e.message == notOkMessage
    ensures o.Threw? ==> e == Caught(o.thrown)
  {
    match o
    case NotOk => LoadError(notOkMessage)
    case Threw(t) => Caught(t)
  }

  /** The path of a sector's network file; its file name is the sector's slug.
      The deployment base path in front of it is not modelled. */
  function NetworkPath(sector: string): (p: string)
    ensures |p| >= 19 && p[..14] == "data/networks/" && p[|p| - 5..] == ".json"
    ensures p[14..|p| - 5] == Utils.Slugify(sector) && Utils.IsSlug(p[14..|p| - 5])
  {
    "data/networks/" + Utils.Slugify(sector) + ".json"
  }

  /** `new` keeps every entry of `old` with its value: the cache only grows
      and never rewrites a key. */
  predicate Extends(old_: map<string, SectorNetwork>, new_: map<string, SectorNetwork>)
  {
    forall k :: k in old_ ==> k in new_ && new_[k] == old_[k]
  }

  // ---------------------------------------------------------------------
  // preloadNetworks, as a specification
  // ---------------------------------------------------------------------

  /** The outcome of requesting each sector's network file, by sector. */
  function BySector(fetch: string -> FetchOutcome<SectorNetwork>): string -> FetchOutcome<SectorNetwork>
  {
    s => fetch(NetworkPath(s))
  }

  /** The sectors whose file a preload requests: every listed sector absent
      from the cache as it was when the preload was called, in list order.
      Every `has` check runs before any request completes, so a sector
      listed twice is requested twice. */
  function PendingSectors(sectors: seq<string>, snapshot: map<string, SectorNetwork>): (r: seq<string>)
    ensures |r| <= |sectors|
  {
    if sectors == [] then []
    else
      var init := sectors[..|sectors| - 1];
      var s := sectors[|sectors| - 1];
      PendingSectors(init, snapshot) + (if s !in snapshot then [s] else [])
  }

  /** A sector is requested exactly when it is listed and was absent from
      the cache. */
  lemma {:induction false} PendingSectorsSpec(sectors: seq<string>, snapshot: map<string, SectorNetwork>)
    ensures forall k :: k in PendingSectors(sectors, snapshot) <==> k in sectors && k !in snapshot
  {
    if sectors != [] {
      var init := sectors[..|sectors| - 1];
      var s := sectors[|sectors| - 1];
      PendingSectorsSpec(init, snapshot);
      assert sectors == init + [s];
    }
  }

  /** The cache after a preload of `sectors` started from `snapshot`, where
      `outcome(s)` is the outcome of sector `s`'s request: each absent
      sector whose request succeeded is added; failures are dropped. */
  function Preloaded(snapshot: map<string, SectorNetwork>, sectors: seq<string>,
                     outcome: string -> FetchOutcome<SectorNetwork>): (r: map<string, SectorNetwork>)
    ensures forall k :: k in r ==> k in snapshot || k in sectors
  {
    if sectors == [] then snapshot
    else
      var acc := Preloaded(snapshot, sectors[..|sectors| - 1], outcome);
      var s := sectors[|sectors| - 1];
      if s !in snapshot && outcome(s).Ok? then acc[s := outcome(s).payload] else acc
  }

  /** One more listed sector: `Preloaded` and `PendingSectors` of
      `init + [s]` in terms of those of `init`. */
  lemma PreloadStep(snapshot: map<string, SectorNetwork>, init: seq<string>, s: string,
                    outcome: string -> FetchOutcome<SectorNetwork>)
    ensures Preloaded(snapshot, init + [s], outcome)
      == if s !in snapshot && outcome(s).Ok?
         then Preloaded(snapshot, init, outcome)[s := outcome(s).payload]
         else Preloaded(snapshot, init, outcome)
    ensures PendingSectors(init + [s], snapshot)
      == PendingSectors(init, snapshot) + (if s !in snapshot then [s] else [])
  {
    assert (init + [s])[..|init|] == init;
  }

  /** `PreloadStep` for the prefixes of one list, as a loop over it needs it. */
  lemma PreloadPrefixStep(snapshot: map<string, SectorNetwork>, sectors: seq<string>, i: int,
                          outcome: string -> FetchOutcome<SectorNetwork>)
    requires 0 <= i < |sectors|
    ensures Preloaded(snapshot, sectors[..i + 1], outcome)
      == if sectors[i] !in snapshot && outcome(sectors[i]).Ok?
         then Preloaded(snapshot, sectors[..i], outcome)[sectors[i] := outcome(sectors[i]).payload]
         else Preloaded(snapshot, sectors[..i], outcome)
    ensures PendingSectors(sectors[..i + 1], snapshot)
      == PendingSectors(sectors[..i], snapshot) + (if sectors[i] !in snapshot then [sectors[i]] else [])
  {
    assert sectors[..i + 1] == sectors[..i] + [sectors[i]];
    PreloadStep(snapshot, sectors[..i], sectors[i], outcome);
  }

  /** A preload never removes or rewrites an entry. */
  lemma {:induction false} PreloadedExtends(snapshot: map<string, SectorNetwork>, sectors: seq<string>,
                                            outcome: string -> FetchOutcome<SectorNetwork>)
    ensures Extends(snapshot, Preloaded(snapshot, sectors, outcome))
  {
    if sectors != [] {
      PreloadedExtends(snapshot, sectors[..|sectors| - 1], outcome);
    }
  }

  /** Every entry a preload adds is a listed sector whose request
      succeeded, mapped to the fetched network. */
  lemma {:induction false} PreloadedAddsOnlyFetched(snapshot: map<string, SectorNetwork>, sectors: seq<string>,
                                                    outcome: string -> FetchOutcome<SectorNetwork>)
    ensures forall k :: k in Preloaded(snapshot, sectors, outcome) && k !in snapshot ==>
      k in sectors && outcome(k).Ok? && Preloaded(snapshot, sectors, outcome)[k] == outcome(k).payload
  {
    if sectors != [] {
      var init := sectors[..|sectors| - 1];
      var last := sectors[|sectors| - 1];
      PreloadedAddsOnlyFetched(snapshot, init, outcome);
      assert sectors == init + [last];
      var acc := Preloaded(snapshot, init, outcome);
      var r := Preloaded(snapshot, sectors, outcome);
      forall k | k in r && k !in snapshot
        ensures k in sectors && outcome(k).Ok? && r[k] == outcome(k).payload
      {
        if k != last {
          assert k in acc;
        }
      }
    }
  }

  /** Every listed sector that was absent and whose request succeeded is
      added. */
  lemma {:induction false} PreloadedAddsAllFetched(snapshot: map<string, SectorNetwork>, sectors: seq<string>,
                                                   outcome: string -> FetchOutcome<SectorNetwork>)
    ensures forall k :: k in sectors && k !in snapshot && outcome(k).Ok? ==>
      k in Preloaded(snapshot, sectors, outcome)
  {
    if sectors != [] {
      var init := sectors[..|sectors| - 1];
      var last := sectors[|sectors| - 1];
      PreloadedAddsAllFetched(snapshot, init, outcome);
      assert sectors == init + [last];
      PreloadedExtends(snapshot, init, outcome);
      forall k | k in sectors && k !in snapshot && outcome(k).Ok?
        ensures k in Preloaded(snapshot, sectors, outcome)
      {
        if k != last {
          assert k in init;
        }
      }
    }
  }

  /** A preload never removes or rewrites an entry; it adds exactly the listed
      sectors that were absent and whose request succeeded, each mapped to
      the fetched network. */
  lemma PreloadedSpec(snapshot: map<string, SectorNetwork>, sectors: seq<string>,
                      outcome: string -> FetchOutcome<SectorNetwork>)
    ensures Extends(snapshot, Preloaded(snapshot, sectors, outcome))
    ensures forall k :: k in Preloaded(snapshot, sectors, outcome) && k !in snapshot ==>
      k in sectors && outcome(k).Ok? && Preloaded(snapshot, sectors, outcome)[k] == outcome(k).payload
    ensures forall k :: k in sectors && k !in snapshot && outcome(k).Ok? ==>
      k in Preloaded(snapshot, sectors, outcome)
  {
    PreloadedExtends(snapshot, sectors, outcome);
    PreloadedAddsOnlyFetched(snapshot, sectors, outcome);
    PreloadedAddsAllFetched(snapshot, sectors, outcome);
  }

  /** A preload in which every request fails leaves the cache as it was. */
  lemma {:induction false} PreloadAllFailing(snapshot: map<string, SectorNetwork>, sectors: seq<string>,
                                             outcome: string -> FetchOutcome<SectorNetwork>)
    requires forall k :: k in sectors ==> !outcome(k).Ok?
    ensures Preloaded(snapshot, sectors, outcome) == snapshot
  {
    if sectors != [] {
      PreloadAllFailing(snapshot, sectors[..|sectors| - 1], outcome);
    }
  }

  /** The page-wide `networkCache`: sector name to network, for the whole
      session. */
  class NetworkCache {
    var entries: map<string, SectorNetwork>

    constructor ()
      ensures entries == map[]
    {
      entries := map[];
    }

    /** `preloadNetworks(sectors)`: never fails. Returns the sectors whose
        file (at `NetworkPath`) was requested. */
    method Preload(sectors: seq<string>, fetch: string -> FetchOutcome<SectorNetwork>)
      returns (requested: seq<string>)
      modifies this
      ensures requested == PendingSectors(sectors, old(entries))
      ensures entries == Preloaded(old(entries), sectors, BySector(fetch))
      ensures Extends(old(entries), entries)
    {
      var snapshot := entries;
      var outcomeOf := BySector(fetch);
      requested := [];
      var i := 0;
      while i < |sectors|
        invariant 0 <= i <= |sectors|
        invariant requested == PendingSectors(sectors[..i], snapshot)
        invariant entries == Preloaded(snapshot, sectors[..i], outcomeOf)
      {
        var s := sectors[i];
        PreloadPrefixStep(snapshot, sectors, i, outcomeOf);
        if s !in snapshot {
          requested := requested + [s];
          var outcome := outcomeOf(s);
          if outcome.Ok? {
            entries := entries[s := outcome.payload];
          }
        }
        i := i + 1;
      }
      assert sectors[..i] == sectors;
      PreloadedExtends(snapshot, sectors, BySector(fetch));
    }
  }

  // ---------------------------------------------------------------------
  // useNetworkData
  // ---------------------------------------------------------------------

  /** The state of one `useNetworkData` hook. */
  class NetworkState {
    var data: Option<SectorNetwork>
    var loading: bool
    var error: Option<LoadError>

    constructor ()
      ensures data == None && loading && error == None
    {
      data := None;
      loading := true;
      error := None;
    }

    /** The effect run for `sector`. An empty sector does nothing. A cached
        sector is shown without a request and leaves `error` as it was.
        Otherwise the sector's file is requested: on success it is cached and
        shown and `error` is cleared; on failure `error` is set and the cache
        and `data` stay as they were. Returns the path requested, if any. */
    method Load(sector: string, cache: NetworkCache, fetch: string -> FetchOutcome<SectorNetwork>)
      returns (requested: Option<string>)
      modifies this, cache
      ensures Extends(old(cache.entries), cache.entries)
      ensures sector == "" ==>
        && requested == None && cache.entries == old(cache.entries)
        && data == old(data) && loading == old(loading) && error == old(error)
      ensures sector != "" && sector in old(cache.entries) ==>
        && requested == None && cache.entries == old(cache.entries)
        && data == Some(old(cache.entries)[sector]) && !loading && error == old(error)
      ensures sector != "" && sector !in old(cache.entries) ==>
        && requested == Some(NetworkPath(sector)) && !loading
        && (fetch(NetworkPath(sector)).Ok? ==>
              && cache.entries == old(cache.entries)[sector := fetch(NetworkPath(sector)).payload]
              && data == Some(fetch(NetworkPath(sector)).payload)
              && error == None)
        && (!fetch(NetworkPath(sector)).Ok? ==>
              && cache.entries == old(cache.entries)
              && data == old(data)
              && error == Some(FailureOf(fetch(NetworkPath(sector)), "Failed to load network for " + sector)))
    {
      requested := None;
      if sector == "" {
        return;
      }
      if sector in cache.entries {
        data := Some(cache.entries[sector]);
        loading := false;
        return;
      }
      loading := true;
      error := None;
      var path := NetworkPath(sector);
      requested := Some(path);
      var outcome := fetch(path);
      if outcome.Ok? {
        cache.entries := cache.entries[sector := outcome.payload];
        data := Some(outcome.payload);
      } else {
        error := Some(FailureOf(outcome, "Failed to load network for " + sector));
      }
      loading := false;
    }

    /** `Load` with the error of an earlier sector cleared on a cache hit as
        it is before a request, so that no error outlives the sector it
        belongs to. */
    method LoadResettingError(sector: string, cache: NetworkCache,
                              fetch: string -> FetchOutcome<SectorNetwork>)
      returns (requested: Option<string>)
      modifies this, cache
      ensures Extends(old(cache.entries), cache.entries)
      ensures sector == "" ==>
        && requested == None && cache.entries == old(cache.entries)
        && data == old(data) && loading == old(loading) && error == old(error)
      ensures sector != "" && sector in old(cache.entries) ==>
        && requested == None && cache.entries == old(cache.entries)
        && data == Some(old(cache.entries)[sector]) && !loading && error == None
      ensures sector != "" && sector !in old(cache.entries) ==>
        && requested == Some(NetworkPath(sector)) && !loading
        && (fetch(NetworkPath(sector)).Ok? ==>
              && cache.entries == old(cache.entries)[sector := fetch(NetworkPath(sector)).payload]
              && data == Some(fetch(NetworkPath(sector)).payload)
              && error == None)
        && (!fetch(NetworkPath(sector)).Ok? ==>
              && cache.entries == old(cache.entries)
              && data == old(data)
              && error == Some(FailureOf(fetch(NetworkPath(sector)), "Failed to load network for " + sector)))
    {
      var hit := sector != "" && sector in cache.entries;
      requested := Load(sector, cache, fetch);
      if hit {
        error := None;
      }
    }
  }

  // ---------------------------------------------------------------------
  // useSectors
  // ---------------------------------------------------------------------

  predicate SortedByHhShareDesc(s: seq<SectorSummary>)
  {
    forall i, j :: 0 <= i < j < |s| ==> s[i].hhShare >= s[j].hhShare
  }

  /** The summaries of `s` whose HH share is exactly `v`, in their order in
      `s`: the ties a stable sort leaves as it found them. */
  function Ties(s: seq<SectorSummary>, v: real): (r: seq<SectorSummary>)
    ensures |r| <= |s|
    ensures forall k :: 0 <= k < |r| ==> r[k].hhShare == v
  {
    if s == [] then []
    else (if s[0].hhShare == v then [s[0]] else []) + Ties(s[1..], v)
  }

  lemma {:induction false} TiesConcat(a: seq<SectorSummary>, b: seq<SectorSummary>, v: real)
    ensures Ties(a + b, v) == Ties(a, v) + Ties(b, v)
  {
    if a == [] {
      assert a + b == b;
    } else {
      assert (a + b)[0] == a[0];
      assert (a + b)[1..] == a[1..] + b;
      TiesConcat(a[1..], b, v);
    }
  }

  /** `s` and `t` hold the same ties for every share, in the same order. */
  ghost predicate SameTies(s: seq<SectorSummary>, t: seq<SectorSummary>)
  {
    forall v :: Ties(s, v) == Ties(t, v)
  }

  lemma TiesPair(x: SectorSummary, y: SectorSummary, v: real)
    requires x.hhShare != y.hhShare
    ensures Ties([x, y], v) == Ties([y, x], v)
  {
    assert [x, y][1..] == [y] && [y, x][1..] == [x];
    assert [x][1..] == [] && [y][1..] == [];
  }

  lemma TiesConcat3(p: seq<SectorSummary>, m: seq<SectorSummary>, q: seq<SectorSummary>, v: real)
    ensures Ties(p + m + q, v) == Ties(p, v) + Ties(m, v) + Ties(q, v)
  {
    TiesConcat(p + m, q, v);
    TiesConcat(p, m, v);
  }

  /** `s` with the neighbours at `k` and `k + 1` exchanged. */
  function Swapped(s: seq<SectorSummary>, k: int): seq<SectorSummary>
    requires 0 <= k < |s| - 1
  {
    seq(|s|, m requires 0 <= m < |s| => if m == k then s[k + 1] else if m == k + 1 then s[k] else s[m])
  }

  lemma SwapKeepsMultiset(s: seq<SectorSummary>, k: int)
    requires 0 <= k < |s| - 1
    ensures multiset(Swapped(s, k)) == multiset(s)
  {
    var p, x, y, q := s[..k], s[k], s[k + 1], s[k + 2..];
    assert s == p + [x, y] + q;
    assert Swapped(s, k) == p + [y, x] + q;
    assert multiset(p + [x, y] + q) == multiset(p) + multiset([x, y]) + multiset(q);
    assert multiset(p + [y, x] + q) == multiset(p) + multiset([y, x]) + multiset(q);
    assert multiset([x, y]) == multiset([y, x]);
  }

  /** Exchanging two neighbours with different shares changes no list of
      ties. */
  lemma SwapKeepsTies(s: seq<SectorSummary>, k: int)
    requires 0 <= k < |s| - 1
    requires s[k].hhShare != s[k + 1].hhShare
    ensures SameTies(Swapped(s, k), s)
  {
    var p, x, y, q := s[..k], s[k], s[k + 1], s[k + 2..];
    assert s == p + [x, y] + q;
    assert Swapped(s, k) == p + [y, x] + q;
    forall v
      ensures Ties(p + [y, x] + q, v) == Ties(p + [x, y] + q, v)
    {
      TiesConcat3(p, [y, x], q, v);
      TiesConcat3(p, [x, y], q, v);
      TiesPair(x, y, v);
    }
  }

  /** Two orderings by share of the same summaries start with equal shares. */
  lemma SortedHeadsTie(s: seq<SectorSummary>, t: seq<SectorSummary>)
    requires SortedByHhShareDesc(s) && SortedByHhShareDesc(t)
    requires s != [] && multiset(s) == multiset(t)
    ensures t != [] && t[0].hhShare == s[0].hhShare
  {
    assert s[0] in multiset(t) && t[0] in multiset(s);
    var i :| 0 <= i < |t| && t[i] == s[0];
    var j :| 0 <= j < |s| && s[j] == t[0];
  }

  /** Equal first summaries and equal ties leave equal ties behind them. */
  lemma SameTiesTail(s: seq<SectorSummary>, t: seq<SectorSummary>)
    requires s != [] && t != [] && s[0] == t[0]
    requires SameTies(s, t)
    ensures SameTies(s[1..], t[1..])
  {
    forall v
      ensures Ties(s[1..], v) == Ties(t[1..], v)
    {
      var h := if s[0].hhShare == v then [s[0]] else [];
      assert Ties(s, v) == h + Ties(s[1..], v);
      assert Ties(t, v) == h + Ties(t[1..], v);
      assert (h + Ties(s[1..], v))[|h|..] == Ties(s[1..], v);
      assert (h + Ties(t[1..], v))[|h|..] == Ties(t[1..], v);
    }
  }

  lemma SameHeadTailPermutation(s: seq<SectorSummary>, t: seq<SectorSummary>)
    requires s != [] && t != [] && s[0] == t[0]
    requires multiset(s) == multiset(t)
    ensures multiset(s[1..]) == multiset(t[1..])
  {
    assert s == [s[0]] + s[1..] && t == [t[0]] + t[1..];
    assert multiset(s[1..]) == multiset(s) - multiset{s[0]};
    assert multiset(t[1..]) == multiset(t) - multiset{t[0]};
  }

  /** Ordered by share, a permutation, and every list of ties as in the
      input: these three facts leave exactly one possible order, the one a
      stable sort produces. */
  lemma {:induction false} StableOrderIsUnique(s: seq<SectorSummary>, t: seq<SectorSummary>)
    requires SortedByHhShareDesc(s) && SortedByHhShareDesc(t)
    requires multiset(s) == multiset(t)
    requires SameTies(s, t)
    ensures s == t
  {
    if s != [] {
      SortedHeadsTie(s, t);
      var M := s[0].hhShare;
      assert Ties(s, M) == [s[0]] + Ties(s[1..], M);
      assert Ties(t, M) == [t[0]] + Ties(t[1..], M);
      assert s[0] == Ties(s, M)[0] == Ties(t, M)[0] == t[0];
      SameTiesTail(s, t);
      SameHeadTailPermutation(s, t);
      StableOrderIsUnique(s[1..], t[1..]);
    }
  }

  /** `data.sort((a, b) => b.hh_share - a.hh_share)`, in place: an insertion
      sort that moves a summary left past every summary with a smaller share,
      so summaries with equal shares keep their order. */
  method SortByHhShareDesc(a: array<SectorSummary>)
    modifies a
    ensures SortedByHhShareDesc(a[..])
    ensures multiset(a[..]) == multiset(old(a[..]))
    ensures SameTies(a[..], old(a[..]))
  {
    var i := 0;
    while i < a.Length
      invariant 0 <= i <= a.Length
      invariant forall k, m :: 0 <= k < m < i ==> a[k].hhShare >= a[m].hhShare
      invariant multiset(a[..]) == multiset(old(a[..]))
      invariant SameTies(a[..], old(a[..]))
    {
      SiftLeft(a, i);
      i := i + 1;
    }
  }

  /** One pass of the insertion sort: moves `a[i]` left past every summary
      with a smaller share, so that the first `i + 1` summaries are in
      order. */
  method SiftLeft(a: array<SectorSummary>, i: int)
    requires 0 <= i < a.Length
    requires forall k, m :: 0 <= k < m < i ==> a[k].hhShare >= a[m].hhShare
    modifies a
    ensures forall k, m :: 0 <= k < m <= i ==> a[k].hhShare >= a[m].hhShare
    ensures multiset(a[..]) == multiset(old(a[..]))
    ensures SameTies(a[..], old(a[..]))
  {
    var j := i;
    while j > 0 && a[j - 1].hhShare < a[j].hhShare
      invariant 0 <= j <= i
      invariant Sifting(a[..], i, j)
      invariant multiset(a[..]) == multiset(old(a[..]))
      invariant SameTies(a[..], old(a[..]))
    {
      SiftStep(a[..], i, j);
      SwapAdjacent(a, j - 1);
      j := j - 1;
    }
    SiftedPrefixSorted(a[..], i, j);
  }

  /** Mid-sift: the prefix up to `i` is in order once the moving summary at
      `j` is set aside, and that summary is no smaller than anything to its
      right. */
  predicate Sifting(s: seq<SectorSummary>, i: int, j: int)
    requires 0 <= j <= i < |s|
  {
    && (forall k, m :: 0 <= k < m <= i && k != j && m != j ==> s[k].hhShare >= s[m].hhShare)
    && (forall m :: j < m <= i ==> s[j].hhShare >= s[m].hhShare)
  }

  /** Moving the summary one place left past a smaller share keeps the sift
      going. */
  lemma SiftStep(s: seq<SectorSummary>, i: int, j: int)
    requires 0 < j <= i < |s| && Sifting(s, i, j)
    requires s[j - 1].hhShare < s[j].hhShare
    ensures Sifting(Swapped(s, j - 1), i, j - 1)
  {
  }

  /** Where the sift stops, the whole prefix up to `i` is in order: the
      summary at `j` is no larger than its left neighbour and no smaller than
      anything to its right. */
  lemma SiftedPrefixSorted(s: seq<SectorSummary>, i: int, j: int)
    requires 0 <= j <= i < |s| && Sifting(s, i, j)
    requires j > 0 ==> s[j - 1].hhShare >= s[j].hhShare
    ensures forall k, m :: 0 <= k < m <= i ==> s[k].hhShare >= s[m].hhShare
  {
    forall k, m | 0 <= k < m <= i
      ensures s[k].hhShare >= s[m].hhShare
    {
      if m == j && k < j - 1 {
        assert s[k].hhShare >= s[j - 1].hhShare;
      }
    }
  }

  /** Exchanges `a[k]` and `a[k + 1]`; the contents stay a permutation, and
      when the two shares differ every list of ties is unchanged. */
  method SwapAdjacent(a: array<SectorSummary>, k: int)
    requires 0 <= k < a.Length - 1
    modifies a
    ensures a[..] == Swapped(old(a[..]), k)
    ensures multiset(a[..]) == multiset(old(a[..]))
    ensures old(a[k].hhShare) != old(a[k + 1].hhShare) ==>
      SameTies(a[..], old(a[..]))
  {
    ghost var before := a[..];
    SwapKeepsMultiset(before, k);
    if before[k].hhShare != before[k + 1].hhShare {
      SwapKeepsTies(before, k);
    }
    a[k], a[k + 1] := a[k + 1], a[k];
    assert a[..] == Swapped(before, k);
  }

  /** The state of the `useSectors` hook. */
  class SectorsState {
    var sectors: seq<SectorSummary>
    var loading: bool
    var error: Option<LoadError>

    constructor ()
      ensures sectors == [] && loading && error == None
    {
      sectors := [];
      loading := true;
      error := None;
    }

    /** Loads `sectors.json`: on success the list, ordered by HH share from
        highest to lowest; on failure an error and the list unchanged. */
    method Load(outcome: FetchOutcome<seq<SectorSummary>>)
      modifies this
      ensures !loading
      ensures outcome.Ok? ==>
        && multiset(sectors) == multiset(outcome.payload)
        && SortedByHhShareDesc(sectors)
        && SameTies(sectors, outcome.payload)
        && error == old(error)
      ensures !outcome.Ok? ==>
        sectors == old(sectors) && error == Some(FailureOf(outcome, "Failed to load sectors"))
    {
      if outcome.Ok? {
        var list := outcome.payload;
        var a := new SectorSummary[|list|](i requires 0 <= i < |list| => list[i]);
        assert a[..] == list;
        SortByHhShareDesc(a);
        sectors := a[..];
      } else {
        error := Some(FailureOf(outcome, "Failed to load sectors"));
      }
      loading := false;
    }
  }

  // ---------------------------------------------------------------------
  // useStats, useCascadeResults, useRoles
  // ---------------------------------------------------------------------

  /** The statistics shown when `stats.json` cannot be loaded. */
  const FallbackStats: ResearchStats := ResearchStats(15759, 20, 0.10, 6398, 0.406, [])

  /** The state of the `useStats` hook. */
  class StatsState {
    var stats: Option<ResearchStats>
    var loading: bool

    constructor ()
      ensures stats == None && loading
    {
      stats := None;
      loading := true;
    }

    /** Loads `stats.json`, substituting the fallback on any failure. */
    method Load(outcome: FetchOutcome<ResearchStats>)
      modifies this
      ensures !loading && stats.Some?
      ensures outcome.Ok? ==> stats == Some(outcome.payload)
      ensures !outcome.Ok? ==>
        && stats == Some(FallbackStats)
        && stats.value.totalRoles == 15759 && stats.value.totalSectors == 20
        && stats.value.hhRoles == 6398
    {
      if outcome.Ok? {
        stats := Some(outcome.payload);
      } else {
        stats := Some(FallbackStats);
      }
      loading := false;
    }
  }

  /** The state of the `useCascadeResults` hook. */
  class CascadeState {
    var results: seq<CascadeResult>
    var loading: bool

    constructor ()
      ensures results == [] && loading
    {
      results := [];
      loading := true;
    }

    /** Loads `cascade.json`, substituting the empty list on any failure. */
    method Load(outcome: FetchOutcome<seq<CascadeResult>>)
      modifies this
      ensures !loading
      ensures results == if outcome.Ok? then outcome.payload else []
    {
      if outcome.Ok? {
        results := outcome.payload;
      } else {
        results := [];
      }
      loading := false;
    }
  }

  /** The state of the `useRoles` hook. */
  class RolesState {
    var roles: seq<Role>
    var loading: bool
    var error: Option<LoadError>

    constructor ()
      ensures roles == [] && loading && error == None
    {
      roles := [];
      loading := true;
      error := None;
    }

    /** Loads `roles.json`; a failure surfaces as an error. */
    method Load(outcome: FetchOutcome<seq<Role>>)
      modifies this
      ensures !loading
      ensures outcome.Ok? ==> roles == outcome.payload && error == old(error)
      ensures !outcome.Ok? ==>
        roles == old(roles) && error == Some(FailureOf(outcome, "Failed to load roles"))
    {
      if outcome.Ok? {
        roles := outcome.payload;
      } else {
        error := Some(FailureOf(outcome, "Failed to load roles"));
      }
      loading := false;
    }
  }
}
