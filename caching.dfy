/** The memoised distance lookup: a results cache keyed by a
    version-tagged name and the normalised parameters. On a hit the stored
    triple is returned; on a miss the distances are computed, stored and
    returned. */
module Caching {
  import opened Wrappers
  import opened Params
  import opened Segregation

  /** Version-tagged namespace of the stored results. */
  const Name: string := "diplotype_pairwise_distances_v1"

  /** The normalised parameters the results are keyed by. Region and
      sample sets are taken in the canonical form the normalisation
      helpers produce; those helpers are not part of this model. */
  datatype DistanceParams = DistanceParams(
    region: string,
    siteMask: Option<string>,
    sampleSets: Option<string>,
    sampleQuery: Option<string>,
    siteClass: Option<string>,
    cohortSize: Option<int>,
    distanceMetric: string,
    randomSeed: int)

  datatype CacheKey = CacheKey(name: string, params: DistanceParams)

  /** The parameters passed on to the genotype loader: all but the metric. */
  datatype SnpQuery = SnpQuery(
    region: string,
    siteMask: Option<string>,
    sampleSets: Option<string>,
    sampleQuery: Option<string>,
    siteClass: Option<string>,
    cohortSize: Option<int>,
    randomSeed: int)

  /** The genotype loader, a deterministic read of the data store. */
  type SnpCallsSource = SnpQuery -> CallSet

  function Query(p: DistanceParams): SnpQuery {
    SnpQuery(p.region, p.siteMask, p.sampleSets, p.sampleQuery, p.siteClass, p.cohortSize, p.randomSeed)
  }

  /** _diplotype_pairwise_distances(**params): load the calls, then run
      the distance step with the named metric. */
  function Compute(load: SnpCallsSource, pdist: PairwiseDistance, params: DistanceParams): (r: Result<Results>)
    ensures r.Err? <==> params.distanceMetric != "cityblock" && params.distanceMetric != "euclidean"
    ensures r.Err? ==> r.error == UnboundMetric
    ensures r.Ok? ==> r.value.nSnps == |SegregatingSites(load(Query(params)).gt)|
    ensures r.Ok? ==> r.value.gtSamples == load(Query(params)).sampleIds
  {
    DistancesFromCalls(load(Query(params)), params.distanceMetric, pdist)
  }

  /** Every entry in this function's namespace is what the computation
      gives for its parameters. Entries under other names (older versions
      of the namespace) are left unconstrained. */
  ghost predicate Consistent(entries: map<CacheKey, Results>, load: SnpCallsSource, pdist: PairwiseDistance) {
    forall k :: k in entries && k.name == Name ==> Compute(load, pdist, k.params) == Ok(entries[k])
  }

  /** No entry of a consistent cache was stored for an unsupported metric,
      and each stored SNP count is the number of segregating sites. */
  lemma StoredEntriesAreWellFormed(entries: map<CacheKey, Results>, load: SnpCallsSource,
                                   pdist: PairwiseDistance, k: CacheKey)
    requires Consistent(entries, load, pdist)
    requires k in entries && k.name == Name
    ensures k.params.distanceMetric == "cityblock" || k.params.distanceMetric == "euclidean"
    ensures entries[k].nSnps == |SegregatingSites(load(Query(k.params)).gt)|
    ensures entries[k].gtSamples == load(Query(k.params)).sampleIds
  {
    assert Compute(load, pdist, k.params) == Ok(entries[k]);
  }

  class ResultsCache {
    /** The stored results, by key. */
    var entries: map<CacheKey, Results>
    /** The loader and distance routine the misses are computed with. */
    const load: SnpCallsSource
    const pdist: PairwiseDistance
    /** How many times the computation has run on a miss. */
    ghost var computations: nat

    ghost predicate Valid()
      reads this
    {
      Consistent(entries, load, pdist)
    }

    constructor (load: SnpCallsSource, pdist: PairwiseDistance)
      ensures Valid()
      ensures entries == map[] && computations == 0
      ensures this.load == load && this.pdist == pdist
    {
      this.load := load;
      this.pdist := pdist;
      entries := map[];
      computations := 0;
    }

    /** results_cache_get: the stored entry, or None for a cache miss. */
    method Get(name: string, params: DistanceParams) returns (r: Option<Results>)
      ensures r.Some? <==> CacheKey(name, params) in entries
      ensures r.Some? ==> r.value == entries[CacheKey(name, params)]
    {
      var key := CacheKey(name, params);
      if key in entries {
        r := Some(entries[key]);
      } else {
        r := None;
      }
    }

    /** results_cache_set: store (or overwrite) one entry. */
    method Set(name: string, params: DistanceParams, results: Results)
      modifies this`entries
      ensures entries == old(entries)[CacheKey(name, params) := results]
    {
      entries := entries[CacheKey(name, params) := results];
    }

    /** diplotype_pairwise_distances: the memoised distance computation. */
    method DiplotypePairwiseDistances(params: DistanceParams) returns (r: Result<Results>)
      requires Valid()
      modifies this
      ensures Valid()
      // Memoisation is transparent: hit or miss, the answer is the computation's.
      ensures r == Compute(load, pdist, params)
      // A hit returns the stored triple, runs nothing and changes nothing.
      ensures CacheKey(Name, params) in old(entries) ==>
        r == Ok(old(entries)[CacheKey(Name, params)]) &&
        entries == old(entries) && computations == old(computations)
      // A miss runs the computation once and stores what it returns.
      ensures CacheKey(Name, params) !in old(entries) ==>
        computations == old(computations) + 1 &&
        entries == if r.Ok? then old(entries)[CacheKey(Name, params) := r.value] else old(entries)
    {
      var hit := Get(Name, params);
      if hit.Some? {
        r := Ok(hit.value);
      } else {
        computations := computations + 1;
        r := Compute(load, pdist, params);
        if r.Ok? {
          Set(Name, params, r.value);
        }
      }
    }
  }

  /** Two calls with equal parameters return the same triple, and the
      computation runs at most once between them (not at all when the
      first call was a hit). */
  method RepeatedCall(cache: ResultsCache, params: DistanceParams) returns (first: Result<Results>, second: Result<Results>)
    requires cache.Valid()
    modifies cache
    ensures cache.Valid()
    ensures first == second
    ensures first.Ok? ==> CacheKey(Name, params) in cache.entries && cache.entries[CacheKey(Name, params)] == first.value
    ensures first.Ok? ==>
      cache.computations == old(cache.computations) + (if CacheKey(Name, params) in old(cache.entries) then 0 else 1)
  {
    first := cache.DiplotypePairwiseDistances(params);
    ghost var between := cache.computations;
    second := cache.DiplotypePairwiseDistances(params);
    assert first.Ok? ==> cache.computations == between;
  }
}
