// The language server's cache of project information, one future per
// properties-file URI, and its eviction on "microprofile/propertiesChanged"
// events. Futures are modelled by their state; the provider's answers are
// inputs.

module ProjectInfoCaches {
  import opened Wrappers
  import opened ProjectInfos
  import opened PropertiesEvents

  /** The project information a completed future holds: the provider's
    * answer plus the properties and hints computed from the Java sources,
    * which a sources-only change clears and the next lookup reloads. The
    * class itself is not part of this model's sources; only the two
    * effects the cache relies on are modelled. */
  class ExtendedProjectInfo {
    const info: ProjectInfo
    var sourceProperties: seq<string>
    var sourceHints: seq<ItemHint>
    var reloadFromSource: bool

    constructor (info: ProjectInfo)
      ensures this.info == info && sourceProperties == [] && sourceHints == [] && !reloadFromSource
    {
      this.info := info;
      sourceProperties := [];
      sourceHints := [];
      reloadFromSource := false;
    }

    /** clearPropertiesFromSource: forget the sources' part and ask for a
      * reload. */
    method ClearPropertiesFromSource()
      modifies this
      ensures sourceProperties == [] && sourceHints == [] && reloadFromSource
    {
      sourceProperties := [];
      sourceHints := [];
      reloadFromSource := true;
    }

    /** updateSourcesProperties: the reloaded sources' part replaces the old
      * one. */
    method UpdateSourcesProperties(properties: seq<string>, hints: seq<ItemHint>)
      modifies this
      ensures sourceProperties == properties && sourceHints == hints && !reloadFromSource
    {
      sourceProperties := properties;
      sourceHints := hints;
      reloadFromSource := false;
    }
  }

  /** The state of a cached future. */
  datatype Future = Pending | Cancelled | Failed | Done(info: ExtendedProjectInfo)

  /** What getProjectInfoFromCache hands back: a fresh fetch with the given
    * scope, now cached; the cached future itself; or a sources-only fetch
    * whose result is written into the cached project information. */
  datatype Answer = Fetched(scope: Scope) | Cached(future: Future) | ReloadingSources(info: ExtendedProjectInfo)

  /** A future getProjectInfoFromCache replaces with a fresh fetch. */
  predicate Unusable(f: Future) {
    f.Cancelled? || f.Failed?
  }

  /** The project information of a completed future, as
    * getProjectInfoWrapper reads it (null for any other future). */
  function Wrapper(f: Future): Option<ExtendedProjectInfo> {
    if f.Done? then Some(f.info) else None
  }

  /** An entry matches the event when its future has completed and its
    * project URI is one of the event's. */
  predicate Matches(f: Future, projectURIs: set<string>) {
    f.Done? && f.info.info.projectURI.Some? && f.info.info.projectURI.value in projectURIs
  }

  /** getPropertiesFileURIs: the matching keys, in the map's iteration
    * order. */
  function MatchingURIs(cache: map<string, Future>, order: seq<string>, projectURIs: set<string>): (r: seq<string>)
    requires forall u :: u in order ==> u in cache
    ensures forall u :: u in r <==> u in order && Matches(cache[u], projectURIs)
    decreases |order|
  {
    if order == [] then []
    else
      var init := MatchingURIs(cache, order[..|order| - 1], projectURIs);
      var last := order[|order| - 1];
      assert forall u :: u in order <==> u in order[..|order| - 1] || u == last;
      if Matches(cache[last], projectURIs) then init + [last] else init
  }

  /** A ConcurrentHashMap iteration order: each key once. */
  ghost predicate IterationOrder(order: seq<string>, cache: map<string, Future>) {
    (forall i, j :: 0 <= i < j < |order| ==> order[i] != order[j]) &&
    (forall u :: u in cache <==> u in order)
  }

  /** The completed project informations of the given keys. */
  function InfosOf(cache: map<string, Future>, uris: seq<string>): set<ExtendedProjectInfo>
    requires forall u :: u in uris ==> u in cache
  {
    set u | u in uris && cache[u].Done? :: cache[u].info
  }

  /** All completed project informations of the cache. */
  function AllInfos(cache: map<string, Future>): set<ExtendedProjectInfo> {
    set u | u in cache && cache[u].Done? :: cache[u].info
  }

  /** getProjectInfo settles a failed fetch with EMPTY_PROJECT_INFO. */
  function Settled(outcome: Result<ProjectInfo, string>): (r: ProjectInfo)
    ensures outcome.Failure? ==> r.properties == [] && r.hints == [] && r.projectURI == Some("")
    ensures outcome.Success? ==> r == outcome.value
  {
    if outcome.Success? then outcome.value else EmptyProjectInfo()
  }

  /** MicroProfileProjectInfoCache: the futures by properties-file URI. */
  class ProjectInfoCache {
    var cache: map<string, Future>

    constructor ()
      ensures cache == map[]
    {
      cache := map[];
    }

    /** getProjectInfoFromCache. A missing, cancelled or failed entry is
      * replaced by a fresh SOURCES_AND_DEPENDENCIES fetch; a pending one is
      * returned as it is; a completed one is returned as it is unless it
      * asks for a reload from the sources, which starts an ONLY_SOURCES
      * fetch into that same project information. */
    method GetProjectInfoFromCache(uri: string) returns (answer: Answer)
      modifies this
      ensures uri !in old(cache) || Unusable(old(cache)[uri]) ==>
        answer == Fetched(SourcesAndDependencies) && cache == old(cache)[uri := Pending]
      ensures uri in old(cache) && old(cache)[uri].Pending? ==>
        answer == Cached(Pending) && cache == old(cache)
      ensures uri in old(cache) && old(cache)[uri].Done? ==>
        cache == old(cache) &&
        answer == if old(cache)[uri].info.reloadFromSource then ReloadingSources(old(cache)[uri].info)
                  else Cached(old(cache)[uri])
    {
      if uri !in cache || Unusable(cache[uri]) {
        cache := cache[uri := Pending];
        return Fetched(SourcesAndDependencies);
      }
      var projectInfo := cache[uri];
      if !projectInfo.Done? {
        return Cached(projectInfo);
      }
      var wrapper := projectInfo.info;
      if wrapper.reloadFromSource {
        return ReloadingSources(wrapper);
      }
      return Cached(projectInfo);
    }

    /** The end of a sources-only fetch: its properties and hints, or
      * EMPTY_PROJECT_INFO's on failure, are written into the cached project
      * information. */
    static method SourcesReloaded(wrapper: ExtendedProjectInfo, outcome: Result<ProjectInfo, string>)
      modifies wrapper
      ensures var info := Settled(outcome);
        wrapper.sourceProperties == info.properties && wrapper.sourceHints == info.hints && !wrapper.reloadFromSource
    {
      var info := Settled(outcome);
      wrapper.UpdateSourcesProperties(info.properties, info.hints);
    }

    /** getPropertiesFileURIs, with the keys in the map's iteration order. */
    method GetPropertiesFileURIs(projectURIs: set<string>, order: seq<string>) returns (uris: seq<string>)
      requires IterationOrder(order, cache)
      ensures uris == MatchingURIs(cache, order, projectURIs)
    {
      uris := [];
      for i := 0 to |order|
        invariant uris == MatchingURIs(cache, order[..i], projectURIs)
      {
        assert order[..i + 1][..i] == order[..i];
        var entry := cache[order[i]];
        if Wrapper(entry).Some? {
          var info := Wrapper(entry).value.info;
          if info.projectURI.Some? && info.projectURI.value in projectURIs {
            uris := uris + [order[i]];
          }
        }
      }
      assert order[..|order|] == order;
    }

    /** propertiesChanged: dispatches on the event's scope. */
    method PropertiesChanged(scope: Scope, projectURIs: set<string>, order: seq<string>) returns (uris: seq<string>)
      requires IterationOrder(order, cache)
      modifies this, AllInfos(cache)
      ensures scope == OnlyConfigFiles ==> uris == [] && cache == old(cache)
      ensures scope != OnlyConfigFiles ==> uris == MatchingURIs(old(cache), order, projectURIs)
      ensures scope == OnlySources ==> cache == old(cache)
      ensures scope == OnlySources ==> forall w :: w in InfosOf(old(cache), uris) ==>
        w.sourceProperties == [] && w.sourceHints == [] && w.reloadFromSource
      ensures scope == SourcesAndDependencies ==>
        cache == map u | u in old(cache) && !Matches(old(cache)[u], projectURIs) :: old(cache)[u]
      ensures forall w :: w in old(AllInfos(cache)) && w !in InfosOf(old(cache), uris) ==> unchanged(w)
      ensures scope != OnlySources ==> forall w :: w in old(AllInfos(cache)) ==> unchanged(w)
    {
      if scope == OnlyConfigFiles {
        uris := [];
      } else if scope == OnlySources {
        uris := JavaSourceChanged(projectURIs, order);
      } else {
        uris := ClasspathChanged(projectURIs, order);
      }
    }

    /** classpathChanged: every matching entry is evicted. */
    method ClasspathChanged(projectURIs: set<string>, order: seq<string>) returns (uris: seq<string>)
      requires IterationOrder(order, cache)
      modifies this
      ensures uris == MatchingURIs(old(cache), order, projectURIs)
      ensures cache == map u | u in old(cache) && !Matches(old(cache)[u], projectURIs) :: old(cache)[u]
    {
      uris := GetPropertiesFileURIs(projectURIs, order);
      ghost var before := cache;
      for i := 0 to |uris|
        invariant cache == map u | u in before && u !in uris[..i] :: before[u]
      {
        assert forall u :: u in uris[..i + 1] <==> u in uris[..i] || u == uris[i];
        cache := cache - {uris[i]};
      }
      assert uris[..|uris|] == uris;
    }

    /** javaSourceChanged: every matching entry stays cached but forgets its
      * sources' part. */
    method JavaSourceChanged(projectURIs: set<string>, order: seq<string>) returns (uris: seq<string>)
      requires IterationOrder(order, cache)
      modifies AllInfos(cache)
      ensures uris == MatchingURIs(cache, order, projectURIs)
      ensures forall w :: w in InfosOf(cache, uris) ==> w.sourceProperties == [] && w.sourceHints == [] && w.reloadFromSource
      ensures forall w :: w in AllInfos(cache) && w !in InfosOf(cache, uris) ==> unchanged(w)
    {
      uris := GetPropertiesFileURIs(projectURIs, order);
      for i := 0 to |uris|
        invariant forall w :: w in InfosOf(cache, uris[..i]) ==> w.sourceProperties == [] && w.sourceHints == [] && w.reloadFromSource
        invariant forall w :: w in AllInfos(cache) && w !in InfosOf(cache, uris[..i]) ==> unchanged(w)
      {
        assert forall u :: u in uris[..i + 1] <==> u in uris[..i] || u == uris[i];
        var info := Wrapper(cache[uris[i]]);
        if info.Some? {
          info.value.ClearPropertiesFromSource();
        }
      }
      assert uris[..|uris|] == uris;
    }
  }

  /** An entry whose future is missing, cancelled or failed is fetched
    * afresh, and a second lookup then finds the pending fetch. */
  method RepeatedLookup(c: ProjectInfoCache, uri: string) returns (first: Answer, second: Answer)
    requires uri !in c.cache || Unusable(c.cache[uri])
    modifies c
    ensures first == Fetched(SourcesAndDependencies) && second == Cached(Pending)
  {
    first := c.GetProjectInfoFromCache(uri);
    second := c.GetProjectInfoFromCache(uri);
  }
}
