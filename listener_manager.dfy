// The JDT-side listener that turns Java element and resource changes into
// "microprofile/propertiesChanged" events and merges the events that arrive
// before the pending one is fired.

module PropertiesListeners {
  import opened Wrappers
  import opened PropertiesEvents
  import opened ProjectRuntimes
  import opened ClassLoaders

  // ---------------------------------------------------------------- scopes

  /** The width of a scope: SOURCES_AND_DEPENDENCIES > ONLY_SOURCES >
    * ONLY_CONFIG_FILES. */
  function Rank(s: Scope): nat {
    match s
    case OnlyConfigFiles => 0
    case OnlySources => 1
    case SourcesAndDependencies => 2
  }

  /** mergeEvents' scope rule: the target takes the wider of the two
    * scopes. */
  function MergeScope(target: Scope, source: Scope): (r: Scope)
    ensures Rank(r) == if Rank(target) < Rank(source) then Rank(source) else Rank(target)
    ensures r == target || r == source
  {
    if source == SourcesAndDependencies then SourcesAndDependencies
    else if source == OnlySources && target != SourcesAndDependencies then OnlySources
    else target
  }

  /** The scope rule case by case: a SOURCES_AND_DEPENDENCIES source always
    * wins, an ONLY_SOURCES source upgrades anything but
    * SOURCES_AND_DEPENDENCIES, and an ONLY_CONFIG_FILES source changes
    * nothing. */
  lemma MergeScopeCases(target: Scope, source: Scope)
    ensures source == SourcesAndDependencies ==> MergeScope(target, source) == SourcesAndDependencies
    ensures source == OnlySources ==>
      MergeScope(target, source) == if target == SourcesAndDependencies then target else OnlySources
    ensures source == OnlyConfigFiles ==> MergeScope(target, source) == target
  {
  }

  /** Merging scopes is a join: the order of the events does not matter. */
  lemma MergeScopeJoin(a: Scope, b: Scope, c: Scope)
    ensures MergeScope(a, b) == MergeScope(b, a)
    ensures MergeScope(MergeScope(a, b), c) == MergeScope(a, MergeScope(b, c))
    ensures MergeScope(a, a) == a
  {
  }

  /** The URIs of a possibly null set. */
  function UrisOf(uris: Option<set<string>>): set<string> {
    if uris.Some? then uris.value else {}
  }

  /** mergeEvents' URI rule: a null source set leaves the target as it is;
    * otherwise the target set, created when null, gains all of the
    * source's. */
  function MergeUris(target: Option<set<string>>, source: Option<set<string>>): (r: Option<set<string>>)
    ensures UrisOf(r) == UrisOf(target) + UrisOf(source)
    ensures r.None? <==> target.None? && source.None?
  {
    if source.None? then target else Some(UrisOf(target) + source.value)
  }

  /** mergeEvents on values. */
  function Merge(target: EventValue, source: EventValue): EventValue {
    EventValue(MergeScope(target.scope, source.scope), MergeUris(target.projectURIs, source.projectURIs))
  }

  /** mergeEvents: updates the target in place and leaves the source as it
    * is. */
  method MergeEvents(target: ChangeEvent, source: ChangeEvent)
    modifies target
    ensures target.Value() == Merge(old(target.Value()), old(source.Value()))
  {
    var sourceURIs := source.projectURIs;
    var sourceScope := source.scope;
    if sourceURIs.Some? {
      if target.projectURIs.None? {
        target.projectURIs := Some({});
      }
      target.projectURIs := Some(target.projectURIs.value + sourceURIs.value);
    }
    if sourceScope == SourcesAndDependencies {
      target.scope := SourcesAndDependencies;
    } else if sourceScope == OnlySources && target.scope != SourcesAndDependencies {
      target.scope := OnlySources;
    }
  }

  /** The pending event after the given events: the first as it came, each
    * later one merged into it. */
  function Accumulated(events: seq<EventValue>): EventValue
    requires |events| > 0
    decreases |events|
  {
    if |events| == 1 then events[0]
    else Merge(Accumulated(events[..|events| - 1]), events[|events| - 1])
  }

  /** The pending event has the widest scope among the events merged into
    * it, and exactly the union of their project URIs. */
  lemma {:induction false} AccumulatedSpec(events: seq<EventValue>)
    requires |events| > 0
    ensures forall k :: 0 <= k < |events| ==> Rank(events[k].scope) <= Rank(Accumulated(events).scope)
    ensures exists k :: 0 <= k < |events| && events[k].scope == Accumulated(events).scope
    ensures forall u :: u in UrisOf(Accumulated(events).projectURIs) <==>
      exists k :: 0 <= k < |events| && u in UrisOf(events[k].projectURIs)
    decreases |events|
  {
    if |events| > 1 {
      var init := events[..|events| - 1];
      var last := events[|events| - 1];
      AccumulatedSpec(init);
      var r := Accumulated(events);
      assert forall k :: 0 <= k < |init| ==> init[k] == events[k];
      if r.scope == last.scope {
        assert events[|events| - 1].scope == r.scope;
      } else {
        var j :| 0 <= j < |init| && init[j].scope == Accumulated(init).scope;
        assert events[j].scope == r.scope;
      }
      forall u | u in UrisOf(r.projectURIs)
        ensures exists k :: 0 <= k < |events| && u in UrisOf(events[k].projectURIs)
      {
        if u in UrisOf(last.projectURIs) {
          assert u in UrisOf(events[|events| - 1].projectURIs);
        } else {
          var j :| 0 <= j < |init| && u in UrisOf(init[j].projectURIs);
          assert u in UrisOf(events[j].projectURIs);
        }
      }
      forall u, k | 0 <= k < |events| && u in UrisOf(events[k].projectURIs)
        ensures u in UrisOf(r.projectURIs)
      {
        if k < |init| {
          assert u in UrisOf(init[k].projectURIs);
        }
      }
    } else {
      assert events[0].scope == Accumulated(events).scope;
    }
  }

  // ----------------------------------------------------------------- flags

  /** IJavaElementDelta's kinds and flags, as Eclipse JDT defines them. */
  const ElementAdded := 1
  const ElementRemoved := 2
  const FOpened: bv32 := 0x200
  const FClosed: bv32 := 0x400
  const FClasspathChanged: bv32 := 0x2_0000
  const FResolvedClasspathChanged: bv32 := 0x20_0000

  /** IResourceDelta's CHANGED kind and CONTENT flag, as Eclipse defines
    * them. */
  const ResourceChanged := 4
  const ContentFlag: bv32 := 0x100

  /** isClasspathChanged: the flags intersect the four classpath-related
    * bits. */
  predicate IsClasspathChanged(flags: bv32) {
    0 != flags & (FClasspathChanged | FResolvedClasspathChanged | FClosed | FOpened)
  }

  /** isClasspathChanged holds exactly when one of the four bits is set. */
  lemma ClasspathChangedIff(flags: bv32)
    ensures IsClasspathChanged(flags) <==>
      flags & FClasspathChanged != 0 || flags & FResolvedClasspathChanged != 0 ||
      flags & FClosed != 0 || flags & FOpened != 0
  {
  }

  /** No other flag counts as a classpath change. */
  lemma OtherFlagsIgnored(flags: bv32, other: bv32)
    requires other & (FClasspathChanged | FResolvedClasspathChanged | FClosed | FOpened) == 0
    ensures IsClasspathChanged(flags | other) <==> IsClasspathChanged(flags)
  {
  }

  /** isFileContentChanged: a CHANGED delta with the CONTENT flag. */
  predicate IsFileContentChanged(kind: int, flags: bv32) {
    kind == ResourceChanged && flags & ContentFlag != 0
  }

  // ------------------------------------------------------- element changes

  /** The elements a Java delta reports. */
  datatype ElementKind = JavaModel | JavaProject(projectURI: string) | OtherElement

  /** IJavaElementDelta: an element, its kind and flags, and its affected
    * children. */
  datatype JavaDelta = JavaDelta(element: ElementKind, kind: int, flags: bv32, children: seq<JavaDelta>)

  /** isCreatedOrDeleted. */
  predicate IsCreatedOrDeleted(delta: JavaDelta) {
    delta.kind == ElementAdded || delta.kind == ElementRemoved
  }

  /** processDelta: a Java model delta recurses into its children, a project
    * that was created, deleted or had its classpath changed adds its URI to
    * the event (created with scope SOURCES_AND_DEPENDENCIES when there is
    * none yet), anything else is ignored. */
  function ProcessDelta(delta: JavaDelta, event: Option<EventValue>): Option<EventValue>
    decreases delta, 1
  {
    match delta.element
    case JavaModel => ProcessChildren(delta, 0, event)
    case JavaProject(uri) =>
      if IsCreatedOrDeleted(delta) || IsClasspathChanged(delta.flags) then
        var e := if event.Some? then event.value else EventValue(SourcesAndDependencies, Some({}));
        Some(EventValue(e.scope, Some(UrisOf(e.projectURIs) + {uri})))
      else event
    case OtherElement => event
  }

  /** processDeltaChildren from the i-th affected child on. */
  function ProcessChildren(delta: JavaDelta, i: nat, event: Option<EventValue>): Option<EventValue>
    requires i <= |delta.children|
    decreases delta, 0, |delta.children| - i
  {
    if i == |delta.children| then event
    else ProcessChildren(delta, i + 1, ProcessDelta(delta.children[i], event))
  }

  /** The projects whose changes processDelta reports. */
  function ChangedProjects(delta: JavaDelta): set<string>
    decreases delta, 1
  {
    match delta.element
    case JavaModel => ChangedProjectsFrom(delta, 0)
    case JavaProject(uri) =>
      if IsCreatedOrDeleted(delta) || IsClasspathChanged(delta.flags) then {uri} else {}
    case OtherElement => {}
  }

  function ChangedProjectsFrom(delta: JavaDelta, i: nat): set<string>
    requires i <= |delta.children|
    decreases delta, 0, |delta.children| - i
  {
    if i == |delta.children| then {} else ChangedProjects(delta.children[i]) + ChangedProjectsFrom(delta, i + 1)
  }

  /** The event an element-change notification accumulates into. */
  predicate Accumulating(event: Option<EventValue>) {
    event.None? || (event.value.scope == SourcesAndDependencies && event.value.projectURIs.Some?)
  }

  /** Adds URIs to an accumulating event. */
  function WithProjects(event: Option<EventValue>, uris: set<string>): Option<EventValue> {
    if uris == {} then event
    else Some(EventValue(SourcesAndDependencies, Some((if event.Some? then UrisOf(event.value.projectURIs) else {}) + uris)))
  }

  lemma WithProjectsTwice(event: Option<EventValue>, a: set<string>, b: set<string>)
    ensures WithProjects(WithProjects(event, a), b) == WithProjects(event, a + b)
  {
    if a == {} {
      assert a + b == b;
    } else if b == {} {
      assert a + b == a;
    } else {
      assert a + b != {} by { var x :| x in a; assert x in a + b; }
      var base := if event.Some? then UrisOf(event.value.projectURIs) else {};
      assert UrisOf(WithProjects(event, a).value.projectURIs) == base + a;
      assert base + a + b == base + (a + b);
    }
  }

  /** processDelta adds exactly the changed projects' URIs, with scope
    * SOURCES_AND_DEPENDENCIES, and makes no event when no project
    * changed. */
  lemma {:induction false} ProcessDeltaSpec(delta: JavaDelta, event: Option<EventValue>)
    requires Accumulating(event)
    ensures ProcessDelta(delta, event) == WithProjects(event, ChangedProjects(delta))
    decreases delta, 1
  {
    if delta.element.JavaModel? {
      ProcessChildrenSpec(delta, 0, event);
    }
  }

  lemma {:induction false} ProcessChildrenSpec(delta: JavaDelta, i: nat, event: Option<EventValue>)
    requires i <= |delta.children| && Accumulating(event)
    ensures ProcessChildren(delta, i, event) == WithProjects(event, ChangedProjectsFrom(delta, i))
    decreases delta, 0, |delta.children| - i
  {
    if i < |delta.children| {
      var child := delta.children[i];
      ProcessDeltaSpec(child, event);
      var next := ProcessDelta(child, event);
      ProcessChildrenSpec(delta, i + 1, next);
      WithProjectsTwice(event, ChangedProjects(child), ChangedProjectsFrom(delta, i + 1));
    }
  }

  // ------------------------------------------------------ resource changes

  /** The resources a resource delta reports. */
  datatype ResourceKind = Root | ProjectResource | Folder | File

  /** A resource: its kind, whether it is accessible, its file extension,
    * whether the project manager knows it as a config source, and its
    * project's URI. */
  datatype Resource = Resource(kind: ResourceKind, accessible: bool, extension: Option<string>,
                               configSource: bool, projectURI: string)

  /** IResourceDelta: the resource (null is None), the kind and the flags. */
  datatype ResourceDelta = ResourceDelta(resource: Option<Resource>, kind: int, flags: bv32)

  /** isJavaFile: the extension is exactly "java". */
  predicate IsJavaFile(r: Resource) {
    r.extension == Some("java")
  }

  /** Whether visit descends into the delta's children. */
  predicate Descends(delta: ResourceDelta) {
    delta.resource.Some? && delta.resource.value.kind != File && delta.resource.value.accessible
  }

  /** The event visit fires for a delta, if any. */
  function VisitEvent(delta: ResourceDelta): Option<EventValue> {
    if delta.resource.None? || delta.resource.value.kind != File then None
    else
      var file := delta.resource.value;
      if IsJavaFile(file) && IsFileContentChanged(delta.kind, delta.flags) then
        Some(EventValue(OnlySources, Some({file.projectURI})))
      else if file.configSource && IsFileContentChanged(delta.kind, delta.flags) then
        Some(EventValue(OnlyConfigFiles, Some({file.projectURI})))
      else None
  }

  /** Only a content change to a file makes an event: a saved Java file one
    * with scope ONLY_SOURCES, a saved config source one with scope
    * ONLY_CONFIG_FILES, each naming the file's project alone. */
  lemma VisitEventKinds(delta: ResourceDelta)
    ensures VisitEvent(delta).Some? <==>
      delta.resource.Some? && delta.resource.value.kind == File && IsFileContentChanged(delta.kind, delta.flags) &&
      (IsJavaFile(delta.resource.value) || delta.resource.value.configSource)
    ensures VisitEvent(delta).Some? ==>
      VisitEvent(delta).value.projectURIs == Some({delta.resource.value.projectURI}) &&
      VisitEvent(delta).value.scope == if IsJavaFile(delta.resource.value) then OnlySources else OnlyConfigFiles
  {
  }

  /** Whether visit's delta is a saved Java file, the case in which the
    * runtime of the file's project drops its class cache. */
  predicate SavedJavaFile(delta: ResourceDelta) {
    delta.resource.Some? && delta.resource.value.kind == File &&
    IsJavaFile(delta.resource.value) && IsFileContentChanged(delta.kind, delta.flags)
  }

  /** The runtime's class cache is dropped exactly for the deltas whose event
    * has scope ONLY_SOURCES. */
  lemma SavedJavaFileIff(delta: ResourceDelta)
    ensures SavedJavaFile(delta) <==> VisitEvent(delta).Some? && VisitEvent(delta).value.scope == OnlySources
  {
  }

  // ------------------------------------------------------ runtime caches

  /** The runtimes the project manager holds for some of the given
    * projects. */
  function RuntimesOf(uris: set<string>, runtimes: map<string, MicroProfileProjectRuntime>): set<MicroProfileProjectRuntime> {
    set u | u in uris && u in runtimes :: runtimes[u]
  }

  /** The class loaders of some runtimes. */
  function LoadersOf(rs: set<MicroProfileProjectRuntime>): set<ProjectClassLoader>
    reads rs
  {
    set r | r in rs :: r.loader
  }

  /** What clearProjectClassCache leaves: no classpath and an empty loader
    * cache. */
  predicate ClassCacheCleared(r: MicroProfileProjectRuntime)
    reads r, r.loader
  {
    r.classpath == [] && r.loader.cache == map[]
  }

  /** Each runtime keeps its loader, which stays valid and keeps the classes
    * it defined, its type cache and its supports. */
  twostate predicate RuntimesKept(runtimes: map<string, MicroProfileProjectRuntime>)
    reads set u | u in runtimes :: runtimes[u]
    reads set u | u in runtimes :: runtimes[u].loader
  {
    forall u :: u in runtimes ==>
      runtimes[u].loader == old(runtimes[u].loader) && runtimes[u].loader.Valid() &&
      runtimes[u].loader.defined == old(runtimes[u].loader.defined) &&
      runtimes[u].classTypes == old(runtimes[u].classTypes) &&
      runtimes[u].safeSupports == old(runtimes[u].safeSupports) &&
      runtimes[u].fullSupports == old(runtimes[u].fullSupports)
  }

  /** clearProjectClassCache on the runtime of each given project that the
    * project manager has one for. */
  method ClearProjectClassCaches(uris: set<string>, runtimes: map<string, MicroProfileProjectRuntime>)
    requires forall u :: u in runtimes ==> runtimes[u].loader.Valid()
    modifies RuntimesOf(uris, runtimes), LoadersOf(RuntimesOf(uris, runtimes))
    ensures RuntimesKept(runtimes)
    ensures forall u :: u in uris && u in runtimes ==> ClassCacheCleared(runtimes[u])
  {
    var todo := uris;
    while todo != {}
      invariant todo <= uris
      invariant RuntimesKept(runtimes)
      invariant forall u :: u in uris - todo && u in runtimes ==> ClassCacheCleared(runtimes[u])
      decreases todo
    {
      var u :| u in todo;
      if u in runtimes {
        assert runtimes[u] in RuntimesOf(uris, runtimes);
        assert old(runtimes[u].loader) in LoadersOf(RuntimesOf(uris, runtimes));
        label before:
        ClearOne(runtimes[u], runtimes, uris - todo);
        assert RuntimesKept@before(runtimes);
      }
      todo := todo - {u};
    }
  }

  /** One clear, seen from every runtime: `r` is cleared, the runtimes that
    * were cleared stay cleared, and every runtime keeps the rest. */
  method ClearOne(r: MicroProfileProjectRuntime, runtimes: map<string, MicroProfileProjectRuntime>, done: set<string>)
    requires forall u :: u in runtimes ==> runtimes[u].loader.Valid()
    requires r.loader.Valid()
    requires forall u :: u in done && u in runtimes ==> ClassCacheCleared(runtimes[u])
    modifies r, r.loader
    ensures RuntimesKept(runtimes)
    ensures ClassCacheCleared(r)
    ensures forall u :: u in done && u in runtimes ==> ClassCacheCleared(runtimes[u])
  {
    r.ClearProjectClassCache();
  }

  // -------------------------------------------------------------- listener

  /** MicroProfileListener's pending-event state. */
  class MicroProfileListener {
    /** The event waiting to be fired, or null. */
    var pendingEvent: ChangeEvent?
    /** The events fired into the pending one since it was last taken. */
    ghost var since: seq<EventValue>

    ghost predicate Valid()
      reads this, pendingEvent
    {
      (pendingEvent == null <==> since == []) &&
      (pendingEvent != null ==> pendingEvent.Value() == Accumulated(since))
    }

    constructor ()
      ensures Valid() && pendingEvent == null && since == []
    {
      pendingEvent := null;
      since := [];
    }

    /** fireAsyncEvent: the first event becomes pending as it is; later ones
      * merge into the pending event. */
    method FireAsyncEvent(event: ChangeEvent)
      requires Valid() && event != pendingEvent
      modifies this, pendingEvent
      ensures Valid()
      ensures since == old(since) + [old(event.Value())]
      ensures pendingEvent == if old(pendingEvent) == null then event else old(pendingEvent)
    {
      var value := event.Value();
      if pendingEvent == null {
        pendingEvent := event;
      } else {
        MergeEvents(pendingEvent, event);
      }
      since := since + [value];
      assert since[..|since| - 1] == old(since);
    }

    /** The scheduled notification: takes the pending event and clears
      * it. */
    method TakePendingEvent() returns (eventToFire: ChangeEvent?)
      requires Valid()
      modifies this
      ensures eventToFire == old(pendingEvent) && pendingEvent == null && since == [] && Valid()
      ensures eventToFire != null ==> eventToFire.Value() == Accumulated(old(since))
    {
      eventToFire := pendingEvent;
      pendingEvent := null;
      since := [];
    }

    /** elementChanged: when someone listens, the runtime of every changed
      * project drops its class cache and the event the delta makes is fired.
      * `runtimes` holds the runtime the project manager has for each
      * project. */
    method ElementChanged(delta: JavaDelta, hasListeners: bool, runtimes: map<string, MicroProfileProjectRuntime>)
      requires Valid()
      requires forall u :: u in runtimes ==> runtimes[u].loader.Valid()
      modifies this, pendingEvent
      modifies if hasListeners then RuntimesOf(ChangedProjects(delta), runtimes) else {}
      modifies if hasListeners then LoadersOf(RuntimesOf(ChangedProjects(delta), runtimes)) else {}
      ensures Valid()
      ensures var e := ProcessDelta(delta, None);
        since == old(since) + (if hasListeners && e.Some? then [e.value] else [])
      ensures RuntimesKept(runtimes)
      ensures hasListeners ==> forall u :: u in ChangedProjects(delta) && u in runtimes ==> ClassCacheCleared(runtimes[u])
    {
      if !hasListeners {
        return;
      }
      ClearProjectClassCaches(ChangedProjects(delta), runtimes);
      var mpEvent := ProcessDelta(delta, None);
      if mpEvent.Some? {
        var event := new ChangeEvent(mpEvent.value.scope, mpEvent.value.projectURIs);
        FireAsyncEvent(event);
      }
    }

    /** visit: fires the event a saved file makes and says whether to
      * descend; for a saved Java file, the runtime of its project (null when
      * the project manager has none) first drops its class cache. */
    method Visit(delta: ResourceDelta, runtime: MicroProfileProjectRuntime?) returns (descend: bool)
      requires Valid()
      requires runtime != null ==> runtime.loader.Valid()
      modifies this, pendingEvent
      modifies if runtime != null && SavedJavaFile(delta) then {runtime, runtime.loader} else {}
      ensures descend == Descends(delta) && Valid()
      ensures since == old(since) + (if VisitEvent(delta).Some? then [VisitEvent(delta).value] else [])
      ensures runtime != null ==>
        runtime.loader == old(runtime.loader) && runtime.loader.Valid() &&
        runtime.loader.defined == old(runtime.loader.defined) &&
        runtime.classTypes == old(runtime.classTypes) &&
        runtime.safeSupports == old(runtime.safeSupports) && runtime.fullSupports == old(runtime.fullSupports)
      ensures runtime != null && SavedJavaFile(delta) ==> ClassCacheCleared(runtime)
    {
      if delta.resource.None? {
        return false;
      }
      var resource := delta.resource.value;
      if resource.kind != File {
        return resource.accessible;
      }
      if IsJavaFile(resource) && IsFileContentChanged(delta.kind, delta.flags) {
        var event := new ChangeEvent(OnlySources, Some({resource.projectURI}));
        if runtime != null {
          runtime.ClearProjectClassCache();
        }
        FireAsyncEvent(event);
      } else if resource.configSource && IsFileContentChanged(delta.kind, delta.flags) {
        var event := new ChangeEvent(OnlyConfigFiles, Some({resource.projectURI}));
        FireAsyncEvent(event);
      }
      return false;
    }
  }

  /** Saving a Java file leaves its project's runtime valid, with the classes
    * its loader defined still remembered: only the class cache is gone. */
  method SaveKeepsRuntime(listener: MicroProfileListener, delta: ResourceDelta, runtime: MicroProfileProjectRuntime)
    returns (descend: bool)
    requires listener.Valid() && runtime.Valid() && runtime.loader.Valid()
    requires SavedJavaFile(delta)
    modifies listener, listener.pendingEvent, runtime, runtime.loader
    ensures runtime.Valid() && runtime.loader.Valid() && ClassCacheCleared(runtime)
    ensures runtime.loader.defined == old(runtime.loader.defined)
    ensures !descend
  {
    descend := listener.Visit(delta, runtime);
  }
}
