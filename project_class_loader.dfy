/** ProjectClassLoader: a parent-last class loader over the project's output
  * directories and jars. The file system, the jar loader and the parent
  * loader are oracles fixed for the loader's lifetime. */
module ClassLoaders {
  import opened Wrappers

  /** Where a loaded class came from. */
  datatype Origin = Directory(dir: string) | JarFile | ParentLoader

  /** A class object: its name and where it was defined. */
  datatype ClassSym = ClassSym(name: string, origin: Origin)

  /** A resource URL: a file under an output directory, or one the jar or
    * parent loader hands back. */
  datatype Url = FileUrl(dir: string, path: string) | External(text: string)

  /** What the loader sees of the world: which classpath entries are
    * directories, which ones have no valid URL, which files exist or cannot
    * be read under a directory, and what the jar and parent loaders find. */
  datatype Environment = Environment(
    isDirectory: string -> bool,
    malformed: string -> bool,
    fileExists: (string, string) -> bool,
    unreadable: (string, string) -> bool,
    jarClass: string -> Option<ClassSym>,
    jarResource: string -> Option<Url>,
    jarResources: string -> seq<Url>,
    parentClass: string -> Option<ClassSym>,
    parentResources: string -> seq<Url>)

  /** What loadClass and findClass end with: a class, or the exception they
    * throw: ClassNotFoundException, the RuntimeException around a failed
    * read, or the LinkageError of a second definition of the same name. */
  datatype LoadResult =
    | Loaded(cls: ClassSym)
    | ClassNotFound(name: string)
    | ReadFailure(dir: string, path: string)
    | DuplicateDefinition(name: string)

  /** The classpath entries that are directories, in iteration order. */
  function Directories(entries: seq<string>, env: Environment): (ds: seq<string>)
    ensures |ds| <= |entries|
  {
    if entries == [] then []
    else
      var rest := Directories(entries[..|entries| - 1], env);
      var e := entries[|entries| - 1];
      if env.isDirectory(e) then rest + [e] else rest
  }

  /** The other entries, treated as jars; one whose URL is malformed is
    * dropped. */
  function Jars(entries: seq<string>, env: Environment): (js: seq<string>)
    ensures |js| <= |entries|
  {
    if entries == [] then []
    else
      var rest := Jars(entries[..|entries| - 1], env);
      var e := entries[|entries| - 1];
      if !env.isDirectory(e) && !env.malformed(e) then rest + [e] else rest
  }

  /** Every entry lands in exactly one place: the directories, the jars, or
    * nowhere when it is not a directory and has no valid URL. */
  lemma {:induction false} Partition(entries: seq<string>, env: Environment)
    ensures forall e :: e in Directories(entries, env) <==> e in entries && env.isDirectory(e)
    ensures forall e :: e in Jars(entries, env) <==> e in entries && !env.isDirectory(e) && !env.malformed(e)
    ensures |Directories(entries, env)| + |Jars(entries, env)| <= |entries|
  {
    if entries != [] {
      var init := entries[..|entries| - 1];
      Partition(init, env);
      assert entries == init + [entries[|entries| - 1]];
    }
  }

  /** name.replace('.', '/'). */
  function Slashed(name: string): (r: string)
    ensures |r| == |name|
    ensures forall i :: 0 <= i < |name| ==> r[i] == if name[i] == '.' then '/' else name[i]
  {
    if name == [] then []
    else Slashed(name[..|name| - 1]) + [if name[|name| - 1] == '.' then '/' else name[|name| - 1]]
  }

  /** The class file's path relative to an output directory. */
  function ClassFile(name: string): string {
    Slashed(name) + ".class"
  }

  /** The index of the first directory holding the file. */
  function FirstDir(dirs: seq<string>, path: string, env: Environment): (r: Option<nat>)
    ensures r.Some? ==> r.value < |dirs| && env.fileExists(dirs[r.value], path)
    ensures r.Some? ==> forall j :: 0 <= j < r.value ==> !env.fileExists(dirs[j], path)
    ensures r.None? ==> forall j :: 0 <= j < |dirs| ==> !env.fileExists(dirs[j], path)
  {
    if dirs == [] then None
    else if env.fileExists(dirs[0], path) then Some(0)
    else
      match FirstDir(dirs[1..], path, env)
      case None => None
      case Some(i) => Some(i + 1)
  }

  /** The file URLs of every directory holding the resource, in order. */
  function DirHits(dirs: seq<string>, path: string, env: Environment): (us: seq<Url>)
    ensures |us| <= |dirs|
  {
    if dirs == [] then []
    else
      var rest := DirHits(dirs[..|dirs| - 1], path, env);
      var d := dirs[|dirs| - 1];
      if env.fileExists(d, path) then rest + [FileUrl(d, path)] else rest
  }

  /** A directory hit names a directory holding the file, and every such
    * directory is hit. */
  lemma {:induction false} DirHitsMembers(dirs: seq<string>, path: string, env: Environment)
    ensures forall u :: u in DirHits(dirs, path, env) <==>
      u.FileUrl? && u.path == path && u.dir in dirs && env.fileExists(u.dir, path)
  {
    if dirs != [] {
      var init := dirs[..|dirs| - 1];
      DirHitsMembers(init, path, env);
      assert dirs == init + [dirs[|dirs| - 1]];
    }
  }

  /** The loader's state: the jar and directory lists fixed at construction,
    * projectClassCache, and the classes this loader has defined, which the
    * JVM remembers even when the cache is cleared. */
  class ProjectClassLoader {
    const env: Environment
    const directories: seq<string>
    const jars: seq<string>
    var cache: map<string, ClassSym>
    var defined: map<string, ClassSym>

    /** Each cached class carries its key as name; a class taken from a
      * directory was defined by this loader under that name; defined classes
      * come from directories. */
    ghost predicate Valid()
      reads this
    {
      (forall n :: n in cache ==> cache[n].name == n) &&
      (forall n :: n in cache && cache[n].origin.Directory? ==> n in defined && defined[n] == cache[n]) &&
      (forall n :: n in defined ==> defined[n].name == n && defined[n].origin.Directory?)
    }

    /** The constructor: one pass over the classpath, sorting directories
      * from jars. */
    constructor (classpath: seq<string>, env: Environment)
      ensures this.env == env
      ensures directories == Directories(classpath, env) && jars == Jars(classpath, env)
      ensures cache == map[] && defined == map[]
      ensures Valid()
    {
      var dirPaths := [];
      var jarUrls := [];
      for i := 0 to |classpath|
        invariant dirPaths == Directories(classpath[..i], env)
        invariant jarUrls == Jars(classpath[..i], env)
      {
        assert classpath[..i + 1][..i] == classpath[..i];
        var entry := classpath[i];
        if env.isDirectory(entry) {
          dirPaths := dirPaths + [entry];
        } else if !env.malformed(entry) {
          jarUrls := jarUrls + [entry];
        }
      }
      assert classpath[..|classpath|] == classpath;
      this.env := env;
      directories := dirPaths;
      jars := jarUrls;
      cache := map[];
      defined := map[];
    }

    /** What findClass does on a given state: the cached class; else the
      * class defined from the first directory holding its file, or the
      * exception reading or defining it throws; else ClassNotFoundException. */
    function FindOutcome(name: string, cache: map<string, ClassSym>, defined: map<string, ClassSym>): LoadResult {
      if name in cache then Loaded(cache[name])
      else
        match FirstDir(directories, ClassFile(name), env)
        case None => ClassNotFound(name)
        case Some(i) =>
          if env.unreadable(directories[i], ClassFile(name)) then ReadFailure(directories[i], ClassFile(name))
          else if name in defined then DuplicateDefinition(name)
          else Loaded(ClassSym(name, Directory(directories[i])))
    }

    /** findClass: the cache, then the directories in order; a class defined
      * here is cached and remembered as defined. */
    method FindClass(name: string) returns (r: LoadResult)
      requires Valid()
      modifies this
      ensures Valid()
      ensures r == FindOutcome(name, old(cache), old(defined))
      ensures r.Loaded? && name !in old(cache) ==>
        cache == old(cache)[name := r.cls] && defined == old(defined)[name := r.cls]
      ensures !(r.Loaded? && name !in old(cache)) ==> cache == old(cache) && defined == old(defined)
    {
      if name in cache {
        return Loaded(cache[name]);
      }
      var relPath := ClassFile(name);
      var i := 0;
      while i < |directories|
        invariant 0 <= i <= |directories|
        invariant forall j :: 0 <= j < i ==> !env.fileExists(directories[j], relPath)
      {
        var dir := directories[i];
        if env.fileExists(dir, relPath) {
          assert FirstDir(directories, relPath, env) == Some(i) by {
            FirstDirAt(directories, relPath, env, i);
          }
          if env.unreadable(dir, relPath) {
            return ReadFailure(dir, relPath);
          }
          if name in defined {
            return DuplicateDefinition(name);
          }
          var cls := ClassSym(name, Directory(dir));
          defined := defined[name := cls];
          cache := cache[name := cls];
          return Loaded(cls);
        }
        i := i + 1;
      }
      return ClassNotFound(name);
    }

    /** loadClass: the cache, then findClass, then the jars (caching the
      * hit), then ClassLoader.loadClass: a class defined here, the parent,
      * and findClass once more. */
    function LoadOutcome(name: string, cache: map<string, ClassSym>, defined: map<string, ClassSym>): LoadResult {
      if name in cache then Loaded(cache[name])
      else
        var found := FindOutcome(name, cache, defined);
        if !found.ClassNotFound? then found
        else if env.jarClass(name).Some? then Loaded(env.jarClass(name).value)
        else if name in defined then Loaded(defined[name])
        else if env.parentClass(name).Some? then Loaded(env.parentClass(name).value)
        else ClassNotFound(name)
    }

    /** The cache after loadClass: a class found in a directory or a jar is
      * added; nothing else changes it. */
    function CacheAfterLoad(name: string, cache: map<string, ClassSym>, defined: map<string, ClassSym>): map<string, ClassSym> {
      if name in cache then cache
      else
        var found := FindOutcome(name, cache, defined);
        if found.Loaded? then cache[name := found.cls]
        else if found.ClassNotFound? && env.jarClass(name).Some? then cache[name := env.jarClass(name).value]
        else cache
    }

    /** The defined classes after loadClass: only a directory definition adds
      * one. */
    function DefinedAfterLoad(name: string, cache: map<string, ClassSym>, defined: map<string, ClassSym>): map<string, ClassSym> {
      if name !in cache && FindOutcome(name, cache, defined).Loaded? then defined[name := FindOutcome(name, cache, defined).cls]
      else defined
    }

    method LoadClass(name: string) returns (r: LoadResult)
      requires Valid()
      requires forall n :: env.jarClass(n).Some? ==> env.jarClass(n).value == ClassSym(n, JarFile)
      modifies this
      ensures Valid()
      ensures r == LoadOutcome(name, old(cache), old(defined))
      ensures cache == CacheAfterLoad(name, old(cache), old(defined))
      ensures defined == DefinedAfterLoad(name, old(cache), old(defined))
    {
      if name in cache {
        return Loaded(cache[name]);
      }
      r := FindClass(name);
      if !r.ClassNotFound? {
        return;
      }
      var jarHit := env.jarClass(name);
      if jarHit.Some? {
        cache := cache[name := jarHit.value];
        return Loaded(jarHit.value);
      }
      if name in defined {
        return Loaded(defined[name]);
      }
      var parentHit := env.parentClass(name);
      if parentHit.Some? {
        return Loaded(parentHit.value);
      }
      r := FindClass(name);
    }

    /** findResource: the first directory holding the file, else the jars'
      * answer; the parent is never asked. */
    method FindResource(name: string) returns (u: Option<Url>)
      ensures FirstDir(directories, name, env).Some? ==>
        u == Some(FileUrl(directories[FirstDir(directories, name, env).value], name))
      ensures FirstDir(directories, name, env).None? ==> u == env.jarResource(name)
    {
      for i := 0 to |directories|
        invariant forall j :: 0 <= j < i ==> !env.fileExists(directories[j], name)
      {
        if env.fileExists(directories[i], name) {
          FirstDirAt(directories, name, env, i);
          return Some(FileUrl(directories[i], name));
        }
      }
      u := env.jarResource(name);
    }

    /** findResources: every directory hit, then every jar hit, then every
      * parent hit. */
    method FindResources(name: string) returns (us: seq<Url>)
      ensures us == DirHits(directories, name, env) + env.jarResources(name) + env.parentResources(name)
    {
      us := [];
      for i := 0 to |directories|
        invariant us == DirHits(directories[..i], name, env)
      {
        assert directories[..i + 1][..i] == directories[..i];
        if env.fileExists(directories[i], name) {
          us := us + [FileUrl(directories[i], name)];
        }
      }
      assert directories[..|directories|] == directories;
      var jarHits := env.jarResources(name);
      for k := 0 to |jarHits|
        invariant us == DirHits(directories, name, env) + jarHits[..k]
      {
        us := us + [jarHits[k]];
        assert jarHits[..k + 1] == jarHits[..k] + [jarHits[k]];
      }
      assert jarHits[..|jarHits|] == jarHits;
      var parentHits := env.parentResources(name);
      for k := 0 to |parentHits|
        invariant us == DirHits(directories, name, env) + jarHits + parentHits[..k]
      {
        us := us + [parentHits[k]];
        assert parentHits[..k + 1] == parentHits[..k] + [parentHits[k]];
      }
      assert parentHits[..|parentHits|] == parentHits;
    }

    /** Loading a name twice gives the same answer, and the second call
      * leaves the state as the first one left it. */
    lemma LoadIdempotent(name: string, cache: map<string, ClassSym>, defined: map<string, ClassSym>)
      ensures var cache' := CacheAfterLoad(name, cache, defined);
        var defined' := DefinedAfterLoad(name, cache, defined);
        LoadOutcome(name, cache', defined') == LoadOutcome(name, cache, defined) &&
        CacheAfterLoad(name, cache', defined') == cache' &&
        DefinedAfterLoad(name, cache', defined') == defined'
    {
    }

    /** Parent last: the parent's class is returned only when no directory
      * holds the class file and the jars do not have it. */
    lemma ParentLast(name: string, cache: map<string, ClassSym>, defined: map<string, ClassSym>)
      requires name !in cache && name !in defined
      requires LoadOutcome(name, cache, defined) == Loaded(ClassSym(name, ParentLoader))
      requires forall n :: env.jarClass(n).Some? ==> env.jarClass(n).value.origin.JarFile?
      ensures FirstDir(directories, ClassFile(name), env).None?
      ensures env.jarClass(name).None?
      ensures env.parentClass(name) == Some(ClassSym(name, ParentLoader))
    {
    }

    /** Once a class has been defined from a directory, clearing the cache
      * does not allow it to be defined again: the next load of that name
      * ends in the JVM's duplicate-definition error. */
    lemma ReloadAfterClear(name: string, defined: map<string, ClassSym>)
      requires name in defined
      requires FirstDir(directories, ClassFile(name), env).Some?
      requires !env.unreadable(directories[FirstDir(directories, ClassFile(name), env).value], ClassFile(name))
      ensures LoadOutcome(name, map[], defined) == DuplicateDefinition(name)
    {
    }

    /** clearProjectClassCache: the cache only; the classes defined here stay
      * defined. */
    method ClearProjectClassCache()
      requires Valid()
      modifies this
      ensures Valid()
      ensures cache == map[] && defined == old(defined)
    {
      cache := map[];
    }
  }

  /** The first directory holding the file is the one a forward scan stops
    * at. */
  lemma {:induction false} FirstDirAt(dirs: seq<string>, path: string, env: Environment, i: nat)
    requires i < |dirs| && env.fileExists(dirs[i], path)
    requires forall j :: 0 <= j < i ==> !env.fileExists(dirs[j], path)
    ensures FirstDir(dirs, path, env) == Some(i)
  {
    if i > 0 {
      FirstDirAt(dirs[1..], path, env, i - 1);
    }
  }

  /** findResource's directory answer is the first of findResources'
    * directory hits, and there is one exactly when some directory holds the
    * file. */
  lemma {:induction false} FirstHit(dirs: seq<string>, path: string, env: Environment)
    ensures FirstDir(dirs, path, env).Some? <==> |DirHits(dirs, path, env)| > 0
    ensures FirstDir(dirs, path, env).Some? ==>
      DirHits(dirs, path, env)[0] == FileUrl(dirs[FirstDir(dirs, path, env).value], path)
  {
    if dirs != [] {
      var init := dirs[..|dirs| - 1];
      var last := |dirs| - 1;
      FirstHit(init, path, env);
      match FirstDir(init, path, env)
      case Some(i) =>
        FirstDirAt(dirs, path, env, i);
      case None =>
        if env.fileExists(dirs[last], path) {
          FirstDirAt(dirs, path, env, last);
        } else {
          assert forall j :: 0 <= j < |dirs| ==> !env.fileExists(dirs[j], path) by {
            forall j | 0 <= j < |dirs| ensures !env.fileExists(dirs[j], path) {
              if j < last {
                assert dirs[j] == init[j];
              }
            }
          }
          FirstDirNone(dirs, path, env);
        }
    }
  }

  lemma {:induction false} FirstDirNone(dirs: seq<string>, path: string, env: Environment)
    requires forall j :: 0 <= j < |dirs| ==> !env.fileExists(dirs[j], path)
    ensures FirstDir(dirs, path, env).None?
  {
    if dirs != [] {
      FirstDirNone(dirs[1..], path, env);
    }
  }

  /** A classpath with one output directory holding class "a.B": the first
    * load defines it, a second load is served from the cache, and after the
    * cache is cleared the next load fails with the duplicate definition. */
  method ReloadScenario(env: Environment) returns (first: LoadResult, again: LoadResult, afterClear: LoadResult)
    requires env.isDirectory("out")
    requires env.fileExists("out", "a/B.class") && !env.unreadable("out", "a/B.class")
    requires forall n :: env.jarClass(n).Some? ==> env.jarClass(n).value == ClassSym(n, JarFile)
    ensures first == Loaded(ClassSym("a.B", Directory("out")))
    ensures again == first
    ensures afterClear == DuplicateDefinition("a.B")
  {
    var loader := new ProjectClassLoader(["out"], env);
    assert loader.directories == ["out"];
    assert ClassFile("a.B") == "a/B.class";
    assert FirstDir(loader.directories, "a/B.class", env) == Some(0);
    first := loader.LoadClass("a.B");
    again := loader.LoadClass("a.B");
    loader.ClearProjectClassCache();
    afterClear := loader.LoadClass("a.B");
  }
}
