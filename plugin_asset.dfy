/**
 * The asset that bundles a build plugin (a transport or a minifier): a
 * generated header as its body, and a context that requires every
 * requirable file under the plugin package's pipeline lib directories,
 * in sorted order, followed by the plugin module itself.
 */
module PluginAssets {
  import opened Wrappers
  import opened Strings

  /** The parts of an installed package the plugin asset reads. */
  datatype Package = Package(
    name: string,
    rootPath: string,
    directories: map<string, string>,   // role -> directory name, relative to rootPath
    pipelineLibs: seq<string>)          // the roles whose files are loaded, in order

  /**
   * What the asset gets from its surroundings. `rootPath` is the project's
   * root directory; `packageFromName` is the
   * project's package lookup, applied to whatever name the logical path
   * yields (Ruby's nil included); `listing` maps a search path to the files
   * the recursive glob under it finds, in whatever order the file system
   * gives them; `requirable` is the context's `asset_requirable?`;
   * `dirname` is `File.dirname`; `moduleAsset` maps the logical path to the
   * resolved path of the plugin module's own file.
   */
  datatype Environment = Environment(
    rootPath: string,
    packageFromName: Option<string> -> Package,
    listing: map<string, seq<string>>,
    requirable: string -> bool,
    dirname: string -> string,
    moduleAsset: string -> string)

  // ---------------------------------------------------------------------
  // The plugin's package and module id
  // ---------------------------------------------------------------------

  /**
   * `plugin_module`: the first `/`-field of the logical path names the
   * package, the remaining fields joined with `/` are the module id. A path
   * with no fields at all ("" or only slashes) gives Ruby's nil and "".
   */
  function PluginModule(logicalPath: string): (r: (Option<string>, string))
    ensures r.0.Some? ==> '/' !in r.0.value
    ensures r.0.None? ==> r.1 == ""
  {
    var parts := Split(logicalPath, '/');
    if |parts| == 0 then (None, "") else (Some(parts[0]), Join(parts[1..], "/"))
  }

  /**
   * A logical path with a `/` in it and none at its end comes apart into a
   * package name free of `/` and a module id that join back into the path.
   */
  lemma PluginModuleRoundTrip(logicalPath: string)
    requires '/' in logicalPath && logicalPath[|logicalPath| - 1] != '/'
    ensures var (pkgName, moduleId) := PluginModule(logicalPath);
      pkgName.Some? && '/' !in pkgName.value && pkgName.value + "/" + moduleId == logicalPath
  {
    SplitKeepsAllFields(logicalPath, '/');
    FieldsOfSeparated(logicalPath, '/');
    FieldsFreeOfSeparator(logicalPath, '/');
    JoinFields(logicalPath, '/');
  }

  /**
   * The package name is present exactly when the path has a character other
   * than `/`, and then it is the part of the path before its first `/`.
   */
  lemma PluginModulePackageName(logicalPath: string)
    ensures var pkgName := PluginModule(logicalPath).0;
      (pkgName.None? <==> forall k :: 0 <= k < |logicalPath| ==> logicalPath[k] == '/')
      && (pkgName.Some? ==>
            var n := pkgName.value;
            |n| <= |logicalPath| && logicalPath[..|n|] == n && '/' !in n
            && (|n| == |logicalPath| || logicalPath[|n|] == '/'))
  {
    SplitEmpty(logicalPath, '/');
    FirstField(logicalPath, '/');
  }

  // ---------------------------------------------------------------------
  // What the plugin asset loads
  // ---------------------------------------------------------------------

  /** The generated body of the plugin asset. */
  function Header(logicalPath: string): string
  {
    "// BPM PLUGIN: " + logicalPath + "\n\n"
  }

  /** The characters of `s` up to its first `/`, or all of `s` if it has none. */
  function FirstSegment(s: string): string
  {
    if s == [] || s[0] == '/' then [] else [s[0]] + FirstSegment(s[1..])
  }

  /** The first field `split` gives is the first segment. */
  lemma {:induction false} FirstFieldIsFirstSegment(s: string)
    ensures Fields(s, '/')[0] == FirstSegment(s)
  {
    if s != [] && s[0] != '/' {
      FirstFieldIsFirstSegment(s[1..]);
    }
  }

  /**
   * The package the plugin module belongs to: the project's lookup of the
   * logical path's first segment, or of nil when the path is empty or all
   * slashes.
   */
  function PluginPackage(env: Environment, logicalPath: string): (pkg: Package)
    ensures pkg == env.packageFromName(
      if forall k :: 0 <= k < |logicalPath| ==> logicalPath[k] == '/' then None
      else Some(FirstSegment(logicalPath)))
  {
    SplitEmpty(logicalPath, '/');
    FirstFieldIsFirstSegment(logicalPath);
    env.packageFromName(PluginModule(logicalPath).0)
  }

  /** `pkg.directories[dir] || dir`. */
  function LibDir(pkg: Package, role: string): string
  {
    if role in pkg.directories then pkg.directories[role] else role
  }

  /** `File.join(pkg.root_path, dir_name)`. */
  function SearchPath(pkg: Package, dirName: string): string
  {
    pkg.rootPath + "/" + dirName
  }

  /** The glob's result for a search path; a path it finds nothing under gives []. */
  function Listed(env: Environment, searchPath: string): seq<string>
  {
    if searchPath in env.listing then env.listing[searchPath] else []
  }

  /** The files of one lib role, sorted. */
  function DirFiles(env: Environment, pkg: Package, role: string): seq<string>
  {
    Sort(Listed(env, SearchPath(pkg, LibDir(pkg, role))))
  }

  /** The files of the given roles, role after role. */
  function RoleFiles(env: Environment, pkg: Package, roles: seq<string>): seq<string>
  {
    if roles == [] then []
    else RoleFiles(env, pkg, roles[..|roles| - 1]) + DirFiles(env, pkg, roles[|roles| - 1])
  }

  /** The files of every package's pipeline libs, package after package. */
  function LibFiles(env: Environment, pkgs: seq<Package>): seq<string>
  {
    if pkgs == [] then []
    else LibFiles(env, pkgs[..|pkgs| - 1]) + RoleFiles(env, pkgs[|pkgs| - 1], pkgs[|pkgs| - 1].pipelineLibs)
  }

  /** The files that are required, in the order they are visited. */
  function RequiredOf(files: seq<string>, requirable: string -> bool): seq<string>
  {
    if files == [] then []
    else RequiredOf(files[..|files| - 1], requirable)
         + (if requirable(files[|files| - 1]) then [files[|files| - 1]] else [])
  }

  /** The dependency recorded for each visited file. */
  function Dirnames(files: seq<string>, dirname: string -> string): seq<string>
  {
    if files == [] then [] else Dirnames(files[..|files| - 1], dirname) + [dirname(files[|files| - 1])]
  }

  lemma {:induction false} RequiredOfAppend(a: seq<string>, b: seq<string>, requirable: string -> bool)
    ensures RequiredOf(a + b, requirable) == RequiredOf(a, requirable) + RequiredOf(b, requirable)
  {
    if b != [] {
      assert (a + b)[..|a + b| - 1] == a + b[..|b| - 1];
      RequiredOfAppend(a, b[..|b| - 1], requirable);
    } else {
      assert a + b == a;
    }
  }

  lemma {:induction false} DirnamesAppend(a: seq<string>, b: seq<string>, dirname: string -> string)
    ensures Dirnames(a + b, dirname) == Dirnames(a, dirname) + Dirnames(b, dirname)
  {
    if b != [] {
      assert (a + b)[..|a + b| - 1] == a + b[..|b| - 1];
      DirnamesAppend(a, b[..|b| - 1], dirname);
    } else {
      assert a + b == a;
    }
  }

  /** Only requirable files are required, and every requirable file is. */
  lemma {:induction false} RequiredMembership(files: seq<string>, requirable: string -> bool, x: string)
    ensures x in RequiredOf(files, requirable) <==> x in files && requirable(x)
  {
    if files != [] {
      RequiredMembership(files[..|files| - 1], requirable, x);
      assert files == files[..|files| - 1] + [files[|files| - 1]];
    }
  }

  /** Requiring keeps the visiting order: the required files of a sorted listing are sorted. */
  lemma {:induction false} RequiredKeepsOrder(files: seq<string>, requirable: string -> bool)
    requires Sorted(files)
    ensures Sorted(RequiredOf(files, requirable))
  {
    if files != [] {
      var init := files[..|files| - 1];
      assert Sorted(init);
      RequiredKeepsOrder(init, requirable);
      var r := RequiredOf(files, requirable);
      var ri := RequiredOf(init, requirable);
      forall i, j | 0 <= i < j < |r| ensures LexLe(r[i], r[j]) {
        if j >= |ri| {
          assert r[i] in ri by { RequiredMembership(init, requirable, r[i]); }
          RequiredMembership(init, requirable, r[i]);
          var m :| 0 <= m < |init| && init[m] == r[i];
          assert r[j] == files[|files| - 1];
        }
      }
    }
  }

  /** Every visited file, requirable or not, records its directory, one per file and in order. */
  lemma {:induction false} DirnamesOneEach(files: seq<string>, dirname: string -> string)
    ensures |Dirnames(files, dirname)| == |files|
    ensures forall i :: 0 <= i < |files| ==> Dirnames(files, dirname)[i] == dirname(files[i])
  {
    if files != [] {
      DirnamesOneEach(files[..|files| - 1], dirname);
    }
  }

  /** Roles are visited in the order `pipelineLibs` lists them. */
  lemma {:induction false} RoleFilesAppend(env: Environment, pkg: Package, r1: seq<string>, r2: seq<string>)
    ensures RoleFiles(env, pkg, r1 + r2) == RoleFiles(env, pkg, r1) + RoleFiles(env, pkg, r2)
  {
    if r2 != [] {
      assert (r1 + r2)[..|r1 + r2| - 1] == r1 + r2[..|r2| - 1];
      RoleFilesAppend(env, pkg, r1, r2[..|r2| - 1]);
    } else {
      assert r1 + r2 == r1;
    }
  }

  /**
   * A file is visited exactly when the glob lists it under the directory
   * some pipeline role resolves to: `directories[role]` if the package maps
   * the role, the role's own name if not.
   */
  lemma {:induction false} RoleFilesMembership(env: Environment, pkg: Package, roles: seq<string>, x: string)
    ensures x in RoleFiles(env, pkg, roles)
        <==> exists i :: 0 <= i < |roles| &&
               x in Listed(env, pkg.rootPath + "/"
                                + (if roles[i] in pkg.directories then pkg.directories[roles[i]] else roles[i]))
  {
    if roles != [] {
      var init := roles[..|roles| - 1];
      var last := roles[|roles| - 1];
      RoleFilesMembership(env, pkg, init, x);
      var listed := Listed(env, SearchPath(pkg, LibDir(pkg, last)));
      assert x in DirFiles(env, pkg, last) <==> x in listed by {
        SortPermutes(listed);
        assert x in multiset(DirFiles(env, pkg, last)) <==> x in multiset(listed);
      }
      assert forall i :: 0 <= i < |init| ==> init[i] == roles[i];
    }
  }

  /**
   * What the plugin asset requires before its own module: a file is there
   * exactly when it is requirable and the glob lists it under the directory
   * of one of the plugin package's pipeline roles.
   */
  lemma PluginRequiresExactly(env: Environment, pkg: Package, x: string)
    ensures x in RequiredOf(LibFiles(env, [pkg]), env.requirable)
        <==> env.requirable(x) &&
             exists i :: 0 <= i < |pkg.pipelineLibs| &&
               x in Listed(env, pkg.rootPath + "/"
                                + (if pkg.pipelineLibs[i] in pkg.directories
                                   then pkg.directories[pkg.pipelineLibs[i]] else pkg.pipelineLibs[i]))
  {
    assert LibFiles(env, [pkg]) == RoleFiles(env, pkg, pkg.pipelineLibs) by {
      assert [pkg][..0] == [];
    }
    RequiredMembership(LibFiles(env, [pkg]), env.requirable, x);
    RoleFilesMembership(env, pkg, pkg.pipelineLibs, x);
  }

  /** Each role's stretch of the visit is in ascending order. */
  lemma DirFilesSorted(env: Environment, pkg: Package, role: string)
    ensures Sorted(DirFiles(env, pkg, role))
    ensures Sorted(RequiredOf(DirFiles(env, pkg, role), env.requirable))
  {
    SortSorts(Listed(env, SearchPath(pkg, LibDir(pkg, role))));
    RequiredKeepsOrder(DirFiles(env, pkg, role), env.requirable);
  }

  /**
   * The visit does not depend on the order the glob returned files in:
   * listings that hold the same files give the same visit.
   */
  lemma {:induction false} VisitIgnoresListingOrder(e1: Environment, e2: Environment, pkg: Package, roles: seq<string>)
    requires e1.listing.Keys == e2.listing.Keys
    requires forall p :: p in e1.listing ==> multiset(e1.listing[p]) == multiset(e2.listing[p])
    ensures RoleFiles(e1, pkg, roles) == RoleFiles(e2, pkg, roles)
  {
    if roles != [] {
      VisitIgnoresListingOrder(e1, e2, pkg, roles[..|roles| - 1]);
      var p := SearchPath(pkg, LibDir(pkg, roles[|roles| - 1]));
      SortIgnoresOrder(Listed(e1, p), Listed(e2, p));
    }
  }

  // ---------------------------------------------------------------------
  // The dependency context and the asset
  // ---------------------------------------------------------------------

  /** The context the asset fills in: the paths it requires and the paths it depends on. */
  class Context {
    var requiredPaths: seq<string>
    var dependencyPaths: seq<string>

    /** `blank_context`. */
    constructor ()
      ensures requiredPaths == [] && dependencyPaths == []
    {
      requiredPaths := [];
      dependencyPaths := [];
    }

    method DependOn(path: string)
      modifies this
      ensures dependencyPaths == old(dependencyPaths) + [path]
      ensures requiredPaths == old(requiredPaths)
    {
      dependencyPaths := dependencyPaths + [path];
    }

    method RequireAsset(path: string)
      modifies this
      ensures requiredPaths == old(requiredPaths) + [path]
      ensures dependencyPaths == old(dependencyPaths)
    {
      requiredPaths := requiredPaths + [path];
    }
  }

  /**
   * The body of the walk over one sorted directory listing: each file adds
   * its directory to the dependencies, and is required if it is requirable.
   */
  method VisitFiles(context: Context, env: Environment, files: seq<string>)
    modifies context
    ensures context.requiredPaths == old(context.requiredPaths) + RequiredOf(files, env.requirable)
    ensures context.dependencyPaths == old(context.dependencyPaths) + Dirnames(files, env.dirname)
  {
    var k := 0;
    while k < |files|
      invariant 0 <= k <= |files|
      invariant context.requiredPaths == old(context.requiredPaths) + RequiredOf(files[..k], env.requirable)
      invariant context.dependencyPaths == old(context.dependencyPaths) + Dirnames(files[..k], env.dirname)
    {
      var fn := files[k];
      assert files[..k + 1][..k] == files[..k];
      context.DependOn(env.dirname(fn));
      if env.requirable(fn) {
        context.RequireAsset(fn);
      }
      k := k + 1;
    }
    assert files[..k] == files;
  }

  /**
   * Sequence concatenation is associative. Dafny knows this; the lemma only
   * hands the fact to `VisitPackage` as one small step, whose invariant
   * proof runs out of resource when the solver has to find it there.
   */
  lemma AppendAssociative(a: seq<string>, b: seq<string>, c: seq<string>)
    ensures (a + b) + c == a + (b + c)
  {
  }

  /** Visiting one more role appends that role's sorted files. */
  lemma VisitedRoleStep(env: Environment, p: Package, j: nat)
    requires j < |p.pipelineLibs|
    ensures RoleFiles(env, p, p.pipelineLibs[..j + 1])
         == RoleFiles(env, p, p.pipelineLibs[..j]) + DirFiles(env, p, p.pipelineLibs[j])
  {
    assert p.pipelineLibs[..j + 1][..j] == p.pipelineLibs[..j];
  }

  /** The walk over one package's pipeline libs, role after role. */
  method VisitPackage(context: Context, env: Environment, p: Package)
    modifies context
    ensures context.requiredPaths
         == old(context.requiredPaths) + RequiredOf(RoleFiles(env, p, p.pipelineLibs), env.requirable)
    ensures context.dependencyPaths
         == old(context.dependencyPaths) + Dirnames(RoleFiles(env, p, p.pipelineLibs), env.dirname)
  {
    ghost var visited: seq<string> := [];
    var j := 0;
    while j < |p.pipelineLibs|
      invariant 0 <= j <= |p.pipelineLibs|
      invariant visited == RoleFiles(env, p, p.pipelineLibs[..j])
      invariant context.requiredPaths == old(context.requiredPaths) + RequiredOf(visited, env.requirable)
      invariant context.dependencyPaths == old(context.dependencyPaths) + Dirnames(visited, env.dirname)
    {
      var dir := p.pipelineLibs[j];
      var files := DirFiles(env, p, dir);   // the sorted glob under the role's directory
      VisitFiles(context, env, files);
      VisitedRoleStep(env, p, j);
      RequiredOfAppend(visited, files, env.requirable);
      DirnamesAppend(visited, files, env.dirname);
      AppendAssociative(old(context.requiredPaths), RequiredOf(visited, env.requirable), RequiredOf(files, env.requirable));
      AppendAssociative(old(context.dependencyPaths), Dirnames(visited, env.dirname), Dirnames(files, env.dirname));
      visited := visited + files;
      j := j + 1;
    }
    assert p.pipelineLibs[..j] == p.pipelineLibs;
  }

  class PluginAsset {
    const env: Environment
    const logicalPath: string
    const pathname: string
    var memo: Option<(Context, string)>

    /** A memoised body is always the generated header. */
    ghost predicate Valid()
      reads this
    {
      memo.Some? ==> memo.value.1 == Header(logicalPath)
    }

    /** The plugin named `moduleName`, built into `<root>/.bpm/plugins/<moduleName>.js`. */
    constructor (environment: Environment, moduleName: string)
      ensures env == environment && logicalPath == moduleName
      ensures pathname == environment.rootPath + "/.bpm/plugins/" + moduleName + ".js"
      ensures memo == None && Valid()
    {
      env := environment;
      logicalPath := moduleName;
      pathname := environment.rootPath + "/" + ".bpm" + "/" + "plugins" + "/" + moduleName + ".js";
      memo := None;
    }

    /**
     * `dependency_context_and_body`: built on the first call, the same pair
     * on every later one.
     */
    method DependencyContextAndBody() returns (context: Context, body: string)
      requires Valid()
      modifies this`memo
      ensures Valid() && memo == Some((context, body)) && body == Header(logicalPath)
      ensures old(memo).Some? ==> (context, body) == old(memo).value
      ensures old(memo).None? ==> fresh(context)
      ensures old(memo).None? ==>
        var files := LibFiles(env, [PluginPackage(env, logicalPath)]);
        context.requiredPaths == RequiredOf(files, env.requirable) + [env.moduleAsset(logicalPath)]
        && context.dependencyPaths == Dirnames(files, env.dirname)
    {
      if memo.None? {
        context, body := BuildDependencyContextAndBody();
        memo := Some((context, body));
      } else {
        context, body := memo.value.0, memo.value.1;
      }
    }

    /**
     * `build_dependency_context_and_body`: the header, and a fresh context
     * that depends on the directory of every file under the plugin package's
     * pipeline libs and requires the requirable ones, then the module itself.
     */
    method BuildDependencyContextAndBody() returns (context: Context, body: string)
      ensures fresh(context)
      ensures body == Header(logicalPath)
      ensures var files := LibFiles(env, [PluginPackage(env, logicalPath)]);
        context.requiredPaths == RequiredOf(files, env.requirable) + [env.moduleAsset(logicalPath)]
        && context.dependencyPaths == Dirnames(files, env.dirname)
    {
      var (pkgName, moduleId) := PluginModule(logicalPath);
      var pkg := env.packageFromName(pkgName);
      body := "// BPM PLUGIN: " + logicalPath + "\n\n";
      var deps: seq<Package> := [];
      deps := deps + [pkg];
      context := new Context();

      var i := 0;
      while i < |deps|
        invariant 0 <= i <= |deps|
        invariant context.requiredPaths == RequiredOf(LibFiles(env, deps[..i]), env.requirable)
        invariant context.dependencyPaths == Dirnames(LibFiles(env, deps[..i]), env.dirname)
      {
        var p := deps[i];
        ghost var before := LibFiles(env, deps[..i]);
        VisitPackage(context, env, p);
        RequiredOfAppend(before, RoleFiles(env, p, p.pipelineLibs), env.requirable);
        DirnamesAppend(before, RoleFiles(env, p, p.pipelineLibs), env.dirname);
        assert deps[..i + 1][..i] == deps[..i];
        i := i + 1;
      }
      assert deps[..i] == [pkg];

      context.RequireAsset(env.moduleAsset(logicalPath));
    }
  }
}
