# bpm build-plugin layer, modelled in Dafny

bpm is a package manager and asset builder for client-side script packages.
Its build pipeline can pass module sources through *plugins* that are
themselves bpm packages. This project models the two pieces of that plugin
layer that hold real logic:

* **The transport processor** (`Transport`, `transport.dfy`). It picks the
  transport plugin for a module's owning package. With no plugin the body
  passes through unchanged. With one plugin, that plugin's
  `compileTransport(DATA, PACKAGE_INFO, moduleId, filePath)` output is used,
  followed by a blank line. With several plugins evaluation fails and names
  the package and the count. The plugin runs in an embedded script engine,
  so it is the function parameter `compile`.
* **The plugin asset** (`PluginAssets`, `plugin_asset.dfy`). This is the
  bundle a plugin is loaded from. `PluginModule` splits the asset's logical
  path into a package name and a module id. `BuildDependencyContextAndBody`
  produces the generated header `// BPM PLUGIN: <path>` and fills a
  dependency `Context`. Each pipeline lib role is resolved to a directory.
  Files are visited in sorted order, role after role. The directory of
  every visited file becomes a dependency, and each requirable file is
  required. The plugin module itself is required last. The
  `PluginAsset` class memoises the pair in its `memo` field.
* **Ruby library behaviour** these rely on (`Strings`, `strings.dfy`):
  - `String#split("/")`, which drops trailing empty fields, so `"".split("/")` is `[]`;
  - `Array#join`;
  - `String#<=>` and `Array#sort` on strings;
  - `Integer#to_s`.

The package lookup, the plugin list, the glob, `asset_requirable?`,
`File.dirname` and the module's resolved path come from bpm's project and
package objects, from Sprockets or from the file system. They are inputs: the `Package` and `Environment`
datatypes and the `compile` parameter.

## Model

| member | source | states |
|---|---|---|
| `Transport.Evaluate` | lib/bpm/pipeline/transport_processor.rb:7-33 | evaluation fails exactly when the package has more than one transport plugin; the failure carries the package's name and the plugin count |
| `Transport.PassThrough` | lib/bpm/pipeline/transport_processor.rb:13-14 | with no transport plugin the result is the input data, unchanged |
| `Transport.SolePluginCompiles` | lib/bpm/pipeline/transport_processor.rb:22-32 | with exactly one plugin, the first plugin is run on the raw data, the package attributes, the module id and the file path; the body is its output followed by exactly `"\n\n"` |
| `Transport.SeveralPluginsRejected` | lib/bpm/pipeline/transport_processor.rb:16-20 | with more than one plugin: the result is the error naming the package and the count; the message starts with the package name, then " depends on ", then a numeral whose value is the count |
| `Transport.ErrorMessage` | lib/bpm/pipeline/transport_processor.rb:18-19 | the message is the package name, then " depends on ", then a numeral whose value is the count, then the fixed advice to pick a plugin with a `plugin:transport` property |
| `Transport.ErrorMessageDeterminesCount` | lib/bpm/pipeline/transport_processor.rb:18-19 | two error messages for the same package are equal only when their counts are equal |
| `Transport.NoPluginRunUnlessSole` | lib/bpm/pipeline/transport_processor.rb:14-22 | with zero plugins or with several, the outcome does not depend on what the plugin computes, so no plugin is consulted |
| `Transport.DecidedBySizeAndFirst` | lib/bpm/pipeline/transport_processor.rb:14-22 | the outcome depends only on the number of plugins and, of the plugins, only on the first |
| `Strings.DecimalRoundTrip` | lib/bpm/pipeline/transport_processor.rb:18 | reading the rendered count back as a decimal number gives the count |
| `Strings.DecimalInjective` | lib/bpm/pipeline/transport_processor.rb:18 | different counts render as different numerals |
| `Strings.Decimal` | lib/bpm/pipeline/transport_processor.rb:18 | the rendered count is a non-empty string of digits with no leading zero |
| `Strings.Fields` | lib/bpm/pipeline/plugin_asset.rb:26 | splitting on the separator gives at least one field |
| `Strings.DropTrailingEmpty` | lib/bpm/pipeline/plugin_asset.rb:26 | the result is a prefix of the fields; it does not end in an empty field; every field it drops is empty |
| `Strings.Split` | lib/bpm/pipeline/plugin_asset.rb:26 | no field contains the separator, and the last field, if any, is not empty |
| `Strings.Join` | lib/bpm/pipeline/plugin_asset.rb:27 | the result starts with the first part, followed by the separator when there is a second part |
| `Strings.JoinFields` | lib/bpm/pipeline/plugin_asset.rb:26-27 | joining the fields of a string with the separator gives back the string |
| `Strings.FieldsFreeOfSeparator` | lib/bpm/pipeline/plugin_asset.rb:26 | no field contains the separator |
| `Strings.FirstField` | lib/bpm/pipeline/plugin_asset.rb:26-27 | the first field is the part of the string before its first separator, or the whole string |
| `Strings.SplitEmpty` | lib/bpm/pipeline/plugin_asset.rb:26 | `split` returns no fields exactly when the string has no character other than the separator |
| `Strings.SplitKeepsAllFields` | lib/bpm/pipeline/plugin_asset.rb:26 | a string that does not end in the separator loses no field |
| `PluginAssets.PluginModuleRoundTrip` | lib/bpm/pipeline/plugin_asset.rb:24-28 | for a logical path containing `/` and not ending in `/`: the package name is present and has no `/`; name + "/" + module id is the logical path |
| `PluginAssets.PluginModulePackageName` | lib/bpm/pipeline/plugin_asset.rb:24-28 | the package name is nil exactly when the path is all slashes or empty; otherwise it is the part of the path before the first `/` |
| `PluginAssets.PluginModule` | lib/bpm/pipeline/plugin_asset.rb:24-28 | a package name, when there is one, contains no `/`; when there is none (Ruby's nil), the module id is empty |
| `PluginAssets.PluginPackage` | lib/bpm/pipeline/plugin_asset.rb:26-34 | the package is the project's lookup of the logical path's first segment, the characters before its first `/`; a path that is empty or all slashes is looked up as nil |
| `PluginAssets.FirstFieldIsFirstSegment` | lib/bpm/pipeline/plugin_asset.rb:26-27 | the first field `split("/")` yields is the text before the first `/`, characterised by an independent scan |
| `Strings.LexLeTotal` | lib/bpm/pipeline/plugin_asset.rb:54 | any two strings are ordered one way or the other |
| `Strings.LexLeAntisymmetric` | lib/bpm/pipeline/plugin_asset.rb:54 | strings ordered both ways are equal |
| `Strings.LexLeTransitive` | lib/bpm/pipeline/plugin_asset.rb:54 | the string order is transitive |
| `Strings.SortSorts` | lib/bpm/pipeline/plugin_asset.rb:54 | the sorted listing is in ascending order |
| `Strings.SortPermutes` | lib/bpm/pipeline/plugin_asset.rb:54 | the sorted listing holds the same files as the listing, with the same multiplicities |
| `Strings.SortedUnique` | lib/bpm/pipeline/plugin_asset.rb:54 | two ascending sequences holding the same elements are equal |
| `Strings.SortIgnoresOrder` | lib/bpm/pipeline/plugin_asset.rb:54 | listings holding the same files sort to the same sequence |
| `PluginAssets.RequiredMembership` | lib/bpm/pipeline/plugin_asset.rb:54-56 | a file is required exactly when it is visited and requirable |
| `PluginAssets.RequiredKeepsOrder` | lib/bpm/pipeline/plugin_asset.rb:54-56 | the required files of a sorted listing are themselves sorted |
| `PluginAssets.DirnamesOneEach` | lib/bpm/pipeline/plugin_asset.rb:54-55 | each visited file adds exactly one dependency, its directory, in visiting order, whether it is requirable or not |
| `PluginAssets.RoleFilesAppend` | lib/bpm/pipeline/plugin_asset.rb:50-58 | roles are visited in `pipeline_libs` order: the visit of two role lists one after the other is the first visit followed by the second |
| `PluginAssets.RoleFilesMembership` | lib/bpm/pipeline/plugin_asset.rb:50-54 | a file is visited exactly when the glob lists it under the directory of some role; that directory is `directories[role]` when the package maps the role, otherwise the role name |
| `PluginAssets.PluginRequiresExactly` | lib/bpm/pipeline/plugin_asset.rb:39-57 | before the module itself, the asset requires exactly the requirable files listed under the plugin package's own lib directories |
| `PluginAssets.DirFilesSorted` | lib/bpm/pipeline/plugin_asset.rb:54-56 | within one role, both the visited files and the required files are in ascending order |
| `PluginAssets.VisitIgnoresListingOrder` | lib/bpm/pipeline/plugin_asset.rb:54 | the visit does not depend on the order the glob returns files in |
| `PluginAssets.Context.constructor` | lib/bpm/pipeline/plugin_asset.rb:46 | a blank context requires nothing and depends on nothing |
| `PluginAssets.Context.DependOn` | lib/bpm/pipeline/plugin_asset.rb:55 | appends one dependency and leaves the requires alone |
| `PluginAssets.Context.RequireAsset` | lib/bpm/pipeline/plugin_asset.rb:56 | appends one require and leaves the dependencies alone |
| `PluginAssets.VisitFiles` | lib/bpm/pipeline/plugin_asset.rb:54-57 | walking one sorted listing: each file appends its directory to the dependencies; only requirable files are appended to the requires |
| `PluginAssets.VisitPackage` | lib/bpm/pipeline/plugin_asset.rb:49-58 | walking a package's pipeline libs appends, role after role, the requires and dependencies of each role's sorted files |
| `PluginAssets.PluginAsset.BuildDependencyContextAndBody` | lib/bpm/pipeline/plugin_asset.rb:30-66 | the body is `"// BPM PLUGIN: " + logical path + "\n\n"`; the context is fresh; its dependencies are the directories of the plugin package's lib files; its requires are that package's requirable lib files followed, last, by the module itself |
| `PluginAssets.PluginAsset.DependencyContextAndBody` | lib/bpm/pipeline/plugin_asset.rb:17-19 | the first call builds the pair and stores it; a later call returns the stored pair unchanged; either way the memo holds the returned pair and the body is the header |
| `PluginAssets.PluginAsset.constructor` | lib/bpm/pipeline/plugin_asset.rb:10-13 | the asset keeps the environment; the logical path is the module name; the pathname is `<project root>/.bpm/plugins/<module name>.js`, with the root taken from the environment; nothing is memoised yet |

## Left out

- The V8 script engine is left out. This covers `environment.plugin_context_for`, the `V8::C::Locker` lock, the `PACKAGE_INFO`/`DATA` globals and `eval` (`lib/bpm/pipeline/transport_processor.rb:22-30`). The plugin's computation is the parameter `compile`, and it is total. A plugin that throws is not modelled. Nor is one that returns nil, which would make `out + "\n\n"` raise (`lib/bpm/pipeline/transport_processor.rb:32`).
- Module id and file path are handed to `compile` as values. In the source they are pasted, unescaped, into JavaScript source text, so a quote in either one would change the script. The model does not capture that.
- bpm's project and package lookups are not part of this model. They are reached through `environment.project`: `package_and_module_from_path`, `Package#transport_plugins`, `pkg.attributes`, `package_from_name` and `path_from_module` (`lib/bpm/pipeline/transport_processor.rb:9-11`, `lib/bpm/pipeline/plugin_asset.rb:32-34`, `:62`). Sprockets' `context.resolve` is not part of it either. Their results are inputs: `Transport.Package`, `Environment.packageFromName` and `Environment.moduleAsset`.
- `Context.DependOn` and `Context.RequireAsset` only append to sequences. Sprockets' own `depend_on` and `require_asset` (set semantics, resolving a path, tracking the digests of dependency assets) are Sprockets code and are not modelled.
- `environment.file_digest(pathname, body)` only primes a digest cache, so it is left out. `pkg.load_json` re-reads the package's manifest from disk; the model takes the package's `directories` and `pipelineLibs` as given.
- The glob `Dir[File.join(search_path, '**', '*')]` is the input map `Environment.listing`, keyed by the search path `root + "/" + dir`. A search path missing from the map lists no files. `File.expand_path` normalisation and `File.join`'s merging of doubled separators are not modelled.
- The environment is fixed when the asset is built, as in the source. Once a pair is memoised, a change of the files on disk is not seen; the model has no way to change the environment afterwards.
- The model assumes two lookups succeed. `package_from_name` may return nil, and then `pkg.load_json` raises (`lib/bpm/pipeline/plugin_asset.rb:34`, `:49`). `context.resolve` may fail to find the module file (`:62`). `Environment.packageFromName` and `Environment.moduleAsset` always return a value.
- Ruby compares strings by their UTF-8 bytes. The model compares code points, which gives the same order for valid UTF-8. Invalid byte strings are not modelled.
- `Strings.Split` covers only a one-character separator other than a space, with no limit argument, which is how `plugin_module` calls it.
- Project generation (`lib/bpm/init_generator.rb`, `lib/bpm/project_generator.rb`) is templating and file I/O, and is not part of this model.
- Version resolution, fetch/install, manifest-line generation and minifier wrapping are exercised by the tests, but they are implemented outside `transport_processor.rb` and `plugin_asset.rb`, so they are not part of this model.
