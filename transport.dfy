/**
 * The transport step of the build pipeline: a module's body is passed
 * through the single transport plugin its owning package depends on, left
 * alone when there is none, and refused when there are several.
 *
 * The plugin itself runs in an embedded script engine; here it is the
 * function `compile`, standing for
 * `BPM_PLUGIN.compileTransport(DATA, PACKAGE_INFO, moduleId, filePath)`
 * evaluated in that plugin's context.
 */
module Transport {
  import opened Strings

  /**
   * What the processor needs of the owning package: its name, the
   * attributes handed to the plugin as PACKAGE_INFO, and the transport
   * plugins it depends on, in the order the project lists them.
   */
  datatype Package<Plugin, Attributes> =
    Package(name: string, attributes: Attributes, transportPlugins: seq<Plugin>)

  datatype Outcome =
    | Ok(body: string)
    | MultipleTransportPlugins(pkgName: string, count: nat)

  /** What the processor appends to the plugin's output. */
  const Trailer := "\n\n"

  /**
   * `TransportProcessor#evaluate` on the module `moduleId` of `pkg`, read
   * from the file `filePath` with contents `data`.
   */
  function Evaluate<Plugin, Attributes>(
    pkg: Package<Plugin, Attributes>, moduleId: string, filePath: string, data: string,
    compile: (Plugin, string, Attributes, string, string) -> string): (r: Outcome)
    ensures r.MultipleTransportPlugins? <==> |pkg.transportPlugins| > 1
    ensures r.MultipleTransportPlugins? ==> r.pkgName == pkg.name && r.count == |pkg.transportPlugins|
  {
    if |pkg.transportPlugins| == 0 then Ok(data)
    else if |pkg.transportPlugins| > 1 then
      MultipleTransportPlugins(pkg.name, |pkg.transportPlugins|)
    else
      Ok(compile(pkg.transportPlugins[0], data, pkg.attributes, moduleId, filePath) + Trailer)
  }

  /**
   * The text of the error raised for several transport plugins: the package
   * name, " depends on ", the count as a decimal numeral, and the advice to
   * pick a plugin in the package's manifest.
   */
  function ErrorMessage(pkgName: string, count: nat): (r: string)
    ensures var n, d := |pkgName|, |Decimal(count)|;
      n + 12 + d < |r|
      && r[..n] == pkgName && r[n..n + 12] == " depends on "
      && r[n + 12..n + 12 + d] == Decimal(count) && DecimalValue(r[n + 12..n + 12 + d]) == count
      && r[n + 12 + d..] == Advice
  {
    var head := pkgName + " depends on ";
    var d := Decimal(count);
    assert (head + d)[..|pkgName|] == pkgName;
    DecimalRoundTrip(count);
    head + d + Advice
  }

  /** What follows the count in the error message. */
  const Advice := " packages that define transport plugins. "
    + "Select a plugin by adding a `plugin:transport` property to the package.json"

  /** Without a transport plugin the body comes back exactly as it was read. */
  lemma PassThrough<Plugin, Attributes>(
    pkg: Package<Plugin, Attributes>, moduleId: string, filePath: string, data: string,
    compile: (Plugin, string, Attributes, string, string) -> string)
    requires |pkg.transportPlugins| == 0
    ensures Evaluate(pkg, moduleId, filePath, data, compile) == Ok(data)
  {
  }

  /**
   * With exactly one plugin, that plugin is the one run, on the raw data,
   * the package attributes, the module id and the file path, and the body is
   * its output followed by exactly one blank line.
   */
  lemma SolePluginCompiles<Plugin, Attributes>(
    pkg: Package<Plugin, Attributes>, moduleId: string, filePath: string, data: string,
    compile: (Plugin, string, Attributes, string, string) -> string)
    requires |pkg.transportPlugins| == 1
    ensures var r := Evaluate(pkg, moduleId, filePath, data, compile);
      var out := compile(pkg.transportPlugins[0], data, pkg.attributes, moduleId, filePath);
      r.Ok? && |r.body| == |out| + 2 && r.body[..|out|] == out && r.body[|out|..] == "\n\n"
  {
  }

  /**
   * With more than one plugin evaluation fails, and the message it fails
   * with names the package and spells out the count.
   */
  lemma SeveralPluginsRejected<Plugin, Attributes>(
    pkg: Package<Plugin, Attributes>, moduleId: string, filePath: string, data: string,
    compile: (Plugin, string, Attributes, string, string) -> string)
    requires |pkg.transportPlugins| > 1
    ensures Evaluate(pkg, moduleId, filePath, data, compile)
         == MultipleTransportPlugins(pkg.name, |pkg.transportPlugins|)
    ensures var m := ErrorMessage(pkg.name, |pkg.transportPlugins|);
      m[..|pkg.name|] == pkg.name
      && m[|pkg.name|..|pkg.name| + 12] == " depends on "
      && DecimalValue(m[|pkg.name| + 12..|pkg.name| + 12 + |Decimal(|pkg.transportPlugins|)|])
         == |pkg.transportPlugins|
  {
  }

  /** Two failures of the same package read differently when their counts differ. */
  lemma ErrorMessageDeterminesCount(pkgName: string, c1: nat, c2: nat)
    requires ErrorMessage(pkgName, c1) == ErrorMessage(pkgName, c2)
    ensures c1 == c2
  {
  }

  /**
   * The plugin is consulted only when there is exactly one: with none or
   * with several, the outcome is the same whatever the plugin would compute.
   */
  lemma NoPluginRunUnlessSole<Plugin, Attributes>(
    pkg: Package<Plugin, Attributes>, moduleId: string, filePath: string, data: string,
    compile1: (Plugin, string, Attributes, string, string) -> string,
    compile2: (Plugin, string, Attributes, string, string) -> string)
    requires |pkg.transportPlugins| != 1
    ensures Evaluate(pkg, moduleId, filePath, data, compile1)
         == Evaluate(pkg, moduleId, filePath, data, compile2)
  {
  }

  /**
   * Only the number of plugins picks the branch, and of the plugins only the
   * first is ever used: two packages with the same name, attributes, number
   * of plugins and first plugin evaluate alike.
   */
  lemma DecidedBySizeAndFirst<Plugin, Attributes>(
    p1: Package<Plugin, Attributes>, p2: Package<Plugin, Attributes>,
    moduleId: string, filePath: string, data: string,
    compile: (Plugin, string, Attributes, string, string) -> string)
    requires p1.name == p2.name && p1.attributes == p2.attributes
    requires |p1.transportPlugins| == |p2.transportPlugins|
    requires |p1.transportPlugins| > 0 ==> p1.transportPlugins[0] == p2.transportPlugins[0]
    ensures Evaluate(p1, moduleId, filePath, data, compile) == Evaluate(p2, moduleId, filePath, data, compile)
  {
  }
}
