/** The pure part of the plugin's `setup`: merging the caller's options over the
    defaults, choosing the default segment name and the context mode. */
module PluginSetup {
  import opened Js

  /** Options are a JavaScript object: a map from property name to value. A key
      that is present maps to its value even when that value is `undefined`. */
  type Options = map<string, JsValue>

  const IsAutomaticModeKey := "isAutomaticMode"
  const LoggerKey := "logger"
  const SegmentNameKey := "segmentName"
  const PluginsKey := "plugins"
  const CaptureAwsKey := "captureAWS"

  /** The console object the plugin logs to unless told otherwise. */
  const Console := Ref("console")

  /** The plugin's defaults: automatic mode, logging to the console. */
  const DefaultOptions: Options := map[IsAutomaticModeKey := Bool(true), LoggerKey := Console]

  /** Reading a property: an absent key reads as `undefined`. */
  function Get(opts: Options, key: string): JsValue {
    if key in opts then opts[key] else Undefined
  }

  /** `{ ...defaultOptions, ...options }`: every key the caller supplies replaces
      the default, and the defaults fill in the rest. */
  function MergeOptions(options: Options): (merged: Options)
    ensures merged.Keys == DefaultOptions.Keys + options.Keys
    ensures forall k :: k in options ==> merged[k] == options[k]
    ensures forall k :: k in DefaultOptions && k !in options ==> merged[k] == DefaultOptions[k]
  {
    DefaultOptions + options
  }

  // ---------------------------------------------------------------------------
  // Generated segment name

  /** The `name` and `version` fields of the application's package manifest. */
  datatype PackageInfo = PackageInfo(name: Option<string>, version: Option<string>)

  const FallbackName := "service"
  const FallbackVersion := "v1"
  const NameSeparator := '_'

  /** The effective package name and version once the fallbacks are applied. */
  function PackageName(p: PackageInfo): string { StringOr(p.name, FallbackName) }
  function PackageVersion(p: PackageInfo): string { StringOr(p.version, FallbackVersion) }

  /** `_createSegmentName`: `"service"` when there is no manifest, otherwise the
      manifest's name and version joined by an underscore. The manifest is passed
      in: `None` stands for a missing `package.json`. */
  function CreateSegmentName(pkg: Option<PackageInfo>): (name: string)
    ensures name != ""
    ensures pkg.None? ==> name == FallbackName
    ensures pkg.Some? ==>
      var a := PackageName(pkg.value);
      && |a| < |name| && name[..|a|] == a && name[|a|] == NameSeparator
      && name[|a| + 1..] == PackageVersion(pkg.value)
  {
    match pkg
    case None => FallbackName
    case Some(p) => PackageName(p) + [NameSeparator] + PackageVersion(p)
  }

  /** Position of the first occurrence of `c` in `s`. */
  function IndexOf(s: string, c: char): (r: Option<nat>)
    ensures r.Some? ==> r.value < |s| && s[r.value] == c
    ensures r.Some? ==> forall j :: 0 <= j < r.value ==> s[j] != c
    ensures r.None? ==> c !in s
  {
    if |s| == 0 then None
    else if s[0] == c then Some(0)
    else
      match IndexOf(s[1..], c)
      case None => None
      case Some(i) => Some(i + 1)
  }

  /** Reads a generated `name_version` back into its two parts, splitting at the
      first underscore. */
  function ParseSegmentName(s: string): (r: Option<(string, string)>)
    ensures r.None? <==> NameSeparator !in s
  {
    match IndexOf(s, NameSeparator)
    case None => None
    case Some(i) => Some((s[..i], s[i + 1..]))
  }

  /** Splitting `a + "_" + b` at its first underscore gives back `a` and `b`
      whenever `a` holds no underscore. */
  lemma SplitJoined(a: string, b: string)
    requires NameSeparator !in a
    ensures ParseSegmentName(a + [NameSeparator] + b) == Some((a, b))
  {
    var s := a + [NameSeparator] + b;
    assert s[|a|] == NameSeparator;
    assert forall j :: 0 <= j < |a| ==> s[j] == a[j];
    assert IndexOf(s, NameSeparator) == Some(|a|);
    assert s[..|a|] == a;
    assert s[|a| + 1..] == b;
  }

  /** The generated name is a round trip of the manifest: when the package name
      holds no underscore, parsing the generated name gives back the effective name
      and version. With no manifest the name is the bare fallback, which holds no
      separator. */
  lemma SegmentNameRoundTrip(pkg: Option<PackageInfo>)
    requires pkg.Some? ==> NameSeparator !in PackageName(pkg.value)
    ensures pkg.None? ==> ParseSegmentName(CreateSegmentName(pkg)) == None
    ensures pkg.Some? ==>
      ParseSegmentName(CreateSegmentName(pkg)) == Some((PackageName(pkg.value), PackageVersion(pkg.value)))
  {
    match pkg
    case None =>
      assert CreateSegmentName(pkg) == "service";
    case Some(p) =>
      SplitJoined(PackageName(p), PackageVersion(p));
  }

  /** The generated name starts with the package's name, so the application's own
      package name shows up in its default segment name. */
  lemma SegmentNameStartsWithPackageName(p: PackageInfo)
    requires p.name.Some? && p.name.value != ""
    ensures var name := CreateSegmentName(Some(p));
      |p.name.value| < |name| && name[..|p.name.value|] == p.name.value
  {
    var name := CreateSegmentName(Some(p));
    assert name == p.name.value + ([NameSeparator] + PackageVersion(p));
  }

  // ---------------------------------------------------------------------------
  // setup

  /** What `setup` hands to the tracing SDK: the default segment name, the
      context mode, the logger (when one is installed), the plugin list (when one
      is configured) and whether AWS calls are captured. */
  datatype Config = Config(
    defaultName: JsValue,
    automaticMode: bool,
    logger: Option<JsValue>,
    plugins: Option<JsValue>,
    captureAws: bool)

  /** The segment name: an explicit `segmentName` when truthy, otherwise the
      generated one. */
  function SegmentName(merged: Options, pkg: Option<PackageInfo>): (name: JsValue)
    ensures Truthy(Get(merged, SegmentNameKey)) ==> name == Get(merged, SegmentNameKey)
    ensures !Truthy(Get(merged, SegmentNameKey)) ==> name == Str(CreateSegmentName(pkg))
    ensures Truthy(name)
  {
    Or(Get(merged, SegmentNameKey), Str(CreateSegmentName(pkg)))
  }

  /** `setup(options)`, stated in terms of the caller's own options. */
  function Setup(options: Options, pkg: Option<PackageInfo>): (c: Config)
    ensures Truthy(Get(options, SegmentNameKey)) ==> c.defaultName == Get(options, SegmentNameKey)
    ensures !Truthy(Get(options, SegmentNameKey)) ==> c.defaultName == Str(CreateSegmentName(pkg))
    ensures c.automaticMode <==> IsAutomaticModeKey !in options || Truthy(options[IsAutomaticModeKey])
    ensures c.logger.Some? <==> LoggerKey !in options || Truthy(options[LoggerKey])
    ensures c.logger.Some? ==> c.logger.value == (if LoggerKey in options then options[LoggerKey] else Console)
    ensures c.plugins.Some? <==> Truthy(Get(options, PluginsKey))
    ensures c.plugins.Some? ==> c.plugins.value == options[PluginsKey]
    ensures c.captureAws <==> Truthy(Get(options, CaptureAwsKey))
  {
    var merged := MergeOptions(options);
    var logger := Get(merged, LoggerKey);
    var plugins := Get(merged, PluginsKey);
    Config(
      SegmentName(merged, pkg),
      Truthy(Get(merged, IsAutomaticModeKey)),
      if Truthy(logger) then Some(logger) else None,
      if Truthy(plugins) then Some(plugins) else None,
      Truthy(Get(merged, CaptureAwsKey)))
  }

  /** With no options at all the plugin runs in automatic mode, logs to the
      console and names segments after the package. */
  lemma SetupDefaults(pkg: Option<PackageInfo>)
    ensures Setup(map[], pkg) == Config(Str(CreateSegmentName(pkg)), true, Some(Console), None, false)
  {
  }

  /** The mode is read from `isAutomaticMode` only: an `automaticMode` key,
      whatever its value, leaves the plugin in automatic mode. */
  lemma AutomaticModeKeyIgnored(pkg: Option<PackageInfo>, v: JsValue)
    ensures Setup(map["automaticMode" := v], pkg).automaticMode
  {
  }
}
