/**
 * The plugin manifest reader: `new PluginInfo(dir)` decides from a plugin
 * directory and its package.json either to throw, or to build a record of
 * the plugin's name, version, path, type, Node.js version, pid and error.
 *
 * The file system, `JSON.parse`, `path.join`, `expandPath`,
 * `semver.satisfies` and `process.version` are the fields of a `Host`. The
 * constructor assigns its fields one after another and may return early,
 * so a field the constructor never reached is `Unset`.
 */
module PluginInfo {
  import opened Wrappers
  import opened Strings
  import opened JsValue

  /** What the constructor asks of its environment. */
  datatype Host = Host(
    isDir: string -> bool,
    isFile: string -> bool,
    joinPath: (string, string) -> string,
    /** `JSON.parse(fs.readFileSync(file))`, or the message of the error it throws. */
    readJson: string -> Result<Json, string>,
    expandPath: (string, string) -> string,
    satisfies: (string, Json) -> bool,
    processVersion: string)

  datatype Kind = Internal | External

  /** A field of the object: never assigned, or assigned a value. */
  datatype Slot<T> = Unset | Set(value: T)

  datatype Info = Info(
    name: Json,
    version: Json,
    path: string,
    loaded: bool,
    kind: Kind,
    nodeVersion: Json,
    pid: Slot<Json>,
    error: Slot<Json>)

  /** The ways the constructor throws, in the order it checks them. */
  datatype ConstructError =
    | DirectoryMissing(dir: string)
    | PackageJsonMissing(dir: string)
    | PackageJsonUnreadable(file: string, reason: string)
    /** `pkgJson.name` on a parsed `null`: a TypeError. */
    | ManifestNullish
    | NameMissing(dir: string)

  function Message(e: ConstructError): string {
    match e
    case DirectoryMissing(dir) => "Plugin directory does not exist: " + dir
    case PackageJsonMissing(dir) => "Plugin directory does not contain a package.json: " + dir
    case PackageJsonUnreadable(file, reason) => "Error reading plugin " + file + ": " + reason
    case ManifestNullish => "Cannot read property 'name' of null"
    case NameMissing(dir) => "Plugin package.json doesn't have a name: " + dir
  }

  /** `process.version.replace(/^v/, '')`. */
  function StripV(v: string): (r: string)
    ensures StartsWith(v, "v") ==> "v" + r == v
    ensures !StartsWith(v, "v") ==> r == v
  {
    if StartsWith(v, "v") then v[1..] else v
  }

  /** `pkgJson.main || 'index.js'`. */
  function DeclaredMain(pkg: Json): (m: Json)
    ensures Truthy(m)
  {
    if Truthy(Prop(pkg, "main")) then Prop(pkg, "main") else Str("index.js")
  }

  /** The main file name, with ".js" appended unless `/\.js$/` already matches. */
  function MainFile(main: string): (f: string)
    ensures EndsWith(f, ".js") && StartsWith(f, main)
    ensures EndsWith(main, ".js") ==> f == main
    ensures |f| <= |main| + 3
  {
    if EndsWith(main, ".js") then main
    else
      var f := main + ".js";
      assert f[..|main|] == main;
      assert f[|f| - 3..] == ".js";
      f
  }

  function VersionMessage(required: Json, running: string): string {
    "Internal plugin requires Node.js " + ToJsString(required) + ", but core is currently running " + running
  }

  function MainMessage(main: string): string {
    "Unable to find main file: " + main
  }

  /** `pkgJson.appcd && pkgJson.appcd.type === 'internal' ? 'internal' : 'external'`. */
  function KindOf(pkg: Json): Kind {
    var appcd := Prop(pkg, "appcd");
    if Truthy(appcd) && Prop(appcd, "type") == Str("internal") then Internal else External
  }

  /** `pkgJson.engines && pkgJson.engines.node`. */
  function DeclaredNode(pkg: Json): Json {
    var engines := Prop(pkg, "engines");
    if Truthy(engines) then Prop(engines, "node") else engines
  }

  /** `new PluginInfo(dir)`: the thrown error, or the object as the constructor leaves it. */
  function Construct(host: Host, dir: string): Result<Info, ConstructError> {
    if !host.isDir(dir) then Err(DirectoryMissing(dir))
    else
      var file := host.joinPath(dir, "package.json");
      if !host.isFile(file) then Err(PackageJsonMissing(dir))
      else
        match host.readJson(file)
        case Err(reason) => Err(PackageJsonUnreadable(file, reason))
        case Ok(pkg) =>
          if pkg.Null? || pkg.Undefined? then Err(ManifestNullish)
          else if !Truthy(Prop(pkg, "name")) then Err(NameMissing(dir))
          else Ok(Fields(host, dir, pkg))
  }

  /** The field assignments after the checks, including the early return on an unsatisfied internal plugin. */
  function Fields(host: Host, dir: string, pkg: Json): Info {
    var version := if Truthy(Prop(pkg, "version")) then Prop(pkg, "version") else Null;
    var base := Info(Prop(pkg, "name"), version, dir, false, KindOf(pkg), DeclaredNode(pkg), Unset, Unset);
    if !Truthy(base.nodeVersion) then
      FindMain(host, dir, pkg, base.(nodeVersion := Str(StripV(host.processVersion))))
    else if base.kind == Internal && !host.satisfies(host.processVersion, base.nodeVersion) then
      base.(error := Set(Str(VersionMessage(base.nodeVersion, host.processVersion))))
    else
      FindMain(host, dir, pkg, base)
  }

  /** `pid` and `error` become null, then the main file is looked up. */
  function FindMain(host: Host, dir: string, pkg: Json, info: Info): Info {
    var main := ToJsString(DeclaredMain(pkg));
    var ready := info.(pid := Set(Null), error := Set(Null));
    if host.isFile(host.expandPath(dir, MainFile(main))) then ready
    else ready.(error := Set(Str(MainMessage(main))))
  }

  /** `unload()`: the message it throws, if any. */
  function Unload(info: Info): Option<string>
  {
    if info.kind == Internal then Some("Cannot unload internal plugins") else None
  }

  /**
   * On a constructed plugin, `unload` throws exactly when the manifest
   * declares `appcd.type` "internal"; it returns nothing and changes no field.
   */
  lemma UnloadOnlyInternal(host: Host, dir: string, pkg: Json)
    requires ReadsAs(host, dir, pkg) && Construct(host, dir).Ok?
    ensures var r := Unload(Construct(host, dir).value);
            (r.Some? <==> Prop(pkg, "appcd").Obj? && Prop(Prop(pkg, "appcd"), "type") == Str("internal")) &&
            (r.Some? ==> r.value == "Cannot unload internal plugins")
  {
    ConstructedFields(host, dir, pkg);
  }

  /** The parsed manifest behind a successful construction. */
  ghost predicate ReadsAs(host: Host, dir: string, pkg: Json) {
    host.isDir(dir) && host.isFile(host.joinPath(dir, "package.json")) &&
    host.readJson(host.joinPath(dir, "package.json")) == Ok(pkg)
  }

  /** Before the manifest is parsed, the constructor throws at the first failing file check, in this order. */
  lemma ConstructChecksFiles(host: Host, dir: string)
    ensures var file := host.joinPath(dir, "package.json");
            var r := Construct(host, dir);
            (!host.isDir(dir) ==> r == Err(DirectoryMissing(dir))) &&
            (host.isDir(dir) && !host.isFile(file) ==> r == Err(PackageJsonMissing(dir))) &&
            (host.isDir(dir) && host.isFile(file) && host.readJson(file).Err? ==>
               r == Err(PackageJsonUnreadable(file, host.readJson(file).error)))
  {
  }

  /**
   * Once the manifest is parsed, a null one throws a TypeError, one without
   * a truthy name throws, and any other one is built.
   */
  lemma ConstructChecksManifest(host: Host, dir: string, pkg: Json)
    requires ReadsAs(host, dir, pkg)
    ensures var r := Construct(host, dir);
            ((pkg.Null? || pkg.Undefined?) ==> r == Err(ManifestNullish)) &&
            (!pkg.Null? && !pkg.Undefined? && !Truthy(Prop(pkg, "name")) ==> r == Err(NameMissing(dir))) &&
            (r.Ok? <==> !pkg.Null? && !pkg.Undefined? && Truthy(Prop(pkg, "name"))) &&
            (r.Ok? ==> r == Ok(Fields(host, dir, pkg)))
  {
  }

  /** What every successfully built object holds, whatever happened after the checks. */
  lemma ConstructedFields(host: Host, dir: string, pkg: Json)
    requires ReadsAs(host, dir, pkg) && Construct(host, dir).Ok?
    ensures var p := Construct(host, dir).value;
            p.name == Prop(pkg, "name") && Truthy(p.name) &&
            (Truthy(Prop(pkg, "version")) ==> p.version == Prop(pkg, "version")) &&
            (!Truthy(Prop(pkg, "version")) ==> p.version == Null) &&
            p.path == dir && !p.loaded && p.error.Set? &&
            (p.kind == Internal <==> Prop(pkg, "appcd").Obj? && Prop(Prop(pkg, "appcd"), "type") == Str("internal"))
  {
    ConstructChecksManifest(host, dir, pkg);
  }

  /** Without `engines.node` the running version, less its 'v', is used and the main file is always looked up. */
  lemma NoEnginesNoVersionError(host: Host, dir: string, pkg: Json)
    requires ReadsAs(host, dir, pkg) && Construct(host, dir).Ok?
    requires !Truthy(DeclaredNode(pkg))
    ensures var p := Construct(host, dir).value;
            p.nodeVersion == Str(StripV(host.processVersion)) && p.pid == Set(Null) &&
            (p.error == Set(Null) || p.error == Set(Str(MainMessage(ToJsString(DeclaredMain(pkg))))))
  {
    ConstructChecksManifest(host, dir, pkg);
  }

  /**
   * Construction stops early, leaving `pid` unset and the main file
   * unchecked, exactly for an internal plugin whose declared Node.js range
   * the running version does not satisfy; the error then names both.
   */
  lemma VersionErrorOnlyInternal(host: Host, dir: string, pkg: Json)
    requires ReadsAs(host, dir, pkg) && Construct(host, dir).Ok?
    ensures var p := Construct(host, dir).value;
            var required := DeclaredNode(pkg);
            (p.pid == Unset <==> p.kind == Internal && Truthy(required) && !host.satisfies(host.processVersion, required)) &&
            (p.pid == Unset ==> p.nodeVersion == required &&
                                p.error == Set(Str(VersionMessage(required, host.processVersion)))) &&
            (p.kind == External ==> p.pid == Set(Null))
  {
    ConstructChecksManifest(host, dir, pkg);
  }

  /** When the constructor gets past the version check, the error is null exactly when the expanded main file exists. */
  lemma MainFileChecked(host: Host, dir: string, pkg: Json)
    requires ReadsAs(host, dir, pkg) && Construct(host, dir).Ok?
    requires Construct(host, dir).value.pid.Set?
    ensures var p := Construct(host, dir).value;
            var main := ToJsString(DeclaredMain(pkg));
            var found := host.isFile(host.expandPath(dir, MainFile(main)));
            p.pid == Set(Null) &&
            (found ==> p.error == Set(Null)) &&
            (!found ==> p.error == Set(Str(MainMessage(main))))
  {
    ConstructChecksManifest(host, dir, pkg);
  }

  /** A missing `main` means index.js, which already ends in ".js". */
  lemma DefaultMain(pkg: Json)
    requires !Truthy(Prop(pkg, "main"))
    ensures MainFile(ToJsString(DeclaredMain(pkg))) == "index.js"
  {
    assert "index.js"[|"index.js"| - 3..] == ".js";
  }
}
