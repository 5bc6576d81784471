/**
 * `appcd status`: ask the daemon for its status and report it, as the raw
 * object in JSON mode or as tables otherwise; one row per plugin, whose
 * status column says whether it failed, is loaded, or is not loaded.
 *
 * Table rendering, text styles and the summary table are not modelled; a
 * row is the six cell values before rendering.
 */
module StatusCommand {
  import opened Strings
  import opened JsValue
  import PluginInfo

  /** The status column: the plugin's error, else whether it is loaded (with the pid of an external one). */
  function PluginStatus(plugin: Json): string {
    var error := Prop(plugin, "error");
    if Truthy(error) then ToJsString(error)
    else if Truthy(Prop(plugin, "loaded")) then
      if Prop(plugin, "type") == Str("external") then
        var pid := Prop(plugin, "pid");
        "Loaded, PID=" + (if Truthy(pid) then ToJsString(pid) else "null")
      else "Loaded"
    else "Unloaded"
  }

  /** The six cells of a plugin's row: name, version, type, path, Node.js version, status. */
  datatype Row = Row(name: string, version: string, kind: Json, path: Json, nodeVersion: string, status: string)

  function RowOf(plugin: Json): Row
  {
    var version := Prop(plugin, "version");
    Row(ToJsString(Prop(plugin, "name")),
        if Truthy(version) then "v" + ToJsString(version) else "null",
        Prop(plugin, "type"),
        Prop(plugin, "path"),
        "v" + ToJsString(Prop(plugin, "nodeVersion")),
        PluginStatus(plugin))
  }

  /** A plugin's error is its status, whether or not it is loaded. */
  lemma ErrorWins(plugin: Json)
    requires Truthy(Prop(plugin, "error"))
    ensures PluginStatus(plugin) == ToJsString(Prop(plugin, "error"))
  {
  }

  /** Without an error: loaded external plugins show their pid (or null), loaded internal ones "Loaded", others "Unloaded". */
  lemma StatusWithoutError(plugin: Json)
    requires !Truthy(Prop(plugin, "error"))
    ensures var pid := Prop(plugin, "pid");
            var external := Prop(plugin, "type") == Str("external");
            var loaded := Truthy(Prop(plugin, "loaded"));
            (loaded && external && Truthy(pid) ==> PluginStatus(plugin) == "Loaded, PID=" + ToJsString(pid)) &&
            (loaded && external && !Truthy(pid) ==> PluginStatus(plugin) == "Loaded, PID=null") &&
            (loaded && !external ==> PluginStatus(plugin) == "Loaded") &&
            (!loaded ==> PluginStatus(plugin) == "Unloaded")
  {
  }

  /**
   * The name cell is `String(name)`, the status cell is the plugin's status
   * string and the type and path cells are copied; the version cell is 'v'
   * and the version, or 'null' for a missing version; the Node.js cell is
   * 'v' and `String(nodeVersion)`, so it always has its 'v'.
   */
  lemma RowCells(plugin: Json)
    ensures var r := RowOf(plugin);
            var version := Prop(plugin, "version");
            r.status == PluginStatus(plugin) && r.kind == Prop(plugin, "type") && r.path == Prop(plugin, "path") &&
            (Truthy(version) ==> r.version == "v" + ToJsString(version)) &&
            (!Truthy(version) ==> r.version == "null") &&
            r.name == ToJsString(Prop(plugin, "name")) &&
            r.nodeVersion == "v" + ToJsString(Prop(plugin, "nodeVersion")) &&
            StartsWith(r.nodeVersion, "v")
  {
    var r := RowOf(plugin);
    assert r.nodeVersion[..1] == "v";
  }

  /** The plugin loop: one row per plugin, in the order of `status.plugins`. */
  method BuildRows(plugins: seq<Json>) returns (rows: seq<Row>)
    ensures |rows| == |plugins|
    ensures forall i :: 0 <= i < |plugins| ==> rows[i] == RowOf(plugins[i])
  {
    rows := [];
    var i := 0;
    while i < |plugins|
      invariant 0 <= i <= |plugins|
      invariant |rows| == i
      invariant forall j :: 0 <= j < i ==> rows[j] == RowOf(plugins[j])
    {
      rows := rows + [RowOf(plugins[i])];
      i := i + 1;
    }
  }

  /** What the command reports on a response. */
  datatype Report =
    | JsonReport(status: Json)
    | Tables(rows: seq<Row>)
    /** `status.plugins` is not an array (the daemon always sends one); `for…of` throws on a missing value. */
    | PluginsNotIterable

  /** The response handler: in JSON mode the status object unchanged and no table; otherwise the plugin rows. */
  method Respond(status: Json, json: bool) returns (r: Report)
    ensures json ==> r == JsonReport(status)
    ensures !json && Prop(status, "plugins").Arr? ==>
              r.Tables? && |r.rows| == |Prop(status, "plugins").items| &&
              forall i :: 0 <= i < |r.rows| ==> r.rows[i] == RowOf(Prop(status, "plugins").items[i])
    ensures !json && !Prop(status, "plugins").Arr? ==> r == PluginsNotIterable
  {
    if json {
      return JsonReport(status);
    }
    var plugins := Prop(status, "plugins");
    if !plugins.Arr? {
      return PluginsNotIterable;
    }
    var rows := BuildRows(plugins.items);
    r := Tables(rows);
  }

  /** How the command ends on a request error: the exit code, the line printed, and whether it went to stderr. */
  datatype Exit = Exit(code: nat, line: string, toStderr: bool)

  /** The error handler: a refused connection exits with 2, any other error with 1 after printing it. */
  function OnRequestError(errCode: Json, errText: string, json: bool): (e: Exit)
    ensures e.code == 2 <==> errCode == Str("ECONNREFUSED")
    ensures e.code == 1 || e.code == 2
    ensures e.code == 1 ==> e.line == errText && e.toStderr
    ensures e.code == 2 ==> !e.toStderr && e.line == (if json then "{}" else "Server not running (code 2)")
  {
    if errCode != Str("ECONNREFUSED") then Exit(1, errText, true)
    else if json then Exit(2, "{}", false)
    else Exit(2, "Server not running (code 2)", false)
  }

  // ---------------------------------------------------------------------
  // Plugins as the manifest reader builds them

  /** A `PluginInfo` object as the status response carries it: fields never assigned are absent. */
  function InfoRecord(p: PluginInfo.Info): (r: Json)
    ensures r.Obj?
    ensures ("pid" in r.fields <==> p.pid.Set?) && ("error" in r.fields <==> p.error.Set?)
    ensures p.pid.Set? ==> r.fields["pid"] == p.pid.value
    ensures p.error.Set? ==> r.fields["error"] == p.error.value
  {
    var fields := map["name" := p.name, "version" := p.version, "path" := Str(p.path), "loaded" := Bool(p.loaded),
                      "type" := Str(if p.kind == PluginInfo.Internal then "internal" else "external"),
                      "nodeVersion" := p.nodeVersion];
    var withPid := if p.pid.Set? then fields["pid" := p.pid.value] else fields;
    Obj(if p.error.Set? then withPid["error" := p.error.value] else withPid)
  }

  /**
   * The record of a constructed plugin always has an `error` field, and has
   * no `pid` field exactly when construction stopped early on an internal
   * plugin whose Node.js range the running version does not satisfy.
   */
  lemma InfoRecordFields(host: PluginInfo.Host, dir: string, pkg: Json)
    requires PluginInfo.ReadsAs(host, dir, pkg) && PluginInfo.Construct(host, dir).Ok?
    ensures var p := PluginInfo.Construct(host, dir).value;
            var required := PluginInfo.DeclaredNode(pkg);
            var r := InfoRecord(p);
            "error" in r.fields &&
            ("pid" !in r.fields <==> p.kind == PluginInfo.Internal && Truthy(required) &&
                                     !host.satisfies(host.processVersion, required))
  {
    PluginInfo.ConstructedFields(host, dir, pkg);
    PluginInfo.VersionErrorOnlyInternal(host, dir, pkg);
  }

  /**
   * Without `engines.node` the reader records the running version less its
   * 'v', and the row puts the 'v' back: the Node.js cell shows
   * `process.version` itself.
   */
  lemma NodeVersionCell(host: PluginInfo.Host, dir: string, pkg: Json)
    requires PluginInfo.ReadsAs(host, dir, pkg) && PluginInfo.Construct(host, dir).Ok?
    requires !Truthy(PluginInfo.DeclaredNode(pkg)) && StartsWith(host.processVersion, "v")
    ensures RowOf(InfoRecord(PluginInfo.Construct(host, dir).value)).nodeVersion == host.processVersion
  {
    var p := PluginInfo.Construct(host, dir).value;
    PluginInfo.NoEnginesNoVersionError(host, dir, pkg);
    assert Prop(InfoRecord(p), "nodeVersion") == Str(PluginInfo.StripV(host.processVersion));
  }

  /**
   * A plugin fresh from the manifest reader is never loaded: its status is
   * its version or main-file error when it has one, and "Unloaded" otherwise.
   */
  lemma FreshPluginStatus(host: PluginInfo.Host, dir: string, pkg: Json)
    requires PluginInfo.ReadsAs(host, dir, pkg) && PluginInfo.Construct(host, dir).Ok?
    ensures var p := PluginInfo.Construct(host, dir).value;
            var s := PluginStatus(InfoRecord(p));
            (p.error == PluginInfo.Set(Null) ==> s == "Unloaded") &&
            (forall msg :: p.error == PluginInfo.Set(Str(msg)) && msg != "" ==> s == msg)
  {
    var p := PluginInfo.Construct(host, dir).value;
    PluginInfo.ConstructedFields(host, dir, pkg);
    var record := InfoRecord(p);
    assert Prop(record, "error") == p.error.value;
    assert Prop(record, "loaded") == Bool(false);
  }
}
