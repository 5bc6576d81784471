/**
 * `appcd dump`: collect the daemon's logs, config, health and status into
 * one results object, keep only the environment variables that match a
 * fixed pattern, and choose where the dump is written.
 *
 * Requests and their responses are the parameters of the methods below,
 * one call per event the command reacts to.
 */
module Dump {
  import opened Wrappers
  import opened Strings
  import opened JsValue

  // ---------------------------------------------------------------------
  // The environment filter /^ANDROID.*|APPC.*|ComSpec|HOME|HOMEPATH|LANG|PATH|PWD|USERPROFILE$/

  /**
   * `envRegExp.test(key)`. The `^` binds only to the first alternative
   * and the `$` only to the last; every other alternative may match
   * anywhere in the key.
   */
  predicate KeepEnvKey(key: string) {
    StartsWith(key, "ANDROID") ||
    Contains(key, "APPC") || Contains(key, "ComSpec") || Contains(key, "HOME") || Contains(key, "HOMEPATH") ||
    Contains(key, "LANG") || Contains(key, "PATH") || Contains(key, "PWD") ||
    EndsWith(key, "USERPROFILE")
  }

  /** The environment as the filter leaves it. */
  function EnvKept(env: map<string, Json>): map<string, Json> {
    map k | k in env && KeepEnvKey(k) :: env[k]
  }

  /** The filtered environment holds exactly the matching keys, each with its original value. */
  lemma EnvKeptKeys(env: map<string, Json>)
    ensures forall k :: k in EnvKept(env) <==> k in env && KeepEnvKey(k)
    ensures forall k :: k in EnvKept(env) ==> EnvKept(env)[k] == env[k]
    ensures EnvKept(EnvKept(env)) == EnvKept(env)
  {
    assert EnvKept(EnvKept(env)).Keys == EnvKept(env).Keys;
  }

  /** `for (const key of Object.keys(env)) if (!envRegExp.test(key)) delete env[key]`. */
  method FilterEnv(env: map<string, Json>) returns (r: map<string, Json>)
    ensures forall k :: k in r <==> k in env && KeepEnvKey(k)
    ensures forall k :: k in r ==> r[k] == env[k]
    ensures r == EnvKept(env)
  {
    r := env;
    var todo := env.Keys;
    while todo != {}
      invariant todo <= env.Keys
      invariant forall k :: k in r <==> k in env && (k in todo || KeepEnvKey(k))
      invariant forall k :: k in r ==> r[k] == env[k]
      decreases |todo|
    {
      var key :| key in todo;
      if !KeepEnvKey(key) {
        r := r - {key};
      }
      todo := todo - {key};
    }
  }

  /** `MYHOMEDIR` is kept: `HOME` may match in the middle of a key. */
  lemma KeepsHomeInside()
    ensures KeepEnvKey("MYHOMEDIR")
  {
    var key := "MYHOMEDIR";
    assert key[2..][..4] == "HOME";
    assert Contains(key[2..], "HOME");
    assert Contains(key[1..], "HOME");
  }

  /** `MY_ANDROID` is dropped: `ANDROID` counts only at the start of a key. */
  lemma AndroidOnlyAtStart()
    ensures !KeepEnvKey("MY_ANDROID")
  {
    var key := "MY_ANDROID";
    assert forall j :: 0 <= j < |key| ==> key[j] != 'P' && key[j] != 'C' && key[j] != 'H' && key[j] != 'L';
    Absent(key, "APPC", 1);
    Absent(key, "ComSpec", 0);
    Absent(key, "HOME", 0);
    Absent(key, "HOMEPATH", 0);
    Absent(key, "LANG", 0);
    Absent(key, "PATH", 0);
    Absent(key, "PWD", 0);
    assert !StartsWith(key, "ANDROID") by {
      assert key[..7][0] == 'M';
    }
    assert |key| < |"USERPROFILE"|;
  }

  /** `t` does not occur in `s` when its character at `i` is nowhere in `s`. */
  lemma {:induction false} Absent(s: string, t: string, i: nat)
    requires i < |t| && forall j :: 0 <= j < |s| ==> s[j] != t[i]
    ensures !Contains(s, t)
    decreases |s|
  {
    if |t| <= |s| {
      assert s[..|t|][i] != t[i];
    }
    if s != [] {
      Absent(s[1..], t, i);
    }
  }

  /** Every key containing `HOMEPATH` contains `HOME`: that alternative never decides anything. */
  lemma {:induction false} HomePathRedundant(key: string)
    requires Contains(key, "HOMEPATH")
    ensures Contains(key, "HOME")
    decreases |key|
  {
    if StartsWith(key, "HOMEPATH") {
      assert key[..4] == key[..8][..4];
    } else {
      HomePathRedundant(key[1..]);
    }
  }

  // ---------------------------------------------------------------------
  // The status response

  /** One subprocess of the status response: its `options.env` and everything else about it. */
  datatype Subprocess = Subprocess(env: map<string, Json>, rest: map<string, Json>)

  /** The status response: `process.env`, `subprocesses`, and everything else about it. */
  datatype StatusDoc = StatusDoc(processEnv: map<string, Json>, subprocesses: seq<Subprocess>, rest: map<string, Json>)

  /** The status response after both filters. */
  function StatusFiltered(status: StatusDoc): (r: StatusDoc)
    ensures |r.subprocesses| == |status.subprocesses|
  {
    status.(processEnv := EnvKept(status.processEnv),
            subprocesses := seq(|status.subprocesses|, i requires 0 <= i < |status.subprocesses| =>
                              status.subprocesses[i].(env := EnvKept(status.subprocesses[i].env))))
  }

  /** Filtering leaves the list of subprocesses in place: same length, same order, each with only its env changed. */
  lemma StatusFilteredShape(status: StatusDoc)
    ensures var r := StatusFiltered(status);
            r.rest == status.rest &&
            |r.subprocesses| == |status.subprocesses| &&
            (forall i :: 0 <= i < |r.subprocesses| ==>
               r.subprocesses[i].rest == status.subprocesses[i].rest &&
               r.subprocesses[i].env == EnvKept(status.subprocesses[i].env)) &&
            StatusFiltered(r) == r
  {
    var r := StatusFiltered(status);
    forall i | 0 <= i < |r.subprocesses|
      ensures StatusFiltered(r).subprocesses[i] == r.subprocesses[i]
    {
      EnvKeptKeys(status.subprocesses[i].env);
    }
    EnvKeptKeys(status.processEnv);
  }

  /** The two loops of the status handler: the process env, then every subprocess env. */
  method FilterStatus(status: StatusDoc) returns (r: StatusDoc)
    ensures r == StatusFiltered(status)
  {
    var env := FilterEnv(status.processEnv);
    var procs := [];
    var i := 0;
    while i < |status.subprocesses|
      invariant 0 <= i <= |status.subprocesses|
      invariant |procs| == i
      invariant forall j :: 0 <= j < i ==> procs[j] == status.subprocesses[j].(env := EnvKept(status.subprocesses[j].env))
    {
      var proc := status.subprocesses[i];
      var kept := FilterEnv(proc.env);
      procs := procs + [proc.(env := kept)];
      i := i + 1;
    }
    r := status.(processEnv := env, subprocesses := procs);
  }

  // ---------------------------------------------------------------------
  // The results object

  /** One entry of `results.log`: the six fields copied from a logcat response. */
  datatype LogRecord = LogRecord(args: Json, typeStyle: Json, typeLabel: Json, ns: Json, nsStyle: Json, ts: Json)

  function Project(response: Json): LogRecord
  {
    LogRecord(Prop(response, "args"), Prop(response, "typeStyle"), Prop(response, "typeLabel"),
              Prop(response, "ns"), Prop(response, "nsStyle"), Prop(response, "ts"))
  }

  /** `results.status`: still `{}`, the filtered response, or the error of the request. */
  datatype StatusResult = NoStatus | Reported(status: StatusDoc) | Failed(error: Json)

  /** The `results` object of the command. */
  class Results {
    var config: Json
    var status: StatusResult
    var health: Json
    var log: seq<LogRecord>

    constructor()
      ensures config == Obj(map[]) && status == NoStatus && health == Arr([]) && log == []
    {
      config := Obj(map[]);
      status := NoStatus;
      health := Arr([]);
      log := [];
    }

    /** A logcat response appends one record and changes nothing else. */
    method OnLogcat(response: Json)
      modifies this
      ensures log == old(log) + [Project(response)]
      ensures config == old(config) && status == old(status) && health == old(health)
    {
      log := log + [Project(response)];
    }

    /** The config request: the daemon's config, or on error the locally loaded one. */
    method OnConfig(outcome: Result<Json, Json>, localConfig: Json)
      modifies this
      ensures config == (if outcome.Ok? then outcome.value else localConfig)
      ensures log == old(log) && status == old(status) && health == old(health)
    {
      if outcome.Ok? {
        config := outcome.value;
      } else {
        config := localConfig;
      }
    }

    /** The health request: the response, or on error `health` stays as it was. */
    method OnHealth(outcome: Result<Json, Json>)
      modifies this
      ensures health == (if outcome.Ok? then outcome.value else old(health))
      ensures log == old(log) && status == old(status) && config == old(config)
    {
      if outcome.Ok? {
        health := outcome.value;
      }
    }

    /** The status request: the filtered response, or on error the error itself. */
    method OnStatus(outcome: Result<StatusDoc, Json>)
      modifies this
      ensures status == (if outcome.Ok? then Reported(StatusFiltered(outcome.value)) else Failed(outcome.error))
      ensures log == old(log) && health == old(health) && config == old(config)
    {
      if outcome.Ok? {
        var filtered := FilterStatus(outcome.value);
        status := Reported(filtered);
      } else {
        status := Failed(outcome.error);
      }
    }
  }

  // ---------------------------------------------------------------------
  // Where the dump goes

  datatype Target = Stdout | WriteFile(path: string, launchViewer: bool)

  /**
   * The final step: `--view` without a file argument picks
   * `tmpdir/appcd-dump.json`; a file is resolved and written, and opened
   * in the viewer with `--view`; otherwise the dump goes to stdout.
   */
  function ChooseTarget(file: Option<string>, view: bool, tmpdir: string,
                        join: (string, string) -> string, resolve: string -> string): (t: Target)
    ensures var absent := file.None? || file == Some("");
            var fallback := join(tmpdir, "appcd-dump.json");
            (!absent ==> t == WriteFile(resolve(file.value), view)) &&
            (absent && view && fallback != "" ==> t == WriteFile(resolve(fallback), true)) &&
            (t == Stdout <==> absent && (!view || fallback == ""))
  {
    var absent := file.None? || file.value == "";
    var chosen := if view && absent then Some(join(tmpdir, "appcd-dump.json")) else file;
    if chosen.Some? && chosen.value != "" then WriteFile(resolve(chosen.value), view) else Stdout
  }
}
