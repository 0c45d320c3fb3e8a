/** The watchdog's HTTP setters (watchdog/routes/set_config.py and
    watchdog/routes/setters.py): request validation, the base64 character
    filter and the calls made on the process monitor.

    A request body is what `request.get_json(silent=True)` returns: `None`
    when the body is not JSON. The Flask application is its config entry
    `B64_CONFIG_FILE` and its `process_monitor` extension; everything the
    handlers do to the outside world is recorded, in order, as an `Effect`.
    An exception that escapes a handler (Flask answers it with 500) is the
    `Raised` outcome, carrying the effects that happened before it. */
module Watchdog {
  import opened Wrappers
  import opened JsonValue

  // ---- The base64 filter ------------------------------------------------------

  /** `str.isalnum`, for ASCII letters and digits. */
  predicate IsAlnum(c: char)
  {
    ('a' <= c <= 'z') || ('A' <= c <= 'Z') || ('0' <= c <= '9')
  }

  /** The characters the filter keeps: alphanumerics and `+`, `/`, `=`. */
  predicate Allowed(c: char)
  {
    IsAlnum(c) || c == '+' || c == '/' || c == '='
  }

  /** `_prep_for_validation`: the allowed characters of `s`, in order. */
  function PrepForValidation(s: string): (r: string)
    ensures |r| <= |s|
    ensures forall i :: 0 <= i < |r| ==> Allowed(r[i])
  {
    if s == [] then []
    else if Allowed(s[0]) then [s[0]] + PrepForValidation(s[1..])
    else PrepForValidation(s[1..])
  }

  /** `a` is `b` with some characters deleted. */
  predicate Subsequence(a: string, b: string)
    decreases |b|
  {
    if a == [] then true
    else if b == [] then false
    else if a[0] == b[0] then Subsequence(a[1..], b[1..])
    else Subsequence(a, b[1..])
  }

  /** The filter only deletes characters: its output is a subsequence of its
      input. */
  lemma {:induction false} PrepIsSubsequence(s: string)
    ensures Subsequence(PrepForValidation(s), s)
  {
    if s != [] {
      PrepIsSubsequence(s[1..]);
      if !Allowed(s[0]) {
        SubsequenceDropFront(PrepForValidation(s[1..]), s[0], s[1..]);
      }
    }
  }

  lemma {:induction false} SubsequenceDropFront(a: string, c: char, b: string)
    requires Subsequence(a, b)
    ensures Subsequence(a, [c] + b)
    decreases |b|, 1
  {
    var cb := [c] + b;
    assert cb[1..] == b;
    if a != [] && a[0] == c {
      SubsequenceTail(a, b);
    }
  }

  lemma {:induction false} SubsequenceTail(a: string, b: string)
    requires a != [] && Subsequence(a, b)
    ensures Subsequence(a[1..], b)
    decreases |b|, 0
  {
    if a[0] == b[0] {
      SubsequenceDropFront(a[1..], b[0], b[1..]);
      assert [b[0]] + b[1..] == b;
    } else {
      SubsequenceTail(a, b[1..]);
      SubsequenceDropFront(a[1..], b[0], b[1..]);
      assert [b[0]] + b[1..] == b;
    }
  }

  /** Each allowed character occurs in the output as often as in the input,
      and no other character occurs at all. */
  lemma {:induction false} PrepCounts(s: string, c: char)
    ensures multiset(PrepForValidation(s))[c] == if Allowed(c) then multiset(s)[c] else 0
  {
    if s != [] {
      PrepCounts(s[1..], c);
      assert s == [s[0]] + s[1..];
    }
  }

  /** A string made only of allowed characters is returned unchanged. */
  lemma {:induction false} PrepKeepsAllowed(s: string)
    requires forall i :: 0 <= i < |s| ==> Allowed(s[i])
    ensures PrepForValidation(s) == s
  {
    if s != [] {
      PrepKeepsAllowed(s[1..]);
    }
  }

  /** Filtering twice is filtering once. */
  lemma PrepIdempotent(s: string)
    ensures PrepForValidation(PrepForValidation(s)) == PrepForValidation(s)
  {
    PrepKeepsAllowed(PrepForValidation(s));
  }

  // ---- The application and the outcomes --------------------------------------

  /** A `ProcessMonitor` as far as the handlers consult it. */
  datatype Monitor = Monitor(configExists: bool)

  /** The Flask application: `B64_CONFIG_FILE` (`None` when missing or not a
      string) and the `process_monitor` extension (`None` when missing or
      not a ProcessMonitor). */
  datatype App = App(configFile: Option<string>, monitor: Option<Monitor>)

  datatype Effect =
    | WriteConfig(path: string, contents: string)
    | RefreshConfig
    | StartProcess(name: string)
    | StopProcess(name: string)
    | AbortAll
    | SetProcesses(names: seq<string>)

  datatype Outcome =
    | Reply(status: int, effects: seq<Effect>)
    | Raised(effects: seq<Effect>)

  /** `data.get(key)` on a decoded body: `None` when the body is not an object
      or has no such key. */
  function Get(body: Option<Json>, key: string): Option<Json>
  {
    if body.Some? && body.value.JObj? && key in body.value.fields then Some(body.value.fields[key])
    else None
  }

  predicate IsObject(body: Option<Json>)
  {
    body.Some? && body.value.JObj?
  }

  /** `isinstance(x, list) and all(isinstance(p, str) for p in x)`. */
  predicate StringList(x: Option<Json>)
  {
    x.Some? && x.value.JArr? && forall i :: 0 <= i < |x.value.items| ==> x.value.items[i].JStr?
  }

  /** The names of a list of JSON strings. */
  function Names(items: seq<Json>): (r: seq<string>)
    requires forall i :: 0 <= i < |items| ==> items[i].JStr?
    ensures |r| == |items| && forall i :: 0 <= i < |r| ==> items[i] == JStr(r[i])
  {
    seq(|items|, i requires 0 <= i < |items| => items[i].s)
  }

  // ---- watchdog/routes/set_config.py -------------------------------------------

  /** `set_config` in set_config.py: 400 for a non-object body or a missing or
      non-string `config_base64`; 500 for an empty config path, before
      writing; otherwise the filtered string is written, then 500 without a
      monitor and 200 after `refresh_config` with one. */
  function SetConfig(app: App, body: Option<Json>): (r: Outcome)
    ensures r.Reply?
    ensures r.effects != [] ==> IsObject(body) && app.configFile.Some?
    ensures r.status == 200 ==> app.monitor.Some? && |r.effects| == 2
  {
    if !IsObject(body) then Reply(400, [])
    else
      var cb := Get(body, "config_base64");
      if !(cb.Some? && cb.value.JStr?) then Reply(400, [])
      else
        var path := if app.configFile.Some? then app.configFile.value else "";
        if path == "" then Reply(500, [])
        else
          var write := WriteConfig(path, PrepForValidation(cb.value.s));
          if app.monitor.None? then Reply(500, [write])
          else Reply(200, [write, RefreshConfig])
  }

  /** Invalid input is rejected with 400 before anything is written. */
  lemma SetConfigRejects(app: App, body: Option<Json>)
    requires !IsObject(body) || !(Get(body, "config_base64").Some? && Get(body, "config_base64").value.JStr?)
    ensures SetConfig(app, body) == Reply(400, [])
  {
  }

  /** With a valid body and a config path, the first effect writes the
      filtered string, and the reply is 200 exactly when a monitor exists,
      which is then asked to reload. */
  lemma SetConfigWrites(app: App, body: Option<Json>, s: string)
    requires IsObject(body) && Get(body, "config_base64") == Some(JStr(s))
    requires app.configFile.Some? && app.configFile.value != ""
    ensures SetConfig(app, body).Reply?
    ensures SetConfig(app, body).effects[0] == WriteConfig(app.configFile.value, PrepForValidation(s))
    ensures SetConfig(app, body).status == 200 <==> app.monitor.Some?
    ensures app.monitor.Some? ==> SetConfig(app, body).effects == [WriteConfig(app.configFile.value, PrepForValidation(s)), RefreshConfig]
  {
  }

  // ---- watchdog/routes/setters.py ---------------------------------------------

  /** `set_config` in setters.py: 400 for a non-object body or a non-string
      `config_base64`. The config path is cast, not checked: a missing one
      makes `open` raise, and so does the empty path. */
  function SetConfigRoute(app: App, body: Option<Json>): (r: Outcome)
    ensures r.Raised? ==> r.effects == [] && IsObject(body)
    ensures r.effects != [] ==> IsObject(body) && app.configFile.Some?
    ensures r.Reply? && r.status == 200 ==> app.monitor.Some? && |r.effects| == 2
  {
    var cb := Get(body, "config_base64");
    if !IsObject(body) || !(cb.Some? && cb.value.JStr?) then Reply(400, [])
    else if app.configFile.None? || app.configFile.value == "" then Raised([])
    else
      var write := WriteConfig(app.configFile.value, PrepForValidation(cb.value.s));
      if app.monitor.None? then Reply(500, [write])
      else Reply(200, [write, RefreshConfig])
  }

  /** The two `/set/config` handlers agree on every request once a config
      path is set; without one, set_config.py answers 500 where setters.py
      raises, and neither writes. */
  lemma SetConfigHandlersAgree(app: App, body: Option<Json>)
    ensures app.configFile.Some? && app.configFile.value != "" ==> SetConfigRoute(app, body) == SetConfig(app, body)
    ensures (app.configFile.None? || app.configFile.value == "") ==>
      SetConfig(app, body).effects == [] && SetConfigRoute(app, body).effects == []
  {
  }

  /** The effect of the loop `for name in names: call(name)`. */
  function Each(names: seq<string>, start: bool): (r: seq<Effect>)
    ensures |r| == |names|
    ensures forall i :: 0 <= i < |r| ==> r[i] == if start then StartProcess(names[i]) else StopProcess(names[i])
  {
    seq(|names|, i requires 0 <= i < |names| => if start then StartProcess(names[i]) else StopProcess(names[i]))
  }

  /** `start_process`: 400 unless `process_types` is a list of strings; 500
      without a monitor; 400 when no config exists; otherwise every name is
      started, in order. */
  function StartProcessRoute(app: App, body: Option<Json>): (r: Outcome)
    ensures r.Reply?
    ensures r.effects != [] ==> r.status == 200 && app.monitor.Some?
  {
    var pt := Get(body, "process_types");
    if !StringList(pt) then Reply(400, [])
    else if app.monitor.None? then Reply(500, [])
    else if !app.monitor.value.configExists then Reply(400, [])
    else Reply(200, Each(Names(pt.value.items), true))
  }

  /** `stop_all_processes`: 500 without a monitor, else abort everything. */
  function StopAllRoute(app: App): (r: Outcome)
    ensures r.Reply? && (r.status == 200 <==> app.monitor.Some?)
    ensures r.status == 200 ==> r.effects == [AbortAll]
    ensures r.status != 200 ==> r.effects == []
  {
    if app.monitor.None? then Reply(500, []) else Reply(200, [AbortAll])
  }

  /** `[x for x in xs if isinstance(x, str)]`. */
  function Strings(xs: seq<Json>): (r: seq<string>)
    ensures |r| <= |xs|
  {
    if xs == [] then []
    else if xs[0].JStr? then [xs[0].s] + Strings(xs[1..])
    else Strings(xs[1..])
  }

  /** Comparing the lengths, as `stop_process` does, is the same check as
      `all(isinstance(p, str) ...)`, and the kept strings are then the
      list's own. */
  lemma {:induction false} StringsAll(xs: seq<Json>)
    ensures |Strings(xs)| == |xs| <==> forall i :: 0 <= i < |xs| ==> xs[i].JStr?
    ensures (forall i :: 0 <= i < |xs| ==> xs[i].JStr?) ==> Strings(xs) == Names(xs)
  {
    if xs != [] {
      StringsAll(xs[1..]);
      if !xs[0].JStr? {
        assert !(forall i :: 0 <= i < |xs| ==> xs[i].JStr?) by {
          assert !xs[0].JStr?;
        }
      } else {
        assert forall i :: 1 <= i < |xs| ==> xs[i] == xs[1..][i - 1];
      }
    }
  }

  /** `stop_process`: 400 for a non-object body, a non-list `process_types`
      or a non-string element. The monitor is cast, not checked: without one
      the first `stop_process` call raises, so an empty list still gets 200. */
  function StopProcessRoute(app: App, body: Option<Json>): (r: Outcome)
    ensures r.Raised? ==> r.effects == [] && app.monitor.None?
    ensures r.effects != [] ==> r.Reply? && r.status == 200
  {
    if !IsObject(body) then Reply(400, [])
    else
      var pt := Get(body, "process_types");
      if !(pt.Some? && pt.value.JArr?) then Reply(400, [])
      else
        var names := Strings(pt.value.items);
        if |names| != |pt.value.items| then Reply(400, [])
        else if app.monitor.None? && |names| > 0 then Raised([])
        else Reply(200, Each(names, false))
  }

  /** `set_processes`: the validation of `start_process`, then one
      `set_processes` call with the whole list. */
  function SetProcessesRoute(app: App, body: Option<Json>): (r: Outcome)
    ensures r.Reply?
    ensures r.status == 200 <==> |r.effects| == 1
  {
    var pt := Get(body, "process_types");
    if !StringList(pt) then Reply(400, [])
    else if app.monitor.None? then Reply(500, [])
    else if !app.monitor.value.configExists then Reply(400, [])
    else Reply(200, [SetProcesses(Names(pt.value.items))])
  }

  /** `/start/process` and `/set/processes` act only on a list of strings with
      a monitor whose config exists; they then reply 200 and hand over
      exactly the listed names, in order. */
  lemma StartAndSetProcesses(app: App, body: Option<Json>)
    ensures StartProcessRoute(app, body).Reply? && SetProcessesRoute(app, body).Reply?
    ensures var ok := StringList(Get(body, "process_types")) && app.monitor.Some? && app.monitor.value.configExists;
      (StartProcessRoute(app, body).status == 200 <==> ok)
      && (SetProcessesRoute(app, body).status == 200 <==> ok)
      && (!ok ==> StartProcessRoute(app, body).effects == [] && SetProcessesRoute(app, body).effects == [])
      && (ok ==> var names := Names(Get(body, "process_types").value.items);
                 StartProcessRoute(app, body).effects == Each(names, true)
                 && SetProcessesRoute(app, body).effects == [SetProcesses(names)])
  {
  }

  /** `/stop/process` accepts the same bodies as `/start/process` (an object
      whose `process_types` is a list of strings) and, with a monitor, stops
      the listed names in order. */
  lemma StopProcessValidation(app: App, body: Option<Json>)
    ensures StopProcessRoute(app, body) == Reply(400, []) <==> !StringList(Get(body, "process_types"))
    ensures StringList(Get(body, "process_types")) && app.monitor.Some? ==>
      StopProcessRoute(app, body) == Reply(200, Each(Names(Get(body, "process_types").value.items), false))
  {
    var pt := Get(body, "process_types");
    if pt.Some? && pt.value.JArr? {
      StringsAll(pt.value.items);
    }
  }
}
