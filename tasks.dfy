/** The plugin installer's task module: resolving a plugin's source to a
    package URL, the paths of the virtualenv's tools, the command lines it
    runs, and the in-order installation of a blueprint's plugins.

    The process environment and the task context become a `Config` value;
    the command runner becomes `runs` (does this command exit with status
    zero?) and the helper that reads the installed package's name becomes
    `extract` (None when it raises). What the installer does to the outside
    world is recorded as a log of effects. */
module Tasks {
  import opened Strings
  import opened Wrappers

  /** A plugin descriptor from the blueprint. */
  datatype Plugin = Plugin(name: string, source: string)

  /** What the source reads from the environment and the task context. */
  datatype Config = Config(
    blueprintsRoot: string, // the file server's blueprints root URL
    blueprintId: string,    // the id of the blueprint being deployed
    virtualenv: string,     // the agent's virtualenv directory
    taskTarget: string)     // the queue the plugin is registered for

  /** The failures, all non-recoverable. `InvalidSchema(s)` is raised with
      the message `SchemaMessage(s)`. */
  datatype Error =
    | InvalidSchema(schema: string)
    | CommandFailed(command: string)
    | ExtractFailed(url: string)

  const SchemeSeparator: string := "://"

  // ---------------------------------------------------------------------
  // Source URL resolution

  /** `get_url`: a source holding "://" is a URL whose scheme (the text before
      the first "://") must be http or https; any other source is a path
      relative to the blueprint's plugins directory on the file server. */
  function GetUrl(blueprintsRoot: string, blueprintId: string, plugin: Plugin): (r: Result<string, Error>)
    ensures r.Err? ==> r.error.InvalidSchema?
    ensures r.Err? ==> StartsWith(plugin.source, r.error.schema + SchemeSeparator)
    ensures r.Err? ==> !Contains(r.error.schema, SchemeSeparator)
    ensures r.Err? ==> r.error.schema != "http" && r.error.schema != "https"
  {
    var source := plugin.source;
    if Contains(source, SchemeSeparator) then
      var schema := Split(source, SchemeSeparator)[0];
      SchemeBeforeFirst(source);
      if schema in ["http", "https"] then
        Ok(source)
      else
        Err(InvalidSchema(schema))
    else
      var blueprintPluginsUrl := blueprintsRoot + "/" + blueprintId + "/plugins";
      Ok(blueprintPluginsUrl + "/" + source + ".zip")
  }

  /** The first piece of a split at "://" is followed by the separator and holds none. */
  lemma SchemeBeforeFirst(source: string)
    requires Contains(source, SchemeSeparator)
    ensures var schema := Split(source, SchemeSeparator)[0];
      StartsWith(source, schema + SchemeSeparator) && !Contains(schema, SchemeSeparator)
  {
    var i := Find(source, SchemeSeparator);
    SplitPiecesFree(source, SchemeSeparator);
    assert Split(source, SchemeSeparator)[0] == source[..i];
    assert source[..i + 3] == source[..i] + source[i..i + 3];
  }

  /** The message of the error raised for a rejected scheme. */
  function SchemaMessage(schema: string): (m: string)
    ensures StartsWith(m, "Invalid schema: ") && m[|"Invalid schema: "|..] == schema
  {
    "Invalid schema: " + schema
  }

  /** In `scheme + "://" + rest`, when `scheme` holds no "://", the first
      separator is the one right after `scheme`, whatever `rest` holds. */
  lemma FirstSeparator(scheme: string, rest: string)
    requires !Contains(scheme, SchemeSeparator)
    ensures Split(scheme + SchemeSeparator + rest, SchemeSeparator)[0] == scheme
  {
    var s := scheme + SchemeSeparator + rest;
    var n := |scheme|;
    assert s[n..n + 3] == SchemeSeparator;
    assert OccursAt(s, SchemeSeparator, n);
    forall j: nat | j < n ensures !OccursAt(s, SchemeSeparator, j) {
      if j + 3 <= n {
        assert s[j..j + 3] == scheme[j..j + 3];
        assert !(j <= |scheme| && OccursAt(scheme, SchemeSeparator, j));
      } else if j == n - 1 {
        assert s[j + 1] == ':';
        assert s[j..j + 3][1] == s[j + 1];
      } else {
        assert s[j + 2] == ':';
        assert s[j..j + 3][2] == s[j + 2];
      }
    }
    var i := Find(s, SchemeSeparator);
    assert i == n;
    assert s[..n] == scheme;
  }

  /** A source `scheme://rest` is returned unchanged when the scheme is http
      or https and rejected, naming the scheme, otherwise; `rest` may itself
      hold "://" (so `http://a://b` is accepted) and the scheme may be empty. */
  lemma SchemeDecides(blueprintsRoot: string, blueprintId: string, name: string, scheme: string, rest: string)
    requires !Contains(scheme, SchemeSeparator)
    ensures var source := scheme + SchemeSeparator + rest;
      GetUrl(blueprintsRoot, blueprintId, Plugin(name, source)) ==
        if scheme == "http" || scheme == "https" then Ok(source) else Err(InvalidSchema(scheme))
  {
    var source := scheme + SchemeSeparator + rest;
    FirstSeparator(scheme, rest);
    assert source[|scheme|..|scheme| + 3] == SchemeSeparator;
    assert OccursAt(source, SchemeSeparator, |scheme|);
  }

  /** The scheme "http" (or "https") holds no separator. */
  lemma HttpHasNoSeparator()
    ensures !Contains("http", SchemeSeparator) && !Contains("https", SchemeSeparator)
  {
    forall j: nat | j <= 4 ensures !OccursAt("http", SchemeSeparator, j) && !OccursAt("https", SchemeSeparator, j) {
      if j + 3 <= 4 {
        assert "http"[j..j + 3][0] == "http"[j];
      }
      if j + 3 <= 5 {
        assert "https"[j..j + 3][0] == "https"[j];
      }
    }
  }

  /** A source beginning with "http://" or "https://" is returned unchanged. */
  lemma HttpReturnedUnchanged(blueprintsRoot: string, blueprintId: string, plugin: Plugin)
    requires StartsWith(plugin.source, "http://") || StartsWith(plugin.source, "https://")
    ensures GetUrl(blueprintsRoot, blueprintId, plugin) == Ok(plugin.source)
  {
    var source := plugin.source;
    HttpHasNoSeparator();
    if StartsWith(source, "http://") {
      assert source == "http" + SchemeSeparator + source[7..];
      SchemeDecides(blueprintsRoot, blueprintId, plugin.name, "http", source[7..]);
    } else {
      assert source == "https" + SchemeSeparator + source[8..];
      SchemeDecides(blueprintsRoot, blueprintId, plugin.name, "https", source[8..]);
    }
  }

  /** A source is returned unchanged exactly when it begins with "http://" or "https://". */
  lemma ReturnedUnchanged(blueprintsRoot: string, blueprintId: string, plugin: Plugin)
    ensures GetUrl(blueprintsRoot, blueprintId, plugin) == Ok(plugin.source) <==>
      StartsWith(plugin.source, "http://") || StartsWith(plugin.source, "https://")
  {
    var source := plugin.source;
    if StartsWith(source, "http://") || StartsWith(source, "https://") {
      HttpReturnedUnchanged(blueprintsRoot, blueprintId, plugin);
    } else if Contains(source, SchemeSeparator) {
      var schema := Split(source, SchemeSeparator)[0];
      SchemeBeforeFirst(source);
      assert "http" + SchemeSeparator == "http://" && "https" + SchemeSeparator == "https://";
      assert schema != "http" && schema != "https";
      assert GetUrl(blueprintsRoot, blueprintId, plugin) == Err(InvalidSchema(schema));
    } else {
      var r := GetUrl(blueprintsRoot, blueprintId, plugin);
      assert |r.value| > |source|;
    }
  }

  /** The directory every relative source resolves into, with its trailing slash. */
  function PluginsPrefix(blueprintsRoot: string, blueprintId: string): string {
    blueprintsRoot + "/" + blueprintId + "/plugins/"
  }

  /** The inverse of relative resolution: the source that a file-server URL came from. */
  function RelativeSource(blueprintsRoot: string, blueprintId: string, url: string): (source: Option<string>)
    ensures source.Some? ==> url == PluginsPrefix(blueprintsRoot, blueprintId) + source.value + ".zip"
  {
    var prefix := PluginsPrefix(blueprintsRoot, blueprintId);
    if |prefix| + 4 <= |url| && StartsWith(url, prefix) && EndsWith(url, ".zip") then
      var source := url[|prefix|..|url| - 4];
      assert url == url[..|prefix|] + source + url[|url| - 4..];
      Some(source)
    else
      None
  }

  /** A source without "://" never fails: it resolves to
      `<root>/<blueprint id>/plugins/<source>.zip`, which begins with the root,
      ends with ".zip", and gives the source back. */
  lemma RelativeRoundTrip(blueprintsRoot: string, blueprintId: string, plugin: Plugin)
    requires !Contains(plugin.source, SchemeSeparator)
    ensures var r := GetUrl(blueprintsRoot, blueprintId, plugin);
      r.Ok? &&
      r.value == PluginsPrefix(blueprintsRoot, blueprintId) + plugin.source + ".zip" &&
      StartsWith(r.value, blueprintsRoot) && EndsWith(r.value, ".zip") &&
      RelativeSource(blueprintsRoot, blueprintId, r.value) == Some(plugin.source)
  {
    var url := GetUrl(blueprintsRoot, blueprintId, plugin).value;
    var prefix := PluginsPrefix(blueprintsRoot, blueprintId);
    assert url == prefix + plugin.source + ".zip";
    assert url[..|prefix|] == prefix;
    assert url[|url| - 4..] == ".zip";
    assert url[..|blueprintsRoot|] == blueprintsRoot;
    assert url[|prefix|..|url| - 4] == plugin.source;
  }

  /** Two relative sources of one blueprint never resolve to the same URL. */
  lemma RelativeInjective(blueprintsRoot: string, blueprintId: string, p: Plugin, q: Plugin)
    requires !Contains(p.source, SchemeSeparator) && !Contains(q.source, SchemeSeparator)
    requires GetUrl(blueprintsRoot, blueprintId, p) == GetUrl(blueprintsRoot, blueprintId, q)
    ensures p.source == q.source
  {
    RelativeRoundTrip(blueprintsRoot, blueprintId, p);
    RelativeRoundTrip(blueprintsRoot, blueprintId, q);
  }

  // ---------------------------------------------------------------------
  // Tool paths and command lines

  /** `os.path.join(a, b)` on POSIX: an absolute `b` replaces `a`; otherwise one
      slash separates them unless `a` is empty or already ends with one. */
  function PathJoin(a: string, b: string): (r: string)
    ensures EndsWith(r, b)
    ensures (b == "" || b[0] != '/') ==> StartsWith(r, a)
    ensures (b == "" || b[0] != '/') ==>
      |r| == |a| + |b| + (if a == "" || a[|a| - 1] == '/' then 0 else 1)
    ensures (b == "" || b[0] != '/') && a != "" && a[|a| - 1] != '/' ==> r[|a|] == '/'
  {
    if |b| > 0 && b[0] == '/' then b
    else if a == "" || a[|a| - 1] == '/' then a + b
    else a + "/" + b
  }

  /** The virtualenv's executables directory, followed by a slash. */
  function BinDir(prefix: string): string {
    PathJoin(prefix, "bin") + "/"
  }

  /** `_virtualenv`: the path of a command in the virtualenv's bin directory;
      for a relative command name it is the bin directory followed by the name. */
  function Virtualenv(prefix: string, command: string): (path: string)
    ensures (command == "" || command[0] != '/') ==> path == BinDir(prefix) + command
  {
    var bin := PathJoin(prefix, "bin");
    assert bin[|bin| - 1] == "bin"[2];
    PathJoin(bin, command)
  }

  /** The usual case: a virtualenv directory without a trailing slash. */
  lemma PlainPrefixToolPath(prefix: string, command: string)
    requires prefix != "" && prefix[|prefix| - 1] != '/' && (command == "" || command[0] != '/')
    ensures Virtualenv(prefix, command) == prefix + "/bin/" + command
  {
    assert PathJoin(prefix, "bin") == prefix + "/" + "bin";
    assert prefix + "/" + "bin" + "/" + command == prefix + "/bin/" + command;
  }

  /** A virtualenv directory given with a trailing slash gets no second one. */
  lemma SlashPrefixToolPath(prefix: string, command: string)
    requires prefix != "" && prefix[|prefix| - 1] == '/' && (command == "" || command[0] != '/')
    ensures Virtualenv(prefix, command) == prefix + "bin/" + command
  {
    assert PathJoin(prefix, "bin") == prefix + "bin";
    assert prefix + "bin" + "/" + command == prefix + "bin/" + command;
  }

  /** `_python`. */
  function Python(prefix: string): (path: string)
    ensures path == BinDir(prefix) + "python"
  {
    Virtualenv(prefix, "python")
  }

  /** `_pip`. */
  function Pip(prefix: string): (path: string)
    ensures path == BinDir(prefix) + "pip"
  {
    Virtualenv(prefix, "pip")
  }

  /** `_cloudify_agent`. */
  function CloudifyAgent(prefix: string): (path: string)
    ensures path == BinDir(prefix) + "cloudify-agent"
  {
    Virtualenv(prefix, "cloudify-agent")
  }

  /** `install_package`'s command line: pip's path, the word `install`, then
      the URL, which can be read back from the command. */
  function InstallCommand(prefix: string, url: string): (command: string)
    ensures StartsWith(command, Pip(prefix) + " install ")
    ensures command[|Pip(prefix) + " install "|..] == url
  {
    var head := Pip(prefix) + " install ";
    assert (head + url)[..|head|] == head;
    head + url
  }

  /** The daemon registration command line of `install_plugin`. */
  function RegisterCommand(prefix: string, queue: string, pluginName: string): (command: string)
    ensures StartsWith(command, CloudifyAgent(prefix) + " daemon register --queue=" + queue)
    ensures EndsWith(command, " --plugin=" + pluginName)
    ensures |command| == |CloudifyAgent(prefix) + " daemon register --queue=" + queue| + |" --plugin=" + pluginName|
  {
    var head := CloudifyAgent(prefix) + " daemon register --queue=" + queue;
    var tail := " --plugin=" + pluginName;
    assert (head + tail)[..|head|] == head;
    assert (head + tail)[|head + tail| - |tail|..] == tail;
    head + tail
  }

  // ---------------------------------------------------------------------
  // Installing plugins

  /** What the installer does to the outside world: run a command line, or
      unpack a package to read its declared name. */
  datatype Effect = Ran(command: string) | Extracted(url: string)

  /** The effects performed and the error raised, if any. */
  datatype Outcome = Outcome(log: seq<Effect>, failure: Option<Error>)

  /** `install_plugin`: resolve the URL, install the package, read the
      plugin's name, register it with the daemon; each step runs only when
      the previous one succeeded. */
  function InstallPlugin(cfg: Config, runs: string -> bool, extract: string -> Option<string>,
                         plugin: Plugin): (o: Outcome)
    ensures GetUrl(cfg.blueprintsRoot, cfg.blueprintId, plugin).Err? ==>
      o == Outcome([], Some(GetUrl(cfg.blueprintsRoot, cfg.blueprintId, plugin).error))
    ensures GetUrl(cfg.blueprintsRoot, cfg.blueprintId, plugin).Ok? ==>
      |o.log| >= 1 && o.log[0] == Ran(InstallCommand(cfg.virtualenv, GetUrl(cfg.blueprintsRoot, cfg.blueprintId, plugin).value))
    ensures o.failure.None? ==>
      |o.log| == 3 && o.log[1].Extracted? && extract(o.log[1].url).Some? &&
      o.log[2] == Ran(RegisterCommand(cfg.virtualenv, cfg.taskTarget, extract(o.log[1].url).value))
    ensures o.failure.Some? && o.failure.value.CommandFailed? ==>
      o.log != [] && o.log[|o.log| - 1] == Ran(o.failure.value.command) && !runs(o.failure.value.command)
    ensures var resolved := GetUrl(cfg.blueprintsRoot, cfg.blueprintId, plugin);
      resolved.Ok? && !runs(InstallCommand(cfg.virtualenv, resolved.value)) ==>
        o == Outcome([Ran(InstallCommand(cfg.virtualenv, resolved.value))],
                     Some(CommandFailed(InstallCommand(cfg.virtualenv, resolved.value))))
    ensures var resolved := GetUrl(cfg.blueprintsRoot, cfg.blueprintId, plugin);
      resolved.Ok? && runs(InstallCommand(cfg.virtualenv, resolved.value)) && extract(resolved.value).None? ==>
        o == Outcome([Ran(InstallCommand(cfg.virtualenv, resolved.value)), Extracted(resolved.value)],
                     Some(ExtractFailed(resolved.value)))
    ensures var resolved := GetUrl(cfg.blueprintsRoot, cfg.blueprintId, plugin);
      o.failure.None? <==>
        resolved.Ok? && runs(InstallCommand(cfg.virtualenv, resolved.value)) &&
        extract(resolved.value).Some? &&
        runs(RegisterCommand(cfg.virtualenv, cfg.taskTarget, extract(resolved.value).value))
    ensures o.failure.None? ==>
      o.log[1] == Extracted(GetUrl(cfg.blueprintsRoot, cfg.blueprintId, plugin).value)
    ensures var resolved := GetUrl(cfg.blueprintsRoot, cfg.blueprintId, plugin);
      resolved.Ok? && runs(InstallCommand(cfg.virtualenv, resolved.value)) &&
      extract(resolved.value).Some? &&
      !runs(RegisterCommand(cfg.virtualenv, cfg.taskTarget, extract(resolved.value).value)) ==>
        o == Outcome([Ran(InstallCommand(cfg.virtualenv, resolved.value)), Extracted(resolved.value),
                      Ran(RegisterCommand(cfg.virtualenv, cfg.taskTarget, extract(resolved.value).value))],
                     Some(CommandFailed(RegisterCommand(cfg.virtualenv, cfg.taskTarget, extract(resolved.value).value))))
  {
    match GetUrl(cfg.blueprintsRoot, cfg.blueprintId, plugin)
    case Err(e) => Outcome([], Some(e))
    case Ok(url) => InstallFrom(cfg, runs, extract, url)
  }

  /** The steps of `install_plugin` once the URL is resolved: install,
      read the name, register; each runs only when the previous succeeded. */
  function InstallFrom(cfg: Config, runs: string -> bool, extract: string -> Option<string>,
                       url: string): (o: Outcome)
    ensures var install := InstallCommand(cfg.virtualenv, url);
      !runs(install) ==> o == Outcome([Ran(install)], Some(CommandFailed(install)))
    ensures var install := InstallCommand(cfg.virtualenv, url);
      runs(install) && extract(url).None? ==>
        o == Outcome([Ran(install), Extracted(url)], Some(ExtractFailed(url)))
    ensures var install := InstallCommand(cfg.virtualenv, url);
      runs(install) && extract(url).Some? ==>
        var register := RegisterCommand(cfg.virtualenv, cfg.taskTarget, extract(url).value);
        o == Outcome([Ran(install), Extracted(url), Ran(register)],
                     if runs(register) then None else Some(CommandFailed(register)))
  {
    var install := InstallCommand(cfg.virtualenv, url);
    if !runs(install) then
      Outcome([Ran(install)], Some(CommandFailed(install)))
    else
      match extract(url)
      case None => Outcome([Ran(install), Extracted(url)], Some(ExtractFailed(url)))
      case Some(pluginName) =>
        var register := RegisterCommand(cfg.virtualenv, cfg.taskTarget, pluginName);
        var log := [Ran(install), Extracted(url), Ran(register)];
        if runs(register) then Outcome(log, None) else Outcome(log, Some(CommandFailed(register)))
  }

  /** Sequencing: the second outcome happens only when the first succeeded. */
  function Then(first: Outcome, second: Outcome): Outcome {
    if first.failure.Some? then first else Outcome(first.log + second.log, second.failure)
  }

  /** `install`, as a specification: the plugins in list order, stopping at the first error. */
  function InstallAll(cfg: Config, runs: string -> bool, extract: string -> Option<string>,
                      plugins: seq<Plugin>): (o: Outcome)
    ensures o.failure.None? ==> forall i :: 0 <= i < |plugins| ==> InstallPlugin(cfg, runs, extract, plugins[i]).failure.None?
    ensures o.failure.Some? ==> exists i :: 0 <= i < |plugins| && InstallPlugin(cfg, runs, extract, plugins[i]).failure == o.failure
    decreases |plugins|
  {
    if plugins == [] then Outcome([], None)
    else Then(InstallPlugin(cfg, runs, extract, plugins[0]), InstallAll(cfg, runs, extract, plugins[1..]))
  }

  /** The effects of installing every plugin of a list, one after another. */
  function Logs(cfg: Config, runs: string -> bool, extract: string -> Option<string>,
                plugins: seq<Plugin>): seq<Effect>
    decreases |plugins|
  {
    if plugins == [] then []
    else Logs(cfg, runs, extract, plugins[..|plugins| - 1]) + InstallPlugin(cfg, runs, extract, plugins[|plugins| - 1]).log
  }

  /** One step of `InstallAll` taken at position `k` of the list. */
  lemma InstallAllAt(cfg: Config, runs: string -> bool, extract: string -> Option<string>,
                     plugins: seq<Plugin>, k: nat)
    requires k < |plugins|
    ensures InstallAll(cfg, runs, extract, plugins[k..]) ==
      Then(InstallPlugin(cfg, runs, extract, plugins[k]), InstallAll(cfg, runs, extract, plugins[k + 1..]))
  {
    assert plugins[k..][1..] == plugins[k + 1..];
  }

  /** The effects of the first `k` plugins grow by the next plugin's effects. */
  lemma LogsStep(cfg: Config, runs: string -> bool, extract: string -> Option<string>,
                 plugins: seq<Plugin>, k: nat)
    requires k < |plugins|
    ensures Logs(cfg, runs, extract, plugins[..k + 1]) ==
      Logs(cfg, runs, extract, plugins[..k]) + InstallPlugin(cfg, runs, extract, plugins[k]).log
  {
    assert plugins[..k + 1][..k] == plugins[..k];
  }

  /** `install`: installs the plugins strictly in list order; the first error
      ends the loop, so no later plugin is touched. `done` counts the plugins
      installed completely. */
  method Install(cfg: Config, runs: string -> bool, extract: string -> Option<string>, plugins: seq<Plugin>)
    returns (log: seq<Effect>, failure: Option<Error>, done: nat)
    ensures Outcome(log, failure) == InstallAll(cfg, runs, extract, plugins)
    ensures done <= |plugins|
    ensures forall i :: 0 <= i < done ==> InstallPlugin(cfg, runs, extract, plugins[i]).failure.None?
    ensures failure.None? ==> done == |plugins|
    ensures failure.Some? ==> done < |plugins| && failure == InstallPlugin(cfg, runs, extract, plugins[done]).failure
    ensures log == Logs(cfg, runs, extract, plugins[..done]) +
      (if failure.Some? then InstallPlugin(cfg, runs, extract, plugins[done]).log else [])
  {
    log, failure, done := [], None, 0;
    while done < |plugins|
      invariant done <= |plugins|
      invariant forall i :: 0 <= i < done ==> InstallPlugin(cfg, runs, extract, plugins[i]).failure.None?
      invariant log == Logs(cfg, runs, extract, plugins[..done])
      invariant InstallAll(cfg, runs, extract, plugins) ==
        Then(Outcome(log, None), InstallAll(cfg, runs, extract, plugins[done..]))
    {
      var o := InstallPlugin(cfg, runs, extract, plugins[done]);
      InstallAllAt(cfg, runs, extract, plugins, done);
      if o.failure.Some? {
        log, failure := log + o.log, o.failure;
        return;
      }
      ThenAssociative(Outcome(log, None), o, InstallAll(cfg, runs, extract, plugins[done + 1..]));
      LogsStep(cfg, runs, extract, plugins, done);
      log, done := log + o.log, done + 1;
    }
    assert plugins[done..] == [];
  }

  /** Sequencing is associative. */
  lemma ThenAssociative(a: Outcome, b: Outcome, c: Outcome)
    ensures Then(a, Then(b, c)) == Then(Then(a, b), c)
  {
    if a.failure.None? && b.failure.None? {
      assert a.log + (b.log + c.log) == (a.log + b.log) + c.log;
    }
  }

  /** Installing `ps + qs` is installing `ps`, then `qs` if nothing failed. */
  lemma {:induction false} InstallAllAppend(cfg: Config, runs: string -> bool, extract: string -> Option<string>,
                                            ps: seq<Plugin>, qs: seq<Plugin>)
    ensures InstallAll(cfg, runs, extract, ps + qs) ==
      Then(InstallAll(cfg, runs, extract, ps), InstallAll(cfg, runs, extract, qs))
    decreases |ps|
  {
    if ps == [] {
      assert ps + qs == qs;
    } else {
      var first := InstallPlugin(cfg, runs, extract, ps[0]);
      assert (ps + qs)[0] == ps[0];
      assert (ps + qs)[1..] == ps[1..] + qs;
      assert InstallAll(cfg, runs, extract, ps + qs) == Then(first, InstallAll(cfg, runs, extract, ps[1..] + qs));
      InstallAllAppend(cfg, runs, extract, ps[1..], qs);
      ThenAssociative(first, InstallAll(cfg, runs, extract, ps[1..]), InstallAll(cfg, runs, extract, qs));
    }
  }

  /** Once a plugin fails, the plugins after it make no difference at all. */
  lemma FailureStopsInstall(cfg: Config, runs: string -> bool, extract: string -> Option<string>,
                            ps: seq<Plugin>, qs: seq<Plugin>)
    requires InstallAll(cfg, runs, extract, ps).failure.Some?
    ensures InstallAll(cfg, runs, extract, ps + qs) == InstallAll(cfg, runs, extract, ps)
  {
    InstallAllAppend(cfg, runs, extract, ps, qs);
  }
}
