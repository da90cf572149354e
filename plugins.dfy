/** Plugin reconciliation of the pre-prepare hook (src/pre-prepare.js):
    which plugins the manifest wants installed and not installed, how those
    lists are diffed against the plugins the build tool reports, and the
    `cordova plugin add/rm` commands that result. */
module PluginReconciler {
  import opened Base

  type PluginId = string

  /** What the manifest parser reports about plugins. */
  datatype ManifestPlugins = ManifestPlugins(
    toBeInstalled: seq<PluginId>,
    toBeNotInstalled: seq<PluginId>,
    notRecognized: seq<string>)

  /** The two lists the hook keeps across its promise chain. */
  datatype PluginLists = PluginLists(install: seq<PluginId>, notInstall: seq<PluginId>)

  /** One `cordova plugin` command. */
  datatype PluginCommand = Add(plugin: PluginId) | Remove(plugin: PluginId)

  /** The argument vector the command is run with. */
  function Argv(c: PluginCommand): (v: seq<string>)
    ensures |v| == 3 && v[0] == "plugin" && v[2] == c.plugin
    ensures v[1] == (if c.Add? then "add" else "rm")
  {
    match c
    case Add(p) => ["plugin", "add", p]
    case Remove(p) => ["plugin", "rm", p]
  }

  /** The argument vectors of a command list, in order. */
  function Argvs(cmds: seq<PluginCommand>): (vs: seq<seq<string>>)
    ensures |vs| == |cmds|
    ensures forall i :: 0 <= i < |cmds| ==> vs[i] == Argv(cmds[i])
  {
    if |cmds| == 0 then [] else [Argv(cmds[0])] + Argvs(cmds[1..])
  }

  /** `s.filter(p => ex.indexOf(p) == -1)`. */
  function Without(s: seq<PluginId>, ex: seq<PluginId>): (r: seq<PluginId>)
    ensures forall x :: x in r <==> x in s && x !in ex
    ensures IsSubsequence(r, s)
  {
    if |s| == 0 then []
    else if s[0] in ex then Without(s[1..], ex)
    else [s[0]] + Without(s[1..], ex)
  }

  /** `s.filter(p => inc.indexOf(p) != -1)`. */
  function Within(s: seq<PluginId>, inc: seq<PluginId>): (r: seq<PluginId>)
    ensures forall x :: x in r <==> x in s && x in inc
    ensures IsSubsequence(r, s)
  {
    if |s| == 0 then []
    else if s[0] in inc then [s[0]] + Within(s[1..], inc)
    else Within(s[1..], inc)
  }

  /** Filtering by a list and by its complement splits `s` in two. */
  lemma {:induction false} WithinWithoutSplit(s: seq<PluginId>, other: seq<PluginId>)
    ensures |Within(s, other)| + |Without(s, other)| == |s|
  {
    if |s| > 0 {
      WithinWithoutSplit(s[1..], other);
    }
  }

  /** Lines 42-46: required plugins then the defaults are installed; the
      forbidden plugins then the stale ones are not, unless also required. */
  function BuildLists(data: ManifestPlugins, defaults: seq<PluginId>, stale: seq<PluginId>): (l: PluginLists)
    ensures l.install == data.toBeInstalled + defaults
    ensures forall p :: p in l.notInstall <==> p in data.toBeNotInstalled + stale && p !in l.install
    ensures IsSubsequence(l.notInstall, data.toBeNotInstalled + stale)
  {
    var install := data.toBeInstalled + defaults;
    PluginLists(install, Without(data.toBeNotInstalled + stale, install))
  }

  function AddCommands(ps: seq<PluginId>): (cmds: seq<PluginCommand>)
    ensures |cmds| == |ps|
    ensures forall i :: 0 <= i < |ps| ==> cmds[i] == Add(ps[i])
  {
    if |ps| == 0 then [] else [Add(ps[0])] + AddCommands(ps[1..])
  }

  function RemoveCommands(ps: seq<PluginId>): (cmds: seq<PluginCommand>)
    ensures |cmds| == |ps|
    ensures forall i :: 0 <= i < |ps| ==> cmds[i] == Remove(ps[i])
  {
    if |ps| == 0 then [] else [Remove(ps[0])] + RemoveCommands(ps[1..])
  }

  /** Lines 145-149: every `add` first, then every `rm`, each in list order. */
  function Batch(missing: seq<PluginId>, excess: seq<PluginId>): (cmds: seq<PluginCommand>)
    ensures |cmds| == |missing| + |excess|
    ensures forall i :: 0 <= i < |missing| ==> cmds[i] == Add(missing[i])
    ensures forall i :: 0 <= i < |excess| ==> cmds[|missing| + i] == Remove(excess[i])
  {
    var adds, removes := AddCommands(missing), RemoveCommands(excess);
    assert forall i :: 0 <= i < |excess| ==> (adds + removes)[|missing| + i] == removes[i];
    adds + removes
  }

  /** Lines 134-150: `None` when no command batch is run at all, otherwise
      the batch: every missing plugin added, then every excess one removed. */
  function Reconcile(lists: PluginLists, notRecognized: seq<string>, installed: seq<PluginId>)
    : (r: Option<seq<PluginCommand>>)
    ensures r.None? <==>
              (forall p :: p in lists.install ==> p in installed) &&
              (forall p :: p in lists.notInstall ==> p !in installed) &&
              notRecognized == []
    ensures r.Some? ==> r.value == Batch(Without(lists.install, installed), Within(lists.notInstall, installed))
  {
    var missing := Without(lists.install, installed);
    var excess := Within(lists.notInstall, installed);
    if |missing| > 0 || |excess| > 0 || |notRecognized| > 0 then
      assert |missing| > 0 ==> missing[0] in missing;
      assert |excess| > 0 ==> excess[0] in excess;
      Some(Batch(missing, excess))
    else
      assert missing == [] && excess == [];
      None
  }

  /** Lines 145-149: the vectors handed to `runAllCmds` are
      `['plugin', 'add', p]` for each missing plugin, then
      `['plugin', 'rm', p]` for each excess one. */
  lemma BatchArgvs(missing: seq<PluginId>, excess: seq<PluginId>)
    ensures var vs := Argvs(Batch(missing, excess));
            && |vs| == |missing| + |excess|
            && (forall i :: 0 <= i < |missing| ==> vs[i] == ["plugin", "add", missing[i]])
            && (forall i :: 0 <= i < |excess| ==> vs[|missing| + i] == ["plugin", "rm", excess[i]])
  {
  }

  /** Each command of a batch adds a missing plugin or removes an excess one. */
  lemma BatchTargets(missing: seq<PluginId>, excess: seq<PluginId>)
    ensures forall c :: c in Batch(missing, excess) ==>
              (c.Add? && c.plugin in missing) || (c.Remove? && c.plugin in excess)
  {
    var cmds := Batch(missing, excess);
    forall c | c in cmds ensures (c.Add? && c.plugin in missing) || (c.Remove? && c.plugin in excess) {
      var i :| 0 <= i < |cmds| && cmds[i] == c;
      if i >= |missing| {
        var j := i - |missing|;
        assert cmds[|missing| + j] == Remove(excess[j]);
      }
    }
  }

  /** Lines 134-149: each command adds an install-list plugin that is not
      installed or removes a not-install plugin that is. */
  lemma ReconcileTargets(lists: PluginLists, notRecognized: seq<string>, installed: seq<PluginId>)
    requires Reconcile(lists, notRecognized, installed).Some?
    ensures forall c :: c in Reconcile(lists, notRecognized, installed).value ==>
              (c.Add? && c.plugin in lists.install && c.plugin !in installed) ||
              (c.Remove? && c.plugin in lists.notInstall && c.plugin in installed)
  {
    BatchTargets(Without(lists.install, installed), Within(lists.notInstall, installed));
  }

  /** Lines 156-162: warn when chrome.identity ended up installed while the
      manifest gives no OAuth2 client id. */
  predicate ClientIdWarning(installedAfter: seq<PluginId>, clientId: Option<string>)
  {
    "org.chromium.identity" in installedAfter && !Truthy(clientId)
  }

  /** The build tool's effect on the set of installed plugins, assuming each
      command succeeds. */
  function ApplyCommands(installed: set<PluginId>, cmds: seq<PluginCommand>): set<PluginId>
    decreases |cmds|
  {
    if |cmds| == 0 then installed else ApplyCommands(ApplyCommand(installed, cmds[0]), cmds[1..])
  }

  function ApplyCommand(installed: set<PluginId>, c: PluginCommand): set<PluginId> {
    match c
    case Add(p) => installed + {p}
    case Remove(p) => installed - {p}
  }

  lemma {:induction false} ApplyCommandsAppend(s: set<PluginId>, a: seq<PluginCommand>, b: seq<PluginCommand>)
    ensures ApplyCommands(s, a + b) == ApplyCommands(ApplyCommands(s, a), b)
    decreases |a|
  {
    if |a| > 0 {
      assert (a + b)[0] == a[0] && (a + b)[1..] == a[1..] + b;
      ApplyCommandsAppend(ApplyCommand(s, a[0]), a[1..], b);
    } else {
      assert a + b == b;
    }
  }

  lemma {:induction false} ApplyAddCommands(s: set<PluginId>, ps: seq<PluginId>)
    ensures forall p :: p in ApplyCommands(s, AddCommands(ps)) <==> p in s || p in ps
    decreases |ps|
  {
    if |ps| > 0 {
      assert AddCommands(ps)[1..] == AddCommands(ps[1..]);
      ApplyAddCommands(s + {ps[0]}, ps[1..]);
      assert forall p :: p in ps <==> p == ps[0] || p in ps[1..];
    }
  }

  lemma {:induction false} ApplyRemoveCommands(s: set<PluginId>, ps: seq<PluginId>)
    ensures forall p :: p in ApplyCommands(s, RemoveCommands(ps)) <==> p in s && p !in ps
    decreases |ps|
  {
    if |ps| > 0 {
      assert RemoveCommands(ps)[1..] == RemoveCommands(ps[1..]);
      ApplyRemoveCommands(s - {ps[0]}, ps[1..]);
      assert forall p :: p in ps <==> p == ps[0] || p in ps[1..];
    }
  }

  /** Running the batch once brings the project in line with the manifest:
      a second reconciliation runs no command (with nothing unrecognized it
      runs no batch at all; with unrecognized permissions, whatever they
      are, it runs an empty one). This needs "required wins": no plugin is
      both installed and removed. */
  lemma ReconcileConverges(
    data: ManifestPlugins, defaults: seq<PluginId>, stale: seq<PluginId>,
    installed: seq<PluginId>, after: seq<PluginId>, again: seq<string>)
    requires Reconcile(BuildLists(data, defaults, stale), data.notRecognized, installed).Some?
    requires forall p :: p in after <==>
      p in ApplyCommands((set q | q in installed),
                         Reconcile(BuildLists(data, defaults, stale), data.notRecognized, installed).value)
    ensures Reconcile(BuildLists(data, defaults, stale), [], after).None?
    ensures var r := Reconcile(BuildLists(data, defaults, stale), again, after);
            r.None? || r.value == []
  {
    var lists := BuildLists(data, defaults, stale);
    var missing := Without(lists.install, installed);
    var excess := Within(lists.notInstall, installed);
    var s := set q | q in installed;
    assert Batch(missing, excess) == AddCommands(missing) + RemoveCommands(excess);
    ApplyCommandsAppend(s, AddCommands(missing), RemoveCommands(excess));
    ApplyAddCommands(s, missing);
    ApplyRemoveCommands(ApplyCommands(s, AddCommands(missing)), excess);
    forall p | p in lists.install ensures p in after {
      assert p !in excess;
    }
    forall p | p in lists.notInstall ensures p !in after {
      assert p !in missing;
    }
  }
}
