/** The individual steps of a site: each takes the run so far and issues its
    commands through the runner. A step does nothing once an earlier step has
    raised, mirroring how an exception skips the rest of a job. Loops are
    written as the source writes them and then shown to issue exactly a
    declarative plan built from `Lists.Filter` and `Lists.Map`. */
module Steps {
  import opened Wrappers
  import opened Lists
  import opened Text
  import opened SiteConfig
  import opened Sites
  import opened Runner

  /** Where the bench container mounts the sites directory. */
  const MountedSites: string := "/home/frappe/frappe-bench/sites"
  const BlockUserCommand: string := "execute frappe.modules.patch_handler.block_user --args False,"
  const InstalledAppsQuery: string := "execute frappe.get_installed_apps"

  // ---------------------------------------------------------------------
  // Maintenance mode, scheduler, admin password, migrate

  function EnableMaintenanceMode(env: Env, r: Run): (r': Run) {
    Call(env, r, SiteCommand(r.site, "set-maintenance-mode on"))
  }

  /** Turning maintenance mode off first tries to lift the user block; a
      failure of that call is swallowed, so only the final command decides
      whether the step raises. */
  function DisableMaintenanceMode(env: Env, r: Run): (r': Run)
    ensures r'.site == r.site
    ensures !r.raised ==>
              r'.trace == r.trace + [SiteCommand(r.site, BlockUserCommand), SiteCommand(r.site, "set-maintenance-mode off")]
    ensures !r.raised ==>
              (r'.raised <==> env.fails(r.trace + [SiteCommand(r.site, BlockUserCommand)], SiteCommand(r.site, "set-maintenance-mode off")))
  {
    var unblocked := Swallow(env, r, SiteCommand(r.site, BlockUserCommand));
    Call(env, unblocked, SiteCommand(r.site, "set-maintenance-mode off"))
  }

  function EnableScheduler(env: Env, r: Run): (r': Run) {
    Call(env, r, SiteCommand(r.site, "scheduler enable"))
  }

  function SetAdminPassword(env: Env, r: Run, password: string): (r': Run) {
    Call(env, r, SiteCommand(r.site, "set-admin-password " + password))
  }

  function MigrateCommand(skipFailingPatches: bool): (c: string)
    ensures StartsWith(c, "migrate")
    ensures EndsWith(c, " --skip-failing") <==> skipFailingPatches
  {
    if skipFailingPatches then "migrate --skip-failing" else "migrate"
  }

  /** `migrate` issues one command, with `--skip-failing` exactly when asked. */
  function Migrate(env: Env, r: Run, skipFailingPatches: bool): (r': Run)
    ensures !r.raised ==> r'.trace == r.trace + [SiteCommand(r.site, MigrateCommand(skipFailingPatches))]
  {
    Call(env, r, SiteCommand(r.site, MigrateCommand(skipFailingPatches)))
  }

  // ---------------------------------------------------------------------
  // Site configuration

  /** `update_config`: read the current document, merge and pop, write it
      back; once the write succeeds the site sees the new document. */
  function UpdateConfigStep(env: Env, r: Run, value: Config, remove: seq<string>): (r': Run)
    ensures !r.raised ==> r'.trace == r.trace + [WriteConfig(r.site.configFile, Update(r.site.config, value, remove))]
    ensures !r'.raised ==> r'.site == r.site.(config := Update(r.site.config, value, remove))
    ensures r'.raised ==> r'.site == r.site
  {
    var updated := Update(r.site.config, value, remove);
    var written := Call(env, r, WriteConfig(r.site.configFile, updated));
    if written.raised then written else written.(site := written.site.(config := updated))
  }

  // ---------------------------------------------------------------------
  // Apps

  function InstallAppCommand(site: Site, app: string): (r: Effect) {
    SiteCommand(site, "install-app " + app)
  }

  /** The install commands `install_apps` means to issue: one per app other than `frappe`. */
  function InstallPlan(site: Site, apps: seq<string>): (r: seq<Effect>) {
    Map((a: string) => InstallAppCommand(site, a), Filter(apps, (a: string) => a != "frappe"))
  }

  /** `install_apps`: the loop over `apps`, skipping `frappe`. */
  function InstallApps(env: Env, r: Run, apps: seq<string>): (r': Run)
    decreases |apps|
  {
    if |apps| == 0 then r
    else
      var next := if apps[0] != "frappe" then Call(env, r, InstallAppCommand(r.site, apps[0])) else r;
      InstallApps(env, next, apps[1..])
  }

  lemma {:induction false} InstallAppsFollowsPlan(env: Env, r: Run, apps: seq<string>)
    ensures InstallApps(env, r, apps) == CallAll(env, r, InstallPlan(r.site, apps))
    decreases |apps|
  {
    if |apps| > 0 {
      var keep := (a: string) => a != "frappe";
      var cmd := (a: string) => InstallAppCommand(r.site, a);
      if apps[0] != "frappe" {
        MapCons(cmd, apps[0], Filter(apps[1..], keep));
        CallAllCons(env, r, cmd(apps[0]), Map(cmd, Filter(apps[1..], keep)));
        InstallAppsFollowsPlan(env, Call(env, r, InstallAppCommand(r.site, apps[0])), apps[1..]);
      } else {
        InstallAppsFollowsPlan(env, r, apps[1..]);
      }
    }
  }

  /** `install_apps` never issues an install for `frappe`, issues one for every
      other listed app when nothing fails, and always issues an initial part
      of that plan. */
  lemma InstallAppsNeverInstallsFrappe(env: Env, r: Run, apps: seq<string>)
    requires !r.raised
    ensures var r' := InstallApps(env, r, apps);
            && IssuedPrefixOf(r.trace, r'.trace, InstallPlan(r.site, apps))
            && InstallAppCommand(r.site, "frappe") !in r'.trace[|r.trace|..]
            && (forall a :: a in apps && a != "frappe" && !r'.raised ==> InstallAppCommand(r.site, a) in r'.trace)
  {
    InstallAppsFollowsPlan(env, r, apps);
    CallAllIssuesPrefix(env, r, InstallPlan(r.site, apps));
    CallAllSucceeds(env, r, InstallPlan(r.site, apps));
    var r' := InstallApps(env, r, apps);
    var plan := InstallPlan(r.site, apps);
    var names := Filter(apps, (a: string) => a != "frappe");
    var issued := r'.trace[|r.trace|..];
    if InstallAppCommand(r.site, "frappe") in issued {
      var k :| 0 <= k < |issued| && issued[k] == InstallAppCommand(r.site, "frappe");
      assert plan[k] == InstallAppCommand(r.site, names[k]);
      PrefixInjective("install-app ", names[k], "frappe");
    }
    forall a | a in apps && a != "frappe" && !r'.raised
      ensures InstallAppCommand(r.site, a) in r'.trace
    {
      FilterMembership(apps, (a: string) => a != "frappe", a);
      var k :| 0 <= k < |names| && names[k] == a;
      assert r'.trace[|r.trace| + k] == plan[k];
    }
  }

  /** Different arguments after the same prefix give different commands. */
  lemma PrefixInjective(prefix: string, a: string, b: string)
    requires prefix + a == prefix + b
    ensures a == b
  {
    assert a == (prefix + a)[|prefix|..];
    assert b == (prefix + b)[|prefix|..];
  }

  function RemoveAppCommand(site: Site, app: string): (r: Effect) {
    SiteCommand(site, "remove-from-installed-apps '" + app + "'")
  }

  /** For every app: its removal, then a cache clear. */
  function RemovalCommands(site: Site, apps: seq<string>): (es: seq<Effect>)
    ensures |es| == 2 * |apps|
    decreases |apps|
  {
    if |apps| == 0 then []
    else [RemoveAppCommand(site, apps[0]), SiteCommand(site, "clear-cache")] + RemovalCommands(site, apps[1..])
  }

  /** Behind a leading pair, pair `j` of the rest becomes pair `j + 1`. */
  lemma PairShift<T>(x: T, y: T, rest: seq<T>, j: nat)
    requires 2 * j + 1 < |rest|
    ensures ([x, y] + rest)[2 * (j + 1)] == rest[2 * j]
    ensures ([x, y] + rest)[2 * (j + 1) + 1] == rest[2 * j + 1]
  {
  }

  /** Removal `i` sits at position `2 * i` and is immediately followed by a cache clear. */
  lemma {:induction false} RemovalCommandAt(site: Site, apps: seq<string>, i: nat)
    requires i < |apps|
    ensures RemovalCommands(site, apps)[2 * i] == RemoveAppCommand(site, apps[i])
    ensures RemovalCommands(site, apps)[2 * i + 1] == SiteCommand(site, "clear-cache")
    decreases i
  {
    if i > 0 {
      RemovalCommandAt(site, apps[1..], i - 1);
      PairShift(RemoveAppCommand(site, apps[0]), SiteCommand(site, "clear-cache"), RemovalCommands(site, apps[1..]), i - 1);
      assert apps[1..][i - 1] == apps[i];
    }
  }

  /** The whole list is removal, clear, removal, clear, ... in app order. */
  lemma RemovalCommandsPairs(site: Site, apps: seq<string>)
    ensures var es := RemovalCommands(site, apps);
            forall i :: 0 <= i < |apps| ==>
              es[2 * i] == RemoveAppCommand(site, apps[i]) && es[2 * i + 1] == SiteCommand(site, "clear-cache")
  {
    forall i | 0 <= i < |apps|
      ensures RemovalCommands(site, apps)[2 * i] == RemoveAppCommand(site, apps[i])
      ensures RemovalCommands(site, apps)[2 * i + 1] == SiteCommand(site, "clear-cache")
    {
      RemovalCommandAt(site, apps, i);
    }
  }

  /** The commands `uninstall_unavailable_apps` means to issue: list the
      installed apps, then remove every installed app not in the keep-list,
      in installed order, each followed by a cache clear. */
  function RemovalPlan(site: Site, keep: seq<string>, installed: seq<string>): (r: seq<Effect>) {
    [SiteCommand(site, InstalledAppsQuery)] + RemovalCommands(site, Filter(installed, (a: string) => a !in keep))
  }

  function RemoveApps(env: Env, r: Run, keep: seq<string>, installed: seq<string>): (r': Run)
    decreases |installed|
  {
    if |installed| == 0 then r
    else
      var app := installed[0];
      var next :=
        if app !in keep then
          var removed := Call(env, r, RemoveAppCommand(r.site, app));
          Call(env, removed, SiteCommand(r.site, "clear-cache"))
        else r;
      RemoveApps(env, next, keep, installed[1..])
  }

  /** `uninstall_unavailable_apps(keep)`: `installed` is the parsed output of
      the installed-apps query. */
  function UninstallUnavailableApps(env: Env, r: Run, keep: seq<string>, installed: seq<string>): (r': Run) {
    RemoveApps(env, Call(env, r, SiteCommand(r.site, InstalledAppsQuery)), keep, installed)
  }

  lemma {:induction false} RemoveAppsFollowsPlan(env: Env, r: Run, keep: seq<string>, installed: seq<string>)
    ensures RemoveApps(env, r, keep, installed)
            == CallAll(env, r, RemovalCommands(r.site, Filter(installed, (a: string) => a !in keep)))
    decreases |installed|
  {
    if |installed| > 0 {
      var unavailable := (a: string) => a !in keep;
      var app := installed[0];
      if app !in keep {
        var pair := [RemoveAppCommand(r.site, app), SiteCommand(r.site, "clear-cache")];
        var rest := RemovalCommands(r.site, Filter(installed[1..], unavailable));
        assert Filter(installed, unavailable) == [app] + Filter(installed[1..], unavailable);
        assert ([app] + Filter(installed[1..], unavailable))[1..] == Filter(installed[1..], unavailable);
        assert RemovalCommands(r.site, Filter(installed, unavailable)) == pair + rest;
        CallAllAppend(env, r, pair, rest);
        CallAllCons(env, r, pair[0], [pair[1]]);
        CallAllCons(env, Call(env, r, pair[0]), pair[1], []);
        var next := Call(env, Call(env, r, RemoveAppCommand(r.site, app)), SiteCommand(r.site, "clear-cache"));
        RemoveAppsFollowsPlan(env, next, keep, installed[1..]);
      } else {
        RemoveAppsFollowsPlan(env, r, keep, installed[1..]);
      }
    }
  }

  lemma UninstallFollowsPlan(env: Env, r: Run, keep: seq<string>, installed: seq<string>)
    ensures UninstallUnavailableApps(env, r, keep, installed) == CallAll(env, r, RemovalPlan(r.site, keep, installed))
  {
    var q := SiteCommand(r.site, InstalledAppsQuery);
    var rest := RemovalCommands(r.site, Filter(installed, (a: string) => a !in keep));
    CallAllCons(env, r, q, rest);
    RemoveAppsFollowsPlan(env, Call(env, r, q), keep, installed);
  }

  /** A removal command for `app` is among the removals exactly when `app` is. */
  lemma {:induction false} RemovalCommandsMention(site: Site, apps: seq<string>, app: string)
    ensures RemoveAppCommand(site, app) in RemovalCommands(site, apps) <==> app in apps
    decreases |apps|
  {
    if |apps| > 0 {
      RemovalCommandsMention(site, apps[1..], app);
      var head := [RemoveAppCommand(site, apps[0]), SiteCommand(site, "clear-cache")];
      assert RemovalCommands(site, apps) == head + RemovalCommands(site, apps[1..]);
      NotARemoval("clear-cache", app);
      if RemoveAppCommand(site, apps[0]) == RemoveAppCommand(site, app) {
        RemoveCommandInjective(apps[0], app);
      }
      assert app in apps <==> app == apps[0] || app in apps[1..];
    }
  }

  /** A command that does not start with `r`, such as the installed-apps
      query or `clear-cache`, is no removal. */
  lemma NotARemoval(command: string, app: string)
    requires |command| > 0 && command[0] != 'r'
    ensures command != "remove-from-installed-apps '" + app + "'"
  {
    var c := "remove-from-installed-apps '" + app + "'";
    assert c[0] == 'r';
  }

  /** A removal command for `app` appears in the plan exactly when `app` is
      installed and not kept. */
  lemma RemovalPlanMentions(site: Site, keep: seq<string>, installed: seq<string>, app: string)
    ensures RemoveAppCommand(site, app) in RemovalPlan(site, keep, installed) <==> app in installed && app !in keep
  {
    RemovalCommandsMention(site, Filter(installed, (a: string) => a !in keep), app);
    FilterMembership(installed, (a: string) => a !in keep, app);
    NotARemoval(InstalledAppsQuery, app);
  }

  /** Kept apps never receive a command: whatever fails, no removal of a
      kept app is issued. */
  lemma UninstallSparesKeptApps(env: Env, r: Run, keep: seq<string>, installed: seq<string>, app: string)
    requires !r.raised
    requires app in keep
    ensures var r' := UninstallUnavailableApps(env, r, keep, installed);
            && IssuedPrefixOf(r.trace, r'.trace, RemovalPlan(r.site, keep, installed))
            && RemoveAppCommand(r.site, app) !in r'.trace[|r.trace|..]
  {
    var plan := RemovalPlan(r.site, keep, installed);
    UninstallFollowsPlan(env, r, keep, installed);
    CallAllIssuesPrefix(env, r, plan);
    RemovalPlanMentions(r.site, keep, installed, app);
  }

  /** When nothing fails, the step issues exactly the plan: every installed
      app outside the keep-list is removed, each followed by a cache clear. */
  lemma UninstallRemovesUnavailable(env: Env, r: Run, keep: seq<string>, installed: seq<string>, app: string)
    requires !r.raised
    ensures var r' := UninstallUnavailableApps(env, r, keep, installed);
            && (!r'.raised ==> r'.trace == r.trace + RemovalPlan(r.site, keep, installed))
            && (!r'.raised && app in installed && app !in keep ==> RemoveAppCommand(r.site, app) in r'.trace)
  {
    var plan := RemovalPlan(r.site, keep, installed);
    UninstallFollowsPlan(env, r, keep, installed);
    CallAllSucceeds(env, r, plan);
    RemovalPlanMentions(r.site, keep, installed, app);
  }

  lemma RemoveCommandInjective(a: string, b: string)
    requires "remove-from-installed-apps '" + a + "'" == "remove-from-installed-apps '" + b + "'"
    ensures a == b
  {
    var p := "remove-from-installed-apps '";
    AppendAssoc(p, a, "'");
    AppendAssoc(p, b, "'");
    PrefixInjective(p, a + "'", b + "'");
    assert a == (a + "'")[..|a|];
    assert b == (b + "'")[..|b|];
  }

  // ---------------------------------------------------------------------
  // Table-level backup and restore

  /** The dump file of a table: `<backup directory>/<table>.sql`. */
  function TableFile(site: Site, table: string): (r: string) {
    PathJoin(site.backupDirectory, table + ".sql")
  }

  function ShowTablesCommand(site: Site): (r: Effect) {
    HostCommand("mysql --disable-column-names -B -e 'SHOW TABLES' -h " + site.host
                + " -u " + site.user + " -p" + site.password + " " + site.database)
  }

  function DumpCommand(site: Site, table: string): (r: Effect) {
    HostCommand("mysqldump --single-transaction --quick --lock-tables=false -h " + site.host
                + " -u " + site.user + " -p" + site.password + " " + site.database
                + " '" + table + "' > '" + TableFile(site, table) + "'")
  }

  function LoadCommand(site: Site, table: string): (r: Effect) {
    HostCommand("mysql -h " + site.host + " -u " + site.user + " -p" + site.password + " "
                + site.database + " < '" + TableFile(site, table) + "'")
  }

  /** The table names of the `SHOW TABLES` output: one per line. */
  function TableNames(listing: string): (r: seq<string>) {
    Split(listing, "\n")
  }

  function DumpTables(env: Env, r: Run, tables: seq<string>): (r': Run)
    decreases |tables|
  {
    if |tables| == 0 then r
    else DumpTables(env, Call(env, r, DumpCommand(r.site, tables[0])), tables[1..])
  }

  /** `tablewise_backup`: list the tables, then dump each into its own file. */
  function TablewiseBackup(env: Env, r: Run, listing: string): (r': Run) {
    DumpTables(env, Call(env, r, ShowTablesCommand(r.site)), TableNames(listing))
  }

  function TablewisePlan(site: Site, listing: string): (r: seq<Effect>) {
    [ShowTablesCommand(site)] + Map((t: string) => DumpCommand(site, t), TableNames(listing))
  }

  lemma {:induction false} DumpTablesFollowsPlan(env: Env, r: Run, tables: seq<string>)
    ensures DumpTables(env, r, tables) == CallAll(env, r, Map((t: string) => DumpCommand(r.site, t), tables))
    decreases |tables|
  {
    if |tables| > 0 {
      var dump := (t: string) => DumpCommand(r.site, t);
      assert tables == [tables[0]] + tables[1..];
      MapCons(dump, tables[0], tables[1..]);
      CallAllCons(env, r, dump(tables[0]), Map(dump, tables[1..]));
      DumpTablesFollowsPlan(env, Call(env, r, DumpCommand(r.site, tables[0])), tables[1..]);
    }
  }

  /** One dump per listed table, in listing order, each into `<table>.sql`
      under the backup directory; when nothing fails, all of them. */
  lemma TablewiseBackupDumpsEveryTable(env: Env, r: Run, listing: string)
    requires !r.raised
    ensures var r' := TablewiseBackup(env, r, listing);
            var tables := TableNames(listing);
            && IssuedPrefixOf(r.trace, r'.trace, TablewisePlan(r.site, listing))
            && (!r'.raised ==> r'.trace == r.trace + TablewisePlan(r.site, listing))
            && (forall i :: 0 <= i < |tables| ==> EndsWith(TableFile(r.site, tables[i]), tables[i] + ".sql"))
  {
    var show := ShowTablesCommand(r.site);
    var dumps := Map((t: string) => DumpCommand(r.site, t), TableNames(listing));
    CallAllCons(env, r, show, dumps);
    DumpTablesFollowsPlan(env, Call(env, r, show), TableNames(listing));
    CallAllIssuesPrefix(env, r, TablewisePlan(r.site, listing));
    CallAllSucceeds(env, r, TablewisePlan(r.site, listing));
  }

  /** The touched tables that have a staged dump file. */
  function StagedTables(site: Site, tables: seq<string>, staged: set<string>): (r: seq<string>) {
    Filter(tables, (t: string) => TableFile(site, t) in staged)
  }

  function LoadTables(env: Env, r: Run, tables: seq<string>, staged: set<string>): (r': Run)
    decreases |tables|
  {
    if |tables| == 0 then r
    else
      var next := if TableFile(r.site, tables[0]) in staged then Call(env, r, LoadCommand(r.site, tables[0])) else r;
      LoadTables(env, next, tables[1..], staged)
  }

  /** `restore_touched_tables`: `touched` is the content of the touched-tables
      manifest (`None` when it cannot be read, which raises), `staged` the
      files present on disk. Tables without a staged dump are skipped. */
  function RestoreTouchedTables(env: Env, r: Run, touched: Option<seq<string>>, staged: set<string>): (r': Run) {
    if r.raised then r
    else match touched
      case None => r.(raised := true)
      case Some(tables) => LoadTables(env, r, tables, staged)
  }

  lemma {:induction false} LoadTablesFollowsPlan(env: Env, r: Run, tables: seq<string>, staged: set<string>)
    ensures LoadTables(env, r, tables, staged)
            == CallAll(env, r, Map((t: string) => LoadCommand(r.site, t), StagedTables(r.site, tables, staged)))
    decreases |tables|
  {
    if |tables| > 0 {
      var load := (t: string) => LoadCommand(r.site, t);
      var present := (t: string) => TableFile(r.site, t) in staged;
      if TableFile(r.site, tables[0]) in staged {
        assert StagedTables(r.site, tables, staged) == [tables[0]] + Filter(tables[1..], present);
        MapCons(load, tables[0], Filter(tables[1..], present));
        CallAllCons(env, r, load(tables[0]), Map(load, Filter(tables[1..], present)));
        LoadTablesFollowsPlan(env, Call(env, r, LoadCommand(r.site, tables[0])), tables[1..], staged);
      } else {
        assert StagedTables(r.site, tables, staged) == Filter(tables[1..], present);
        LoadTablesFollowsPlan(env, r, tables[1..], staged);
      }
    }
  }

  /** Exactly the touched tables with a staged file are loaded, in manifest
      order; a table without one never is. */
  lemma RestoreTouchedTablesSkipsUnstaged(env: Env, r: Run, tables: seq<string>, staged: set<string>, table: string)
    requires !r.raised
    ensures var r' := RestoreTouchedTables(env, r, Some(tables), staged);
            var plan := Map((t: string) => LoadCommand(r.site, t), StagedTables(r.site, tables, staged));
            && IssuedPrefixOf(r.trace, r'.trace, plan)
            && (!r'.raised ==> r'.trace == r.trace + plan)
            && (table in StagedTables(r.site, tables, staged) <==> table in tables && TableFile(r.site, table) in staged)
  {
    var plan := Map((t: string) => LoadCommand(r.site, t), StagedTables(r.site, tables, staged));
    LoadTablesFollowsPlan(env, r, tables, staged);
    CallAllIssuesPrefix(env, r, plan);
    CallAllSucceeds(env, r, plan);
    FilterMembership(tables, (t: string) => TableFile(r.site, t) in staged, table);
  }
}
