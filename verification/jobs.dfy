/** The two multi-step jobs whose order matters: `rename_job` and
    `restore_job`. Each is written step by step as the source writes it; the
    lemmas pin down the exact sequence of effects when nothing raises, the
    cleanup that happens even when the restore raises, and what the site
    looks like afterwards. */
module Jobs {
  import opened Lists
  import opened Text
  import opened SiteConfig
  import opened Sites
  import opened Runner
  import opened Poller
  import opened Steps
  import opened Restore

  // ---------------------------------------------------------------------
  // Rename

  /** `rename`: move the site directory under the new name inside the bench's
      sites directory; the site takes the new name once the move succeeded.
      The stored directory path is not updated, as in the source. */
  function RenameStep(env: Env, r: Run, newName: string): (r': Run)
    ensures !r.raised ==>
              r'.trace == r.trace + [MoveDirectory(r.site.directory, PathJoin(r.site.bench.sitesDirectory, newName))]
    ensures r'.raised ==> r'.site == r.site
    ensures !r'.raised ==> r'.site == r.site.(name := newName)
  {
    var moved := Call(env, r, MoveDirectory(r.site.directory, PathJoin(r.site.bench.sitesDirectory, newName)));
    if moved.raised then moved else moved.(site := moved.site.(name := newName))
  }

  /** `wait_till_ready` as a step: it catches every failure of its probes,
      so it never raises. */
  function WaitTillReadyStep(env: Env, r: Run): (r': Run)
    ensures r'.site == r.site && r'.raised == r.raised
  {
    if r.raised then r else r.(trace := Poll(env, r.site.name, r.trace, 0).trace)
  }

  /** The `host_name` a site gets by default. */
  function DefaultHostName(name: string): (r: Value) {
    Str("https://" + name)
  }

  predicate HasDefaultHostName(site: Site) {
    "host_name" in site.config && site.config["host_name"] == DefaultHostName(site.name)
  }

  /** The configuration after the rename job's host-name rewrite. */
  function RenamedConfig(site: Site, newName: string): (r: Config) {
    if HasDefaultHostName(site) then Update(site.config, map["host_name" := DefaultHostName(newName)], [])
    else site.config
  }

  /** Only a `host_name` that still names the site by its old name follows
      the rename. */
  function RewriteHostName(env: Env, r: Run, newName: string): (r': Run) {
    if HasDefaultHostName(r.site) then UpdateConfigStep(env, r, map["host_name" := DefaultHostName(newName)], [])
    else r
  }

  /** Maintenance mode on, then wait for the queued jobs. */
  function Quiesce(env: Env, r: Run): (r': Run) {
    WaitTillReadyStep(env, EnableMaintenanceMode(env, r))
  }

  /** From the move on: rename, refresh nginx, reopen the site under its new
      name. */
  function MoveAndReopen(env: Env, r: Run, newName: string): (r': Run) {
    var renamed := RenameStep(env, r, newName);
    var served := Call(env, Call(env, renamed, SetupNginx), ReloadNginx);
    EnableScheduler(env, DisableMaintenanceMode(env, served))
  }

  function RenameJob(env: Env, r: Run, newName: string): (r': Run) {
    MoveAndReopen(env, RewriteHostName(env, Quiesce(env, r), newName), newName)
  }

  lemma QuiesceOnSuccess(env: Env, r: Run)
    requires !r.raised && !Quiesce(env, r).raised
    ensures var on := SiteCommand(r.site, "set-maintenance-mode on");
            var q := Quiesce(env, r);
            && q.site == r.site
            && q.trace == r.trace + [on] + AttemptEffects(r.site.name, Poll(env, r.site.name, r.trace + [on], 0).tries)
  {
    PollShape(env, r.site.name, r.trace + [SiteCommand(r.site, "set-maintenance-mode on")], 0);
  }

  lemma RewriteHostNameOnSuccess(env: Env, r: Run, newName: string)
    requires !r.raised && !RewriteHostName(env, r, newName).raised
    ensures var h := RewriteHostName(env, r, newName);
            && h.site == r.site.(config := RenamedConfig(r.site, newName))
            && h.trace == r.trace + (if HasDefaultHostName(r.site)
                                     then [WriteConfig(r.site.configFile, RenamedConfig(r.site, newName))] else [])
  {
  }

  lemma MoveAndReopenOnSuccess(env: Env, r: Run, newName: string)
    requires !r.raised && !MoveAndReopen(env, r, newName).raised
    ensures var m := MoveAndReopen(env, r, newName);
            && m.site == r.site.(name := newName)
            && m.trace == r.trace + [MoveDirectory(r.site.directory, PathJoin(r.site.bench.sitesDirectory, newName)),
                                     SetupNginx, ReloadNginx,
                                     BenchCommand(newName, BlockUserCommand),
                                     BenchCommand(newName, "set-maintenance-mode off"),
                                     BenchCommand(newName, "scheduler enable")]
  {
    var renamed := RenameStep(env, r, newName);
    var served := Call(env, Call(env, renamed, SetupNginx), ReloadNginx);
    var reopened := DisableMaintenanceMode(env, served);
    assert !reopened.raised && !served.raised && !renamed.raised;
  }

  /** The renamed configuration keeps every key but `host_name`, and
      `host_name` names the new site exactly when it named the old one. */
  lemma RenamedConfigChangesOnlyHostName(site: Site, newName: string)
    ensures var c := RenamedConfig(site, newName);
            && (forall k :: k != "host_name" ==>
                  (k in c <==> k in site.config) && (k in c ==> c[k] == site.config[k]))
            && (HasDefaultHostName(site) ==> "host_name" in c && c["host_name"] == DefaultHostName(newName))
            && (!HasDefaultHostName(site) ==> c == site.config)
  {
  }

  /** What a rename that raises nowhere does, in order: maintenance mode on,
      the readiness probes under the old name, the host-name write when it
      applies, the move, nginx setup and reload, then maintenance mode off and
      the scheduler back on under the new name. Afterwards the site carries
      the new name and the rewritten configuration. */
  lemma RenameJobOnSuccess(env: Env, r: Run, newName: string)
    requires !r.raised
    requires !RenameJob(env, r, newName).raised
    ensures var r' := RenameJob(env, r, newName);
            var on := SiteCommand(r.site, "set-maintenance-mode on");
            var tries := Poll(env, r.site.name, r.trace + [on], 0).tries;
            var config := RenamedConfig(r.site, newName);
            var write := if HasDefaultHostName(r.site) then [WriteConfig(r.site.configFile, config)] else [];
            var move := MoveDirectory(r.site.directory, PathJoin(r.site.bench.sitesDirectory, newName));
            && r'.site == r.site.(name := newName, config := config)
            && r'.trace == r.trace + [on] + AttemptEffects(r.site.name, tries) + write
                           + [move, SetupNginx, ReloadNginx,
                              BenchCommand(newName, BlockUserCommand),
                              BenchCommand(newName, "set-maintenance-mode off"),
                              BenchCommand(newName, "scheduler enable")]
  {
    var q := Quiesce(env, r);
    var h := RewriteHostName(env, q, newName);
    assert !h.raised && !q.raised;
    QuiesceOnSuccess(env, r);
    RewriteHostNameOnSuccess(env, q, newName);
    MoveAndReopenOnSuccess(env, h, newName);
  }

  lemma MoveAndReopenRenamesOnlyByMoving(env: Env, r: Run, newName: string)
    ensures var m := MoveAndReopen(env, r, newName);
            var move := MoveDirectory(r.site.directory, PathJoin(r.site.bench.sitesDirectory, newName));
            m.site.name == r.site.name || (m.site.name == newName && move in m.trace)
  {
    var renamed := RenameStep(env, r, newName);
    var served := Call(env, Call(env, renamed, SetupNginx), ReloadNginx);
    var reopened := DisableMaintenanceMode(env, served);
    if !renamed.raised {
      assert renamed.trace[|renamed.trace| - 1] == MoveDirectory(r.site.directory, PathJoin(r.site.bench.sitesDirectory, newName));
    }
  }

  /** The site's name changes only through a successful move to the new name. */
  lemma RenameJobNamesOnlyAfterMove(env: Env, r: Run, newName: string)
    ensures var r' := RenameJob(env, r, newName);
            r'.site.name != r.site.name ==>
              r'.site.name == newName
              && MoveDirectory(r.site.directory, PathJoin(r.site.bench.sitesDirectory, newName)) in r'.trace
  {
    var h := RewriteHostName(env, Quiesce(env, r), newName);
    assert h.site.name == r.site.name && h.site.directory == r.site.directory && h.site.bench == r.site.bench;
    MoveAndReopenRenamesOnlyByMoving(env, h, newName);
  }

  // ---------------------------------------------------------------------
  // Restore

  /** The backups `restore_job` is asked to restore, as passed on to
      `download_files`. */
  datatype BackupRefs = BackupRefs(database: string, public: string, private: string)

  /** `download_files(name, database, public, private)` for the site's current name. */
  function Download(site: Site, refs: BackupRefs): (r: Effect) {
    DownloadFiles(site.name, refs.database, refs.public, refs.private)
  }

  /** What `download_files` hands back: the three local file paths and the
      directory holding them. */
  datatype Downloaded = Downloaded(database: string, public: string, private: string, directory: string)

  /** The steps after the restore proper. */
  function AfterRestore(env: Env, r: Run, keep: seq<string>, adminPassword: string,
                        skipFailingPatches: bool, installed: seq<string>): (r': Run)
  {
    var pruned := UninstallUnavailableApps(env, r, keep, installed);
    var migrated := Migrate(env, pruned, skipFailingPatches);
    var secured := SetAdminPassword(env, migrated, adminPassword);
    var scheduled := EnableScheduler(env, secured);
    var served := Call(env, Call(env, scheduled, SetupNginx), ReloadNginx);
    Call(env, served, SiteCommand(served.site, "list-apps"))
  }

  function AfterRestorePlan(site: Site, keep: seq<string>, adminPassword: string,
                            skipFailingPatches: bool, installed: seq<string>): (r: seq<Effect>)
  {
    RemovalPlan(site, keep, installed)
    + [SiteCommand(site, MigrateCommand(skipFailingPatches)),
       SiteCommand(site, "set-admin-password " + adminPassword),
       SiteCommand(site, "scheduler enable"),
       SetupNginx, ReloadNginx,
       SiteCommand(site, "list-apps")]
  }

  /** `restore_job`: download the requested backup files; restore from them; delete
      them in a `finally` block; then prune apps, migrate, reset the admin
      password, re-enable the scheduler, refresh nginx and list the apps. */
  function RestoreJob(env: Env, r: Run, keep: seq<string>, rootPassword: string, adminPassword: string,
                      refs: BackupRefs, skipFailingPatches: bool, creds: Credentials, files: Downloaded,
                      installed: seq<string>): (r': Run)
  {
    var fetched := Call(env, r, Download(r.site, refs));
    if fetched.raised then fetched
    else
      var restored := RestoreSite(env, fetched, rootPassword, adminPassword, creds,
                                  files.database, files.public, files.private);
      FinishRestore(env, restored, files, keep, adminPassword, skipFailingPatches, installed)
  }

  /** Everything from the `finally` block on. */
  function FinishRestore(env: Env, restored: Run, files: Downloaded, keep: seq<string>, adminPassword: string,
                         skipFailingPatches: bool, installed: seq<string>): (r: Run)
  {
    var cleaned := Finally(env, restored, DeleteDownloadedFiles(files.directory));
    AfterRestore(env, cleaned, keep, adminPassword, skipFailingPatches, installed)
  }

  /** The steps after the restore issue exactly their plan, stopping at the
      first one that raises. */
  lemma AfterRestoreFollowsPlan(env: Env, r: Run, keep: seq<string>, adminPassword: string,
                                skipFailingPatches: bool, installed: seq<string>)
    ensures AfterRestore(env, r, keep, adminPassword, skipFailingPatches, installed)
            == CallAll(env, r, AfterRestorePlan(r.site, keep, adminPassword, skipFailingPatches, installed))
  {
    var site := r.site;
    var removal := RemovalPlan(site, keep, installed);
    var tail := [SiteCommand(site, MigrateCommand(skipFailingPatches)),
                 SiteCommand(site, "set-admin-password " + adminPassword),
                 SiteCommand(site, "scheduler enable"),
                 SetupNginx, ReloadNginx,
                 SiteCommand(site, "list-apps")];
    UninstallFollowsPlan(env, r, keep, installed);
    CallAllAppend(env, r, removal, tail);
    var pruned := CallAll(env, r, removal);
    var s0 := pruned;
    CallAllCons(env, s0, tail[0], tail[1..]);
    var s1 := Call(env, s0, tail[0]);
    CallAllCons(env, s1, tail[1], tail[2..]);
    var s2 := Call(env, s1, tail[1]);
    CallAllCons(env, s2, tail[2], tail[3..]);
    var s3 := Call(env, s2, tail[2]);
    CallAllCons(env, s3, tail[3], tail[4..]);
    var s4 := Call(env, s3, tail[3]);
    CallAllCons(env, s4, tail[4], tail[5..]);
    var s5 := Call(env, s4, tail[4]);
    CallAllCons(env, s5, tail[5], []);
  }

  /** Only bench commands and nginx calls follow the restore. */
  predicate IsLaterEffect(e: Effect) {
    e.BenchCommand? || e.SetupNginx? || e.ReloadNginx?
  }

  lemma {:induction false} RemovalCommandsAreBenchCommands(site: Site, apps: seq<string>)
    ensures forall e :: e in RemovalCommands(site, apps) ==> e.BenchCommand?
    decreases |apps|
  {
    if |apps| > 0 {
      RemovalCommandsAreBenchCommands(site, apps[1..]);
      assert RemovalCommands(site, apps)
             == [RemoveAppCommand(site, apps[0]), SiteCommand(site, "clear-cache")] + RemovalCommands(site, apps[1..]);
    }
  }

  lemma AfterRestorePlanIsLater(site: Site, keep: seq<string>, adminPassword: string,
                                skipFailingPatches: bool, installed: seq<string>)
    ensures forall e :: e in AfterRestorePlan(site, keep, adminPassword, skipFailingPatches, installed) ==> IsLaterEffect(e)
  {
    RemovalCommandsAreBenchCommands(site, Filter(installed, (a: string) => a !in keep));
  }

  /** The later steps only extend the trace, only with bench commands and
      nginx calls, and do nothing once the restore has raised. */
  lemma AfterRestoreIssuesLaterEffects(env: Env, r: Run, keep: seq<string>, adminPassword: string,
                                       skipFailingPatches: bool, installed: seq<string>)
    ensures var r' := AfterRestore(env, r, keep, adminPassword, skipFailingPatches, installed);
            && |r.trace| <= |r'.trace| && r'.trace == r.trace + r'.trace[|r.trace|..]
            && (forall e :: e in r'.trace[|r.trace|..] ==> IsLaterEffect(e))
            && (r.raised ==> r' == r)
  {
    var plan := AfterRestorePlan(r.site, keep, adminPassword, skipFailingPatches, installed);
    AfterRestoreFollowsPlan(env, r, keep, adminPassword, skipFailingPatches, installed);
    CallAllIssuesPrefix(env, r, plan);
    AfterRestorePlanIsLater(r.site, keep, adminPassword, skipFailingPatches, installed);
    var r' := CallAll(env, r, plan);
    var t := r'.trace[|r.trace|..];
    assert t == plan[..|t|];
    assert r'.trace == r'.trace[..|r.trace|] + t;
    forall e | e in t ensures IsLaterEffect(e) {
      var i :| 0 <= i < |t| && t[i] == e;
      assert plan[i] == e;
    }
  }

  /** After the restore: the deletion, then only later steps, and none of
      them once the restore has raised. An effect the later steps never
      issue is added exactly as often as it is the deletion. */
  lemma FinishRestoreTrace(env: Env, restored: Run, files: Downloaded, keep: seq<string>, adminPassword: string,
                           skipFailingPatches: bool, installed: seq<string>, x: Effect)
    requires !IsLaterEffect(x)
    ensures var r' := FinishRestore(env, restored, files, keep, adminPassword, skipFailingPatches, installed);
            var delete := DeleteDownloadedFiles(files.directory);
            && |restored.trace| < |r'.trace|
            && r'.trace[..|restored.trace| + 1] == restored.trace + [delete]
            && (restored.raised ==> r'.trace == restored.trace + [delete] && r'.raised)
            && Count(r'.trace, x) == Count(restored.trace, x) + (if x == delete then 1 else 0)
  {
    var delete := DeleteDownloadedFiles(files.directory);
    var cleaned := Finally(env, restored, delete);
    var r' := FinishRestore(env, restored, files, keep, adminPassword, skipFailingPatches, installed);
    AfterRestoreIssuesLaterEffects(env, cleaned, keep, adminPassword, skipFailingPatches, installed);
    var later := r'.trace[|cleaned.trace|..];
    assert r'.trace == restored.trace + [delete] + later;
    assert x !in later;
    CountAppend(restored.trace + [delete], later, x);
    CountAppend(restored.trace, [delete], x);
  }

  /** Counting inside a temporary-user section. */
  lemma CountGranted(site: Site, rootPassword: string, command: string, x: Effect)
    requires x != SiteCommand(site, command) && x != CreateUser(site, rootPassword)
    ensures Count(GrantedEffects(site, rootPassword, command), x) == (if x == DropUser(site, rootPassword) then 1 else 0)
  {
    var g := GrantedEffects(site, rootPassword, command);
    assert g[1..] == [SiteCommand(site, command), DropUser(site, rootPassword)];
    assert g[1..][1..] == [DropUser(site, rootPassword)];
    assert [DropUser(site, rootPassword)][1..] == [];
  }

  /** A temporary-user section adds one drop once the grant succeeded and
      no deletion. */
  lemma WithTemporaryUserCount(env: Env, r: Run, rootPassword: string, command: string, x: Effect)
    requires !r.raised
    requires x.DropDbUser? || x.DeleteDownloadedFiles?
    ensures var t := WithTemporaryUser(env, r, rootPassword, command).trace;
            Count(t, x) == Count(r.trace, x)
              + (if !env.fails(r.trace, CreateUser(r.site, rootPassword)) && x == DropUser(r.site, rootPassword) then 1 else 0)
  {
    var create := CreateUser(r.site, rootPassword);
    TemporaryUserDroppedOnce(env, r, rootPassword, command);
    if env.fails(r.trace, create) {
      CountAppend(r.trace, [create], x);
    } else {
      CountAppend(r.trace, GrantedEffects(r.site, rootPassword, command), x);
      CountGranted(r.site, rootPassword, command, x);
    }
  }

  /** The restore proper adds no deletion, and one drop exactly when the
      grant succeeded. */
  lemma RestoreSiteCount(env: Env, r: Run, rootPassword: string, adminPassword: string, refs: BackupRefs,
                         creds: Credentials, files: Downloaded, x: Effect)
    requires !r.raised
    requires !env.fails(r.trace, Download(r.site, refs))
    requires x.DropDbUser? || x.DeleteDownloadedFiles?
    ensures var fetched := Run(r.site, r.trace + [Download(r.site, refs)], false);
            var restored := RestoreSite(env, fetched, rootPassword, adminPassword, creds,
                                        files.database, files.public, files.private);
            Count(restored.trace, x) == Count(r.trace, x)
              + (if !env.fails(fetched.trace, CreateUser(r.site, rootPassword)) && x == DropUser(r.site, rootPassword)
                 then 1 else 0)
  {
    var fetched := Run(r.site, r.trace + [Download(r.site, refs)], false);
    var command := RestoreCommand(creds, adminPassword, r.site.bench.sitesDirectory,
                                  files.database, files.public, files.private);
    WithTemporaryUserCount(env, fetched, rootPassword, command, x);
    CountAppend(r.trace, [Download(r.site, refs)], x);
  }

  /** The cleanup guarantee of `restore_job`: once the files are downloaded
      they are deleted exactly once, right after the restore, whether or not
      the restore raised; if it raised, nothing after the deletion runs. */
  lemma RestoreJobCleansUp(env: Env, r: Run, keep: seq<string>, rootPassword: string, adminPassword: string,
                           refs: BackupRefs, skipFailingPatches: bool, creds: Credentials, files: Downloaded, installed: seq<string>)
    requires !r.raised
    requires !env.fails(r.trace, Download(r.site, refs))
    ensures var r' := RestoreJob(env, r, keep, rootPassword, adminPassword, refs, skipFailingPatches, creds, files, installed);
            var fetched := Run(r.site, r.trace + [Download(r.site, refs)], false);
            var restored := RestoreSite(env, fetched, rootPassword, adminPassword, creds,
                                        files.database, files.public, files.private);
            var delete := DeleteDownloadedFiles(files.directory);
            && |restored.trace| < |r'.trace|
            && r'.trace[..|restored.trace| + 1] == restored.trace + [delete]
            && (restored.raised ==> r'.trace == restored.trace + [delete] && r'.raised)
            && Count(r'.trace, delete) == Count(r.trace, delete) + 1
  {
    var fetched := Run(r.site, r.trace + [Download(r.site, refs)], false);
    var restored := RestoreSite(env, fetched, rootPassword, adminPassword, creds,
                                files.database, files.public, files.private);
    var delete := DeleteDownloadedFiles(files.directory);
    FinishRestoreTrace(env, restored, files, keep, adminPassword, skipFailingPatches, installed, delete);
    RestoreSiteCount(env, r, rootPassword, adminPassword, refs, creds, files, delete);
  }

  /** Once the temporary user was granted, the job drops it exactly once,
      whatever raises afterwards. */
  lemma RestoreJobDropsTheUser(env: Env, r: Run, keep: seq<string>, rootPassword: string, adminPassword: string,
                               refs: BackupRefs, skipFailingPatches: bool, creds: Credentials, files: Downloaded, installed: seq<string>)
    requires !r.raised
    requires !env.fails(r.trace, Download(r.site, refs))
    requires !env.fails(r.trace + [Download(r.site, refs)], CreateUser(r.site, rootPassword))
    ensures var r' := RestoreJob(env, r, keep, rootPassword, adminPassword, refs, skipFailingPatches, creds, files, installed);
            Count(r'.trace, DropUser(r.site, rootPassword)) == Count(r.trace, DropUser(r.site, rootPassword)) + 1
  {
    var fetched := Run(r.site, r.trace + [Download(r.site, refs)], false);
    var restored := RestoreSite(env, fetched, rootPassword, adminPassword, creds,
                                files.database, files.public, files.private);
    var drop := DropUser(r.site, rootPassword);
    FinishRestoreTrace(env, restored, files, keep, adminPassword, skipFailingPatches, installed, drop);
    RestoreSiteCount(env, r, rootPassword, adminPassword, refs, creds, files, drop);
  }

  /** A restore that raises nowhere issues, in order: the download of the
      requested backups, the temporary-user section around the restore
      command, the deletion of the files, and the later steps' plan. */
  lemma RestoreJobOnSuccess(env: Env, r: Run, keep: seq<string>, rootPassword: string, adminPassword: string,
                            refs: BackupRefs, skipFailingPatches: bool, creds: Credentials, files: Downloaded, installed: seq<string>)
    requires !r.raised
    requires !RestoreJob(env, r, keep, rootPassword, adminPassword, refs, skipFailingPatches, creds, files, installed).raised
    ensures var r' := RestoreJob(env, r, keep, rootPassword, adminPassword, refs, skipFailingPatches, creds, files, installed);
            var command := RestoreCommand(creds, adminPassword, r.site.bench.sitesDirectory,
                                          files.database, files.public, files.private);
            && r'.site == r.site
            && r'.trace == r.trace + [DownloadFiles(r.site.name, refs.database, refs.public, refs.private)]
                           + GrantedEffects(r.site, rootPassword, command)
                           + [DeleteDownloadedFiles(files.directory)]
                           + AfterRestorePlan(r.site, keep, adminPassword, skipFailingPatches, installed)
  {
    var download := Download(r.site, refs);
    var fetched := Call(env, r, download);
    var command := RestoreCommand(creds, adminPassword, r.site.bench.sitesDirectory,
                                  files.database, files.public, files.private);
    assert !fetched.raised;
    var restored := RestoreSite(env, fetched, rootPassword, adminPassword, creds,
                                files.database, files.public, files.private);
    var cleaned := Finally(env, restored, DeleteDownloadedFiles(files.directory));
    var plan := AfterRestorePlan(r.site, keep, adminPassword, skipFailingPatches, installed);
    AfterRestoreFollowsPlan(env, cleaned, keep, adminPassword, skipFailingPatches, installed);
    TemporaryUserDroppedOnce(env, fetched, rootPassword, command);
    assert !cleaned.raised;
    CallAllSucceeds(env, cleaned, plan);
  }

  /** A failed download stops the job before anything else is issued. */
  lemma RestoreJobStopsOnFailedDownload(env: Env, r: Run, keep: seq<string>, rootPassword: string,
                                        adminPassword: string, refs: BackupRefs, skipFailingPatches: bool, creds: Credentials,
                                        files: Downloaded, installed: seq<string>)
    requires !r.raised
    requires env.fails(r.trace, Download(r.site, refs))
    ensures var r' := RestoreJob(env, r, keep, rootPassword, adminPassword, refs, skipFailingPatches, creds, files, installed);
            r'.raised && r'.trace == r.trace + [DownloadFiles(r.site.name, refs.database, refs.public, refs.private)]
  {
  }
}
