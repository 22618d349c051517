# Site control plane: a Dafny model of `agent/site.py`

`agent/site.py` defines the `Site` of a bench agent. A site owns a directory
under the bench's sites directory, a JSON configuration document
(`site_config.json`) and a database. It runs jobs made of steps: rename,
restore, reinstall, backup with offsite upload, domain changes, app
reconciliation, table-level dumps and loads, and maintenance-mode handling.
Every step ends up as a command in the bench container (`bench --site <name> ...`),
a shell command on the host, a database grant, a file-system change, an
upload to the offsite bucket or an nginx reload.

This project models the decision and sequencing logic of those steps:

- **Effects as a trace.** Every external action is a `Runner.Effect` appended
  to a trace. An oracle `Env.fails(history, effect)` decides whether the
  action raises. It sees everything issued before, so a failure may depend on
  history. A second oracle, `Env.took`, says how many milliseconds an action
  takes; only the readiness poller uses it.
- **Exceptions.** A `Runner.Run` carries the site, the trace and a `raised`
  flag. `Call` does nothing once an exception is propagating. `Swallow` is
  `try/except: pass`, and `Finally` is a `finally` block. A job is its steps
  composed in source order.
- **Plans.** Each loop is written the way the source writes it. A lemma then
  shows that it issues exactly a declarative plan (`Runner.CallAll` over a
  list built with `Lists.Filter`/`Lists.Map`) and stops at the first effect
  that raises.
- **Data.** The config document is `map<string, Value>`. A directory listing
  is a sequence of `(name, mtime, size)` entries. Strings are `seq<char>`, and
  Python's `str.replace`, `str.split`, `os.path.join` and `os.path.basename`
  are written out in `Text`.
- **Collaborator outputs are parameters.** These are the temporary database
  credentials, the downloaded files, the installed-apps list, the `SHOW TABLES`
  output, the touched-tables manifest and the backup listing.

Modules: `Wrappers` (Option/Result), `Lists`, `Text`, `SiteConfig`,
`Sites` (construction), `Runner`, `Poller` (`wait_till_ready`), `Steps`
(single steps), `Restore` (`restore`/`reinstall`), `Backups`, `Domains`,
`Jobs` (`rename_job`, `restore_job`).

## Model

| member | source | states |
|---|---|---|
| Sites.Open | agent/site.py:16-40 | Construction succeeds exactly when the site directory exists, its `site_config.json` exists, and the config has `db_name` and `db_password`. A missing directory is reported first, as `NotADirectory`. On success the paths are derived from `<sites>/<name>`, user and database are both `db_name`, and the host is `db_host` or else the bench's host. |
| SiteConfig.PopAll | agent/site.py:219-221 | `pop(key, None)` for every listed key: the remaining keys are the old keys minus the listed ones, values are kept, and absent keys are no error. |
| SiteConfig.Update | agent/site.py:208-223 | Every key of `value` that is not removed gets its new value. Every removed key is absent, even when `value` has it. Every other key keeps its value, and no other key appears. |
| SiteConfig.UpdateNothing | agent/site.py:208-223 | `update_config({})` leaves the document unchanged. |
| SiteConfig.PopAbsent | agent/site.py:219-221 | Removing an absent key is a no-op. |
| SiteConfig.UpdateIdempotent | agent/site.py:208-223 | Applying the same update twice gives the same document as applying it once. |
| SiteConfig.UpdateJourneysConfig | agent/site.py:270-278 | A missing `journeys_config.json` is an error. Otherwise the keys are the union, keys of `value` take the new value, and the rest keep theirs. |
| SiteConfig.JourneysUpdateIsMerge | agent/site.py:270-278 | The journeys-config update is the site-config update with nothing removed. |
| Steps.UpdateConfigStep | agent/site.py:208-223 | The step writes the updated document to the site's config file. After a successful write the site holds that document; after a failed one the site is unchanged. |
| Lists.Dedup | agent/site.py:227-229 | `list(set(xs))`: the result has no duplicates and exactly the members of `xs`. |
| Domains.StoredDomains | agent/site.py:227 | `set(config.get("domains", []))`, read the same way by both domain jobs, iterates nothing when the key is absent, a list's items, or a string's characters. Any other value raises `NotIterable`. |
| Domains.NonIterableDomainsRaise | agent/site.py:226-239 | When `domains` holds a non-iterable value, `add_domain` (`Domains.AddDomain`) and `remove_domain` (`Domains.RemoveDomain`) raise before writing or reloading anything. |
| Domains.WithDomain | agent/site.py:226-231 | The written `domains` list has no duplicates, and its members are the old domains plus the new one. |
| Domains.WithoutDomain | agent/site.py:234-239 | The written `domains` list has no duplicates, and its members are the old domains minus the removed one. |
| Domains.AddDomainTwice | agent/site.py:226-231 | Adding a domain twice gives the same list as adding it once. |
| Domains.WriteDomainsOrder | agent/site.py:226-239 | The domain jobs write the config, then set up nginx, then reload it, and stop at the first failure. On success `domains` holds the new list and every other key is unchanged. |
| Domains.AddDomainIdempotent | agent/site.py:226-231 | A second `add_domain` of the same domain writes back the configuration the first one produced. |
| Domains.RemoveAbsentDomainStillReloads | agent/site.py:234-239 | Removing an absent domain keeps the set of domains, and the job still ends with nginx setup and reload. |
| Backups.ClassifyBySuffix | agent/site.py:529-538 | `Backups.Classify`: A name ending in `database.sql.gz` or `database-enc.sql.gz` is a database dump. A name ending in `private-files.tar` or `private-files-enc.tar` is a private archive and never a public one. A name ending in `files.tar` or `files-enc.tar` without a private suffix is a public archive, and every public archive has such a suffix. A name with none of the suffixes is ignored. |
| Backups.CandidatesDisjoint | agent/site.py:529-538 | Each file lands in at most one role's list. |
| Backups.Latest | agent/site.py:540-544 | `max(key=getmtime)`: the chosen entry has maximal mtime, and it is the first such entry. |
| Backups.Newest | agent/site.py:540-544 | There is no choice for a role exactly when the role has no candidate. Otherwise the choice is a candidate of that role with maximal mtime. |
| Backups.NewerIsChosen | agent/site.py:540-544 | Of two candidates of the same role, the newer one is chosen in either listing order. |
| Backups.NewerDumpIsChosen | agent/site.py:529-540 | With `a.database.sql.gz` older than `b.database.sql.gz`, the database dump chosen is `b`. |
| Backups.FetchLatestBackup | agent/site.py:523-552 | The fetch fails exactly when a needed role has no candidate. The first missing role in the order database, private, public is the one reported. The records come in that order, each described from its role's newest file. |
| Backups.WithoutFilesOnlyDatabase | agent/site.py:540-544 | Without files the result holds only the database record. |
| Backups.DescribeNamesTheEntry | agent/site.py:546-550 | `Backups.Describe`: A record's `file` is the listed name and its path is that name under `private/backups`. Its size is the entry's size, and its url is `https://<site>/backups/<file>`. |
| Backups.Settle | agent/site.py:303 | A fetch error after the backup command makes the step raise. A good fetch becomes the step's records, and the trace is the command's. |
| Backups.BackupSite | agent/site.py:299-303 | The step issues `backup --with-files` or `backup `. When nothing raises, its records are exactly what `fetch_latest_backup` returns. |
| Text.LastPieceOfSplit | agent/site.py:322 | The last piece of `file.split("/")` is the text after the last `/`. So the key name is the file's base name. |
| Backups.KeyMapIsComprehension | agent/site.py:321-324 | Assigning `offsite_files[name] = join(prefix, name)` in a loop gives the map that sends each listed name to itself under the prefix. A repeated name keeps the same value. |
| Backups.KeyNamesAreFiles | agent/site.py:322 | A file name without `/` is its own key name. |
| Backups.OffsiteKeysCorrect | agent/site.py:319-324 | Every record is keyed by its file name, mapped to that name joined under the prefix, and no other key exists. |
| Backups.UploadAllFollowsPlan | agent/site.py:319-327 | `Backups.UploadAll`: The upload loop issues one upload per record, in order, each under its offsite key, and stops at the first that raises. |
| Backups.UploadAllUploadsEveryFile | agent/site.py:319-327 | An upload loop that raises nowhere uploads every record. |
| Backups.OffloadOnSuccess | agent/site.py:514-521 | Uploads happen only when a destination is given. When they all succeed, the returned offsite map is the key map of the records. |
| Backups.BackupJobUploadsEveryFile | agent/site.py:513-521 | `Backups.BackupJob`: A backup job that raises nowhere issues the backup command, then every upload. It returns the fetched records and their offsite keys. |
| Restore.TemporaryUserDroppedOnce | agent/site.py:116-132 | Once the temporary database user is created, it is dropped exactly once, as the last effect, whether or not the command raised. If creation raised, nothing else runs. |
| Restore.RestoreAndReinstallDropTheUser | agent/site.py:176-189 | `Restore.RestoreSite` and `Restore.ReinstallSite`: `restore` and `reinstall` both issue create, command, drop once the grant succeeds. |
| Restore.RewriteReplacesEveryOccurrence | agent/site.py:99-108 | Every occurrence of the sites directory in a path is replaced by `/home/frappe/frappe-bench/sites`. A path without an occurrence passes through unchanged. |
| Restore.FileOptionsOnlyForGivenPaths | agent/site.py:110-114 | `--with-public-files` and `--with-private-files` appear exactly when the given path is non-empty. The one exception is an empty sites directory: replacing an empty pattern inserts the mount point even into an empty path. |
| Steps.DisableMaintenanceMode | agent/site.py:405-413 | The step issues the user-unblock call, then `set-maintenance-mode off`. A failure of the unblock call is swallowed, so only the second command decides whether the step raises. |
| Steps.MigrateCommand | agent/site.py:375-379 | The command is `migrate`, with ` --skip-failing` exactly when asked. |
| Steps.Migrate | agent/site.py:375-379 | The step issues the migrate command once. |
| Steps.InstallAppsFollowsPlan | agent/site.py:70-79 | `Steps.InstallApps`: The install loop issues `install-app` for the listed apps other than `frappe`, in order, and stops at the first failure. |
| Steps.InstallAppsNeverInstallsFrappe | agent/site.py:73-77 | No `install-app frappe` is ever issued. Without failures, every other listed app is installed. |
| Steps.RemovalCommandAt | agent/site.py:399-402 | The removal of the `i`-th app is command `2i` and is immediately followed by `clear-cache`. |
| Steps.RemovalCommandsPairs | agent/site.py:399-402 | The removal list alternates removal and `clear-cache`, with the removals in app order. |
| Steps.UninstallFollowsPlan | agent/site.py:395-402 | `Steps.UninstallUnavailableApps`: The step queries the installed apps, then removes each installed app outside the keep-list in installed order, stopping at the first failure. |
| Steps.RemovalPlanMentions | agent/site.py:399-402 | A removal for `app` is planned exactly when `app` is installed and not kept. |
| Steps.UninstallSparesKeptApps | agent/site.py:399-402 | Whatever fails, a kept app never receives a removal. |
| Steps.UninstallRemovesUnavailable | agent/site.py:395-402 | Without failures, every installed app outside the keep-list is removed. |
| Steps.DumpTablesFollowsPlan | agent/site.py:363-371 | The dump loop issues one `mysqldump` per table, in order. |
| Steps.TablewiseBackupDumpsEveryTable | agent/site.py:361-372 | `Steps.TablewiseBackup`: The step issues `SHOW TABLES`, then one dump per listed table into `<backup dir>/<table>.sql`, stopping at the first failure. |
| Steps.LoadTablesFollowsPlan | agent/site.py:418-425 | The load loop issues one `mysql` load per touched table that has a staged dump, in manifest order. |
| Steps.RestoreTouchedTablesSkipsUnstaged | agent/site.py:416-426 | `Steps.RestoreTouchedTables`: Exactly the touched tables with a staged file are loaded, in order, and tables without one are skipped. |
| Poller.PollShape | agent/site.py:344-351 | `Poller.Poll`: The trace is the attempts' probes and sleeps, and every attempt but the last failed. The attempts, spaced at least the 1 s sleep apart, fit in the 120 s timeout. There is an attempt exactly when the loop starts in time. The loop ends on a success, or on a failure only when the clock, read again after that probe, its sleep and the 1 s pause, is past the timeout. The final clock reading is the entry time when no attempt is made and the last start after a success. |
| Poller.PollFinalClock | agent/site.py:345-351 | The final clock reading is the entry time without attempts, the last start after a success, and the last start plus its probe, sleep and pause after a failure. |
| Poller.PollTiming | agent/site.py:343-346 | Each attempt has a start time. The first starts when the loop is entered, and no attempt starts at or after the 120 s timeout. |
| Poller.PollNextStart | agent/site.py:345-351 | The clock is read again before every attempt: the next attempt starts when the previous probe, its sleep and the 1 s pause are over. |
| Poller.SlowProbeIsTheOnlyAttempt | agent/site.py:345-351 | A probe that takes the whole timeout is the only attempt; no further probe is issued. |
| Poller.PollRecordsEveryAttempt | agent/site.py:344-351 | Each recorded attempt is the oracle's verdict on the probe issued at that point. |
| Poller.WaitTillReady | agent/site.py:340-352 | The loop computes the poll. There is at least one attempt and at most one per second of the timeout, and every attempt but the last failed. The first attempt starts at 0 and every attempt starts before the timeout. The loop stops at a success, and after a failure only once the clock, read after that probe and its sleep, is past the timeout. |
| Poller.WaitTillReadyBounds | agent/site.py:341-352 | The attempt count is bounded by the 120 s timeout over the 1 s sleep. The first attempt starts at 0 and none at or after the timeout. The loop ends at a success, or after a failure once the clock, read after that probe and its sleep, is past the timeout. |
| Jobs.WaitTillReadyStep | agent/site.py:340-352 | The step never raises and never changes the site. |
| Jobs.RenameStep | agent/site.py:51-55 | The step moves the site directory to `<sites>/<new name>`. The site takes the new name only when the move succeeded. |
| Jobs.RenamedConfigChangesOnlyHostName | agent/site.py:61-62 | `host_name` is rewritten to `https://<new>` exactly when it was `https://<old>`, and every other key is unchanged. |
| Jobs.QuiesceOnSuccess | agent/site.py:59-60 | Maintenance mode goes on (`Steps.EnableMaintenanceMode`, site.py:332-333), then the readiness probes run under the old name. |
| Jobs.RewriteHostNameOnSuccess | agent/site.py:61-62 | The config is written only when `host_name` named the old site. |
| Jobs.MoveAndReopenOnSuccess | agent/site.py:63-67 | The job moves the directory, sets up and reloads nginx, then lifts maintenance mode and enables the scheduler (`Steps.EnableScheduler`, site.py:433-434) under the new name. |
| Jobs.RenameJobOnSuccess | agent/site.py:58-67 | `Jobs.RenameJob`: A rename that raises nowhere issues its effects in the source's order. It ends with the new name and the rewritten configuration. |
| Jobs.RenameJobNamesOnlyAfterMove | agent/site.py:58-67 | The site's name changes only to the new name, and only after the directory move was issued. |
| Jobs.AfterRestoreFollowsPlan | agent/site.py:155-164 | After the restore, the job uninstalls, migrates, sets the admin password (`Steps.SetAdminPassword`, site.py:336-337), enables the scheduler (`Steps.EnableScheduler`), sets up and reloads nginx and lists apps, in that order, stopping at the first failure. |
| Jobs.FinishRestoreTrace | agent/site.py:152-164 | The deletion of the downloaded files follows the restore directly. If the restore raised, nothing follows the deletion. |
| Jobs.RestoreJobCleansUp | agent/site.py:145-164 | Once downloaded, the files are deleted exactly once, right after the restore, whether or not the restore raised. A raised restore runs none of the later steps. |
| Jobs.RestoreJobDropsTheUser | agent/site.py:145-154 | Once the temporary user was granted, the restore job drops it exactly once. |
| Jobs.RestoreJobOnSuccess | agent/site.py:145-164 | `Jobs.RestoreJob`: A restore job that raises nowhere issues the download of the requested database, public and private backups for the site, the create/restore/drop section, the deletion, then the later steps, in exactly that order. |
| Jobs.RestoreJobStopsOnFailedDownload | agent/site.py:145-146 | A failed download of the requested backups stops the job before anything else. |

## Left out

- Process, container and shell execution (`bench_execute`, `docker_execute`, `execute` of the base class) is an abstract effect plus a failure oracle. Captured output and the returned `data` dictionaries are not modelled.
- The `@job`/`@step` decorators of `agent.job` are transparent wrappers here. Job and step records are not modelled.
- The file-system effects (`os.rename`, `shutil.rmtree`, `os.listdir`, `os.stat`, JSON reads and writes) are effects or parameters. The config property and `setconfig` of the base class are not part of this model; `Run.site.config` stands for the document they read and write.
- JSON key order, indentation and `sort_keys` of written documents are not modelled, since a config is a map.
- The S3 client, bucket credentials and the upload transport are left out; only the bucket, key and local path of each upload are kept.
- `fetch_site_status` (HTTP ping), `fetch_site_info`, `get_usage`, `get_analytics`, `get_database_size`, `timezone`, `sid` and `fetch_site_analytics` are left out. They do I/O, float arithmetic or regex scraping.
- `clear_backup_directory`, `restore_site_tables(_job)`, `setup_erpnext`, `create_user`, `update_plan`, `install_app`, `uninstall_app`, `clear_cache`, `clear_website_cache`, `pause_scheduler`, `resume_scheduler` and the thin job wrappers (`migrate_job`, `reinstall_job`, `install_app_job`, `uninstall_app_job`, `update_config_job`, `update_saas_plan`, `clear_cache_job`) are left out, because they are outside the modelled core. Their control flow (one command, a directory reset, a loop over listed files, or a short chain of steps) adds nothing the modelled steps do not already show.
- Wall-clock time is an oracle of integer milliseconds per effect plus the 1000 ms sleep, not floating-point seconds.
- `json.loads` of the installed-apps output is not modelled; the parsed list is a parameter, and a parse failure is not represented.
- Concurrency: there is none in the source, and per-site serialisation is the caller's job.
- Sites.Open: the database name, user and password are the values rendered as strings; the source keeps the raw JSON values.
- Domains.WithDomain: Python's `list(set(...))` has no defined order. The model fixes first-occurrence order, so statements about the written list are about its members, not its order.
- Domains.StoredDomains: a `domains` entry holding a JSON object is not represented, since `Value` has no object case. A string iterates its characters and any other scalar raises, as in Python.
- Backups.FetchLatestBackup: the result is a sequence in role order (database, private, public) rather than a dictionary keyed by role. `mtime` is an integer, and ties go to the first entry in listing order.
- Poller.WaitTillReady: attempts are recorded as `Ready`/`NotReady` rather than the command output or the exception payload.
- Jobs.WaitTillReadyStep: assumes every failure of a readiness probe carries the `.data` payload the `except` branch appends. A failure without it would raise `AttributeError` inside the handler, escape `wait_till_ready` and abort `rename_job` with maintenance mode on. The model has no such path, because the exception classes of `agent.base` are not part of this model.
- SiteConfig.Value: a value is a string, a list of strings or a scalar. A `site_config.json` or `journeys_config.json` holding a nested object or a list of non-strings cannot be represented. This limits `Sites.Open`, `SiteConfig.Update`, `SiteConfig.UpdateJourneysConfig` and `Domains.StoredDomains`. `Update` and `PopAll` never inspect values, so their contracts would read the same with a richer value type.
- Jobs.RestoreJob: the local paths `download_files` hands back are a parameter. No contract relates them to the requested backups, because the bench's download code is not part of this model.
- Jobs.RenameStep: the site's stored `directory` (and the paths derived from it) keep the old location after a rename, as in the source. No step of the rename job reads them afterwards.
