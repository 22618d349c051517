/** Full backups: classify the files of `<site>/private/backups` by suffix,
    pick the latest file of each role, describe it (path, file name, size,
    URL), and map the chosen files to keys under an offsite prefix. */
module Backups {
  import opened Wrappers
  import opened Lists
  import opened Text
  import opened Sites
  import opened Runner

  datatype Role = DatabaseDump | PrivateFiles | PublicFiles

  /** A directory entry: its name, modification time and size in bytes. */
  datatype Entry = Entry(name: string, mtime: int, size: nat)

  datatype Artifact = Artifact(role: Role, path: string, file: string, size: nat, url: string)

  datatype BackupError = NoBackupFound(role: Role)

  /** The role a file name stands for. The tests run in this order, so a
      private-files archive, whose name also ends in `files.tar`, is private. */
  function Classify(name: string): (r: Option<Role>) {
    if EndsWith(name, "database.sql.gz") || EndsWith(name, "database-enc.sql.gz") then Some(DatabaseDump)
    else if EndsWith(name, "private-files.tar") || EndsWith(name, "private-files-enc.tar") then Some(PrivateFiles)
    else if EndsWith(name, "files.tar") || EndsWith(name, "files-enc.tar") then Some(PublicFiles)
    else None
  }

  /** Suffix facts behind the classification: a database suffix makes a
      dump, a private suffix a private archive (never a public one), any
      other `files` suffix a public archive, and a name without any known
      suffix is ignored. */
  lemma ClassifyBySuffix(name: string)
    ensures (EndsWith(name, "database.sql.gz") || EndsWith(name, "database-enc.sql.gz"))
              ==> Classify(name) == Some(DatabaseDump)
    ensures ((EndsWith(name, "files.tar") || EndsWith(name, "files-enc.tar"))
             && !EndsWith(name, "private-files.tar") && !EndsWith(name, "private-files-enc.tar"))
              ==> Classify(name) == Some(PublicFiles)
    ensures (EndsWith(name, "private-files.tar") || EndsWith(name, "private-files-enc.tar"))
              ==> Classify(name) == Some(PrivateFiles)
    ensures Classify(name) == Some(PublicFiles) ==>
              !EndsWith(name, "private-files.tar") && !EndsWith(name, "private-files-enc.tar")
              && (EndsWith(name, "files.tar") || EndsWith(name, "files-enc.tar"))
    ensures Classify(name) == None <==>
              !EndsWith(name, "database.sql.gz") && !EndsWith(name, "database-enc.sql.gz")
              && !EndsWith(name, "files.tar") && !EndsWith(name, "files-enc.tar")
  {
    if EndsWith(name, "private-files.tar") {
      assert name[|name| - 17..] == "private-files.tar";
      assert name[|name| - 9..] == name[|name| - 17..][8..];
      assert !EndsWith(name, "database.sql.gz") by {
        assert name[|name| - 1] == 'r';
      }
      assert !EndsWith(name, "database-enc.sql.gz") by {
        assert name[|name| - 1] == 'r';
      }
    }
    if EndsWith(name, "private-files-enc.tar") {
      assert name[|name| - 21..] == "private-files-enc.tar";
      assert name[|name| - 13..] == name[|name| - 21..][8..];
      assert !EndsWith(name, "database.sql.gz") by {
        assert name[|name| - 1] == 'r';
      }
      assert !EndsWith(name, "database-enc.sql.gz") by {
        assert name[|name| - 1] == 'r';
      }
    }
    if EndsWith(name, "files.tar") || EndsWith(name, "files-enc.tar") {
      assert name[|name| - 1] == 'r';
      assert !EndsWith(name, "database.sql.gz") && !EndsWith(name, "database-enc.sql.gz");
    }
  }

  /** The entries of one role, in listing order. */
  function Candidates(listing: seq<Entry>, role: Role): (r: seq<Entry>) {
    Filter(listing, (e: Entry) => Classify(e.name) == Some(role))
  }

  /** Every entry lands in at most one role's candidates, and an entry whose
      name matches no suffix in none. */
  lemma CandidatesDisjoint(listing: seq<Entry>, e: Entry, a: Role, b: Role)
    requires e in Candidates(listing, a) && e in Candidates(listing, b)
    ensures a == b
  {
    FilterMembership(listing, (x: Entry) => Classify(x.name) == Some(a), e);
    FilterMembership(listing, (x: Entry) => Classify(x.name) == Some(b), e);
  }

  /** `max(candidates, key=getmtime)`: the first entry with the greatest
      modification time. */
  function Latest(cs: seq<Entry>): (i: nat)
    requires |cs| > 0
    ensures i < |cs|
    ensures forall j :: 0 <= j < |cs| ==> cs[j].mtime <= cs[i].mtime
    ensures forall j :: 0 <= j < i ==> cs[j].mtime < cs[i].mtime
    decreases |cs|
  {
    if |cs| == 1 then 0
    else
      var best := Latest(cs[..|cs| - 1]);
      if cs[|cs| - 1].mtime > cs[best].mtime then |cs| - 1 else best
  }

  function BackupsDirectory(site: Site): (r: string) {
    PathJoin(PathJoin(site.directory, "private"), "backups")
  }

  function Describe(site: Site, role: Role, e: Entry): (r: Artifact) {
    var path := PathJoin(BackupsDirectory(site), e.name);
    var file := Basename(path);
    Artifact(role, path, file, e.size, "https://" + site.name + "/backups/" + file)
  }

  /** The newest candidate of a role, if there is one. */
  function Newest(listing: seq<Entry>, role: Role): (r: Option<Entry>)
    ensures r.None? <==> |Candidates(listing, role)| == 0
    ensures r.Some? ==> r.value in Candidates(listing, role) && Classify(r.value.name) == Some(role)
    ensures r.Some? ==> forall x :: x in Candidates(listing, role) ==> x.mtime <= r.value.mtime
  {
    var cs := Candidates(listing, role);
    if |cs| == 0 then None
    else
      var e := cs[Latest(cs)];
      assert e in cs;
      Some(e)
  }

  /** Of two candidates of a role the newer one is chosen, whatever the
      listing order. */
  lemma NewerIsChosen(older: Entry, newer: Entry, role: Role)
    requires Classify(older.name) == Some(role) && Classify(newer.name) == Some(role)
    requires older.mtime < newer.mtime
    ensures Newest([older, newer], role) == Some(newer)
    ensures Newest([newer, older], role) == Some(newer)
  {
    var isRole := (x: Entry) => Classify(x.name) == Some(role);
    FilterMembership([older, newer], isRole, newer);
    FilterMembership([newer, older], isRole, newer);
    FilterMembership([older, newer], isRole, Newest([older, newer], role).value);
    FilterMembership([newer, older], isRole, Newest([newer, older], role).value);
  }

  /** With `a.database.sql.gz` older than `b.database.sql.gz`, the dump
      chosen is `b`. */
  lemma NewerDumpIsChosen()
    ensures Newest([Entry("a.database.sql.gz", 1, 10), Entry("b.database.sql.gz", 2, 20)], DatabaseDump)
            == Some(Entry("b.database.sql.gz", 2, 20))
  {
    assert "a.database.sql.gz"[2..] == "database.sql.gz";
    assert "b.database.sql.gz"[2..] == "database.sql.gz";
    NewerIsChosen(Entry("a.database.sql.gz", 1, 10), Entry("b.database.sql.gz", 2, 20), DatabaseDump);
  }

  /** The roles fetched, in the order the result lists them. */
  function Roles(withFiles: bool): (r: seq<Role>) {
    if withFiles then [DatabaseDump, PrivateFiles, PublicFiles] else [DatabaseDump]
  }

  /** `fetch_latest_backup(with_files)`: the database dump, then (with files)
      the private and the public archive; the first of these without a
      candidate raises (Python's `max` of an empty list). The result lists the
      roles in `Roles` order, each described from its newest candidate. */
  function FetchLatestBackup(site: Site, listing: seq<Entry>, withFiles: bool): (r: Result<seq<Artifact>, BackupError>)
    ensures r.Ok? <==> Newest(listing, DatabaseDump).Some?
                       && (withFiles ==> Newest(listing, PrivateFiles).Some? && Newest(listing, PublicFiles).Some?)
    ensures Newest(listing, DatabaseDump).None? ==> r == Err(NoBackupFound(DatabaseDump))
    ensures withFiles && Newest(listing, DatabaseDump).Some? && Newest(listing, PrivateFiles).None?
            ==> r == Err(NoBackupFound(PrivateFiles))
    ensures withFiles && Newest(listing, DatabaseDump).Some? && Newest(listing, PrivateFiles).Some?
            && Newest(listing, PublicFiles).None?
            ==> r == Err(NoBackupFound(PublicFiles))
    ensures r.Ok? ==> |r.value| == |Roles(withFiles)|
    ensures r.Ok? ==> r.value[0] == Describe(site, DatabaseDump, Newest(listing, DatabaseDump).value)
    ensures r.Ok? && withFiles ==> r.value[1] == Describe(site, PrivateFiles, Newest(listing, PrivateFiles).value)
    ensures r.Ok? && withFiles ==> r.value[2] == Describe(site, PublicFiles, Newest(listing, PublicFiles).value)
  {
    Assemble(site, Newest(listing, DatabaseDump), Newest(listing, PrivateFiles), Newest(listing, PublicFiles), withFiles)
  }

  /** The result built from the newest entry of each role, checking the roles
      in the order the source computes them. */
  function Assemble(site: Site, db: Option<Entry>, pv: Option<Entry>, pb: Option<Entry>, withFiles: bool)
    : (r: Result<seq<Artifact>, BackupError>)
    ensures r.Ok? <==> db.Some? && (withFiles ==> pv.Some? && pb.Some?)
    ensures db.None? ==> r == Err(NoBackupFound(DatabaseDump))
    ensures withFiles && db.Some? && pv.None? ==> r == Err(NoBackupFound(PrivateFiles))
    ensures withFiles && db.Some? && pv.Some? && pb.None? ==> r == Err(NoBackupFound(PublicFiles))
    ensures r.Ok? ==> |r.value| == |Roles(withFiles)|
    ensures r.Ok? ==> r.value[0] == Describe(site, DatabaseDump, db.value)
    ensures r.Ok? && withFiles ==> r.value[1] == Describe(site, PrivateFiles, pv.value)
    ensures r.Ok? && withFiles ==> r.value[2] == Describe(site, PublicFiles, pb.value)
  {
    if db.None? then Err(NoBackupFound(DatabaseDump))
    else if !withFiles then Ok([Describe(site, DatabaseDump, db.value)])
    else if pv.None? then Err(NoBackupFound(PrivateFiles))
    else if pb.None? then Err(NoBackupFound(PublicFiles))
    else Ok([Describe(site, DatabaseDump, db.value), Describe(site, PrivateFiles, pv.value),
             Describe(site, PublicFiles, pb.value)])
  }

  /** Without files the result holds the database dump alone. */
  lemma WithoutFilesOnlyDatabase(site: Site, listing: seq<Entry>)
    requires FetchLatestBackup(site, listing, false).Ok?
    ensures var bs := FetchLatestBackup(site, listing, false).value;
            |bs| == 1 && bs[0].role == DatabaseDump
  {
  }

  /** A record names the listed entry: its `file` is the entry name (listing
      names never contain `/`) and its `url` is `https://<site>/backups/<file>`. */
  lemma DescribeNamesTheEntry(site: Site, role: Role, e: Entry)
    requires '/' !in e.name
    ensures var a := Describe(site, role, e);
            && a.file == e.name
            && a.path == PathJoin(BackupsDirectory(site), e.name)
            && a.url == "https://" + site.name + "/backups/" + e.name
            && a.size == e.size
  {
    BasenameOfJoin(BackupsDirectory(site), e.name);
  }

  /** The `backup` step: run `bench backup`, with `--with-files` when asked
      (the flag text is also what turns on the file archives when fetching),
      then fetch the latest artifacts from the listing that follows. */
  datatype BackupRun = BackupRun(run: Run, backups: seq<Artifact>)

  function BackupCommand(withFiles: bool): (r: string) {
    "backup " + (if withFiles then "--with-files" else "")
  }

  function BackupSite(env: Env, r: Run, withFiles: bool, listing: seq<Entry>): (b: BackupRun)
    ensures !r.raised ==> IsPrefix(r.trace + [SiteCommand(r.site, BackupCommand(withFiles))], b.run.trace)
    ensures b.run.trace == Call(env, r, SiteCommand(r.site, BackupCommand(withFiles))).trace
    ensures !b.run.raised ==> FetchLatestBackup(r.site, listing, withFiles) == Ok(b.backups)
  {
    Settle(Call(env, r, SiteCommand(r.site, BackupCommand(withFiles))), FetchLatestBackup(r.site, listing, withFiles))
  }

  /** After the backup command: a failed fetch raises, a good one is the result. */
  function Settle(ran: Run, fetched: Result<seq<Artifact>, BackupError>): (b: BackupRun)
    ensures b.run.trace == ran.trace
    ensures b.run.raised <==> ran.raised || fetched.Err?
    ensures !b.run.raised ==> fetched == Ok(b.backups)
  {
    if ran.raised then BackupRun(ran, [])
    else match fetched
      case Err(_) => BackupRun(ran.(raised := true), [])
      case Ok(bs) => BackupRun(ran, bs)
  }

  /** The offsite destination: bucket and path prefix (credentials are not modelled). */
  datatype Offsite = Offsite(bucket: string, prefix: string)

  /** `upload_offsite_backup`'s key map: the last `/`-segment of each record's
      file name (`Basename`, see `Text.LastPieceOfSplit`), mapped to that name
      joined under the prefix. */
  function OffsiteKeys(backups: seq<Artifact>, prefix: string): (r: map<string, string>) {
    KeyMap(KeyNames(backups), prefix)
  }

  /** The key name of each record, in order. */
  function KeyNames(backups: seq<Artifact>): (r: seq<string>) {
    Map(KeyName, backups)
  }

  function KeyName(a: Artifact): (r: string) {
    Basename(a.file)
  }

  /** A file name without a `/` is its own key name. */
  lemma KeyNamesAreFiles(backups: seq<Artifact>)
    requires forall i :: 0 <= i < |backups| ==> '/' !in backups[i].file
    ensures |KeyNames(backups)| == |backups|
    ensures forall i :: 0 <= i < |backups| ==> KeyNames(backups)[i] == backups[i].file
  {
    forall i | 0 <= i < |backups| ensures KeyNames(backups)[i] == backups[i].file {
      BasenameAfterSlash("", backups[i].file);
      assert "" + backups[i].file == backups[i].file;
    }
  }

  /** Each name mapped to itself joined under the prefix; later names
      overwrite earlier equal ones, as assignments into a dict do. */
  function KeyMap(names: seq<string>, prefix: string): (r: map<string, string>)
    decreases |names|
  {
    if |names| == 0 then map[]
    else
      var name := names[|names| - 1];
      KeyMap(names[..|names| - 1], prefix)[name := PathJoin(prefix, name)]
  }

  /** The loop's map is the one that sends every name to itself under the
      prefix: a later equal name overwrites with the same key. */
  lemma {:induction false} KeyMapIsComprehension(names: seq<string>, prefix: string)
    ensures KeyMap(names, prefix) == map n | n in names :: PathJoin(prefix, n)
    decreases |names|
  {
    if |names| > 0 {
      var n := |names| - 1;
      var init := names[..n];
      KeyMapIsComprehension(init, prefix);
      assert names == init + [names[n]];
      assert forall x :: x in names <==> x in init || x == names[n];
    }
  }

  /** Every record is keyed by its file name under the prefix, and nothing else is. */
  lemma OffsiteKeysCorrect(backups: seq<Artifact>, prefix: string)
    requires forall i :: 0 <= i < |backups| ==> '/' !in backups[i].file
    ensures var keys := OffsiteKeys(backups, prefix);
            && (forall i :: 0 <= i < |backups| ==>
                  backups[i].file in keys && keys[backups[i].file] == PathJoin(prefix, backups[i].file))
            && (forall name :: name in keys ==> exists i :: 0 <= i < |backups| && backups[i].file == name)
  {
    var names := KeyNames(backups);
    KeyNamesAreFiles(backups);
    KeyMapIsComprehension(names, prefix);
    forall name | name in OffsiteKeys(backups, prefix)
      ensures exists i :: 0 <= i < |backups| && backups[i].file == name
    {
      var i :| 0 <= i < |names| && names[i] == name;
      assert backups[i].file == name;
    }
  }

  /** The upload loop: each chosen file is uploaded under its key, in order,
      stopping at the first upload that raises. */
  function UploadAll(env: Env, r: Run, backups: seq<Artifact>, offsite: Offsite): (r': Run)
    decreases |backups|
  {
    if |backups| == 0 then r
    else
      var name := KeyName(backups[0]);
      var uploaded := Call(env, r, Upload(offsite.bucket, PathJoin(offsite.prefix, name), backups[0].path));
      UploadAll(env, uploaded, backups[1..], offsite)
  }

  /** The upload the loop issues for one record. */
  function UploadOf(offsite: Offsite, a: Artifact): (r: Effect) {
    Upload(offsite.bucket, PathJoin(offsite.prefix, KeyName(a)), a.path)
  }

  function UploadPlan(backups: seq<Artifact>, offsite: Offsite): (r: seq<Effect>) {
    Map((a: Artifact) => UploadOf(offsite, a), backups)
  }

  lemma {:induction false} UploadAllFollowsPlan(env: Env, r: Run, backups: seq<Artifact>, offsite: Offsite)
    ensures UploadAll(env, r, backups, offsite) == CallAll(env, r, UploadPlan(backups, offsite))
    decreases |backups|
  {
    if |backups| > 0 {
      var up := (a: Artifact) => UploadOf(offsite, a);
      assert backups == [backups[0]] + backups[1..];
      MapCons(up, backups[0], backups[1..]);
      CallAllCons(env, r, up(backups[0]), Map(up, backups[1..]));
      UploadAllFollowsPlan(env, Call(env, r, UploadOf(offsite, backups[0])), backups[1..], offsite);
    }
  }

  /** An upload loop that raises nowhere uploads every record, in order. */
  lemma UploadAllUploadsEveryFile(env: Env, r: Run, backups: seq<Artifact>, offsite: Offsite)
    requires !r.raised && !UploadAll(env, r, backups, offsite).raised
    ensures UploadAll(env, r, backups, offsite).trace == r.trace + UploadPlan(backups, offsite)
  {
    UploadAllFollowsPlan(env, r, backups, offsite);
    CallAllSucceeds(env, r, UploadPlan(backups, offsite));
  }

  /** `backup_job`: back up, then upload offsite when a destination is given. */
  datatype BackupJobResult = BackupJobResult(run: Run, backups: seq<Artifact>, offsite: map<string, string>)

  function BackupJob(env: Env, r: Run, withFiles: bool, listing: seq<Entry>, offsite: Option<Offsite>): (r': BackupJobResult) {
    Offload(env, BackupSite(env, r, withFiles, listing), offsite)
  }

  /** The offsite half of the job, skipped when the backup raised or no
      destination is given. */
  function Offload(env: Env, b: BackupRun, offsite: Option<Offsite>): (r: BackupJobResult) {
    if b.run.raised then BackupJobResult(b.run, [], map[])
    else match offsite
      case None => BackupJobResult(b.run, b.backups, map[])
      case Some(o) =>
        var up := UploadAll(env, b.run, b.backups, o);
        BackupJobResult(up, b.backups, if up.raised then map[] else OffsiteKeys(b.backups, o.prefix))
  }

  lemma OffloadOnSuccess(env: Env, b: BackupRun, offsite: Option<Offsite>)
    requires !b.run.raised && !Offload(env, b, offsite).run.raised
    ensures var j := Offload(env, b, offsite);
            && j.backups == b.backups
            && (offsite.None? ==> j.run.trace == b.run.trace && j.offsite == map[])
            && (offsite.Some? ==>
                  j.run.trace == b.run.trace + UploadPlan(b.backups, offsite.value)
                  && j.offsite == OffsiteKeys(b.backups, offsite.value.prefix))
  {
    if offsite.Some? {
      UploadAllUploadsEveryFile(env, b.run, b.backups, offsite.value);
    }
  }

  /** A backup job that raises nowhere runs the backup command, then uploads
      every chosen file, in order, to the key its offsite map records; without
      a destination it uploads nothing. */
  lemma BackupJobUploadsEveryFile(env: Env, r: Run, withFiles: bool, listing: seq<Entry>, offsite: Option<Offsite>)
    requires !r.raised
    requires !BackupJob(env, r, withFiles, listing, offsite).run.raised
    ensures var j := BackupJob(env, r, withFiles, listing, offsite);
            var backup := SiteCommand(r.site, BackupCommand(withFiles));
            && FetchLatestBackup(r.site, listing, withFiles) == Ok(j.backups)
            && (offsite.None? ==> j.run.trace == r.trace + [backup] && j.offsite == map[])
            && (offsite.Some? ==>
                  j.run.trace == r.trace + [backup] + UploadPlan(j.backups, offsite.value)
                  && j.offsite == OffsiteKeys(j.backups, offsite.value.prefix))
  {
    var b := BackupSite(env, r, withFiles, listing);
    assert !b.run.raised;
    OffloadOnSuccess(env, b, offsite);
  }
}
