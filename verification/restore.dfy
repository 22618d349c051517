/** `restore` and `reinstall`: both run one bench command under a temporary
    database user that is created first and dropped in a `finally` block, so
    the grant never outlives the command. `restore` also rewrites the host
    paths of the backup files into the container's mount and passes the file
    options only for non-empty paths. */
module Restore {
  import opened Lists
  import opened Text
  import opened Sites
  import opened Runner
  import opened Steps

  /** The user name and password `create_mariadb_user` hands back. */
  datatype Credentials = Credentials(user: string, password: string)

  /** A host path as seen inside the bench container: every occurrence of the
      sites directory is replaced by the mount point (`str.replace`). */
  function Rewrite(path: string, sitesDirectory: string): (r: string) {
    Replace(path, sitesDirectory, MountedSites)
  }

  function PublicOption(path: string): (r: string) {
    if path != "" then "--with-public-files " + path else ""
  }

  function PrivateOption(path: string): (r: string) {
    if path != "" then "--with-private-files " + path + " " else ""
  }

  function RestoreCommand(creds: Credentials, adminPassword: string, sitesDirectory: string,
                          database: string, public: string, private: string): (r: string)
  {
    "--force restore --mariadb-root-username " + creds.user
    + " --mariadb-root-password " + creds.password
    + " --admin-password " + adminPassword
    + " " + PublicOption(Rewrite(public, sitesDirectory))
    + " " + PrivateOption(Rewrite(private, sitesDirectory))
    + " " + Rewrite(database, sitesDirectory)
  }

  function ReinstallCommand(creds: Credentials, adminPassword: string): (r: string) {
    "reinstall --yes --mariadb-root-username " + creds.user
    + " --mariadb-root-password " + creds.password
    + " --admin-password " + adminPassword
  }

  function CreateUser(site: Site, rootPassword: string): (r: Effect) {
    CreateDbUser(site.name, rootPassword, site.database)
  }

  function DropUser(site: Site, rootPassword: string): (r: Effect) {
    DropDbUser(site.name, rootPassword, site.database)
  }

  /** Create the temporary user; if that worked, run `command` and drop the
      user in a `finally` block. */
  function WithTemporaryUser(env: Env, r: Run, rootPassword: string, command: string): (r': Run) {
    if r.raised then r
    else
      var granted := Call(env, r, CreateUser(r.site, rootPassword));
      if granted.raised then granted
      else Finally(env, Call(env, granted, SiteCommand(r.site, command)), DropUser(r.site, rootPassword))
  }

  /** `restore`: the paths are the downloaded backup files on the host. */
  function RestoreSite(env: Env, r: Run, rootPassword: string, adminPassword: string, creds: Credentials,
                       database: string, public: string, private: string): (r': Run)
  {
    WithTemporaryUser(env, r, rootPassword,
      RestoreCommand(creds, adminPassword, r.site.bench.sitesDirectory, database, public, private))
  }

  function ReinstallSite(env: Env, r: Run, rootPassword: string, adminPassword: string, creds: Credentials): (r': Run) {
    WithTemporaryUser(env, r, rootPassword, ReinstallCommand(creds, adminPassword))
  }

  /** The effects of a temporary-user section that got its grant. */
  function GrantedEffects(site: Site, rootPassword: string, command: string): (r: seq<Effect>) {
    [CreateUser(site, rootPassword), SiteCommand(site, command), DropUser(site, rootPassword)]
  }

  /** The cleanup guarantee: once the user has been created it is dropped
      exactly once, as the last effect, whether the command succeeded or
      raised; if the creation itself raised, nothing else runs and nothing
      is dropped. The site is left unchanged. */
  lemma TemporaryUserDroppedOnce(env: Env, r: Run, rootPassword: string, command: string)
    requires !r.raised
    ensures var r' := WithTemporaryUser(env, r, rootPassword, command);
            var create := CreateUser(r.site, rootPassword);
            var drop := DropUser(r.site, rootPassword);
            && r'.site == r.site
            && |r.trace| <= |r'.trace| && r'.trace[..|r.trace|] == r.trace
            && (env.fails(r.trace, create) ==>
                  r'.trace == r.trace + [create] && r'.raised
                  && Count(r'.trace[|r.trace|..], drop) == 0)
            && (!env.fails(r.trace, create) ==>
                  r'.trace == r.trace + GrantedEffects(r.site, rootPassword, command)
                  && Count(r'.trace[|r.trace|..], drop) == 1
                  && (r'.raised <==> env.fails(r.trace + [create], SiteCommand(r.site, command))
                                     || env.fails(r.trace + [create, SiteCommand(r.site, command)], drop)))
  {
    var r' := WithTemporaryUser(env, r, rootPassword, command);
    var create := CreateUser(r.site, rootPassword);
    var run := SiteCommand(r.site, command);
    var drop := DropUser(r.site, rootPassword);
    if env.fails(r.trace, create) {
      assert r'.trace[|r.trace|..] == [create];
    } else {
      assert r.trace + [create] + [run] + [drop] == r.trace + [create, run, drop];
      assert r.trace + [create] + [run] == r.trace + [create, run];
      assert r'.trace[|r.trace|..] == [create, run, drop];
      assert Count([drop], drop) == 1;
      assert Count([run, drop], drop) == 1;
    }
  }

  /** `restore` and `reinstall` both run under that guarantee. */
  lemma RestoreAndReinstallDropTheUser(env: Env, r: Run, rootPassword: string, adminPassword: string,
                                       creds: Credentials, database: string, public: string, private: string)
    requires !r.raised
    requires !env.fails(r.trace, CreateUser(r.site, rootPassword))
    ensures var c := RestoreCommand(creds, adminPassword, r.site.bench.sitesDirectory, database, public, private);
            RestoreSite(env, r, rootPassword, adminPassword, creds, database, public, private).trace
            == r.trace + GrantedEffects(r.site, rootPassword, c)
    ensures ReinstallSite(env, r, rootPassword, adminPassword, creds).trace
            == r.trace + GrantedEffects(r.site, rootPassword, ReinstallCommand(creds, adminPassword))
  {
    TemporaryUserDroppedOnce(env, r, rootPassword,
      RestoreCommand(creds, adminPassword, r.site.bench.sitesDirectory, database, public, private));
    TemporaryUserDroppedOnce(env, r, rootPassword, ReinstallCommand(creds, adminPassword));
  }

  /** Path rewriting replaces every occurrence of the sites directory: the
      rewritten path is the path cut at each occurrence and glued back with
      the mount point, and a path without an occurrence is passed through. */
  lemma RewriteReplacesEveryOccurrence(path: string, sitesDirectory: string)
    requires sitesDirectory != ""
    ensures Rewrite(path, sitesDirectory) == Join(Split(path, sitesDirectory), MountedSites)
    ensures Join(Split(path, sitesDirectory), sitesDirectory) == path
    ensures IndexOf(path, sitesDirectory).None? ==> Rewrite(path, sitesDirectory) == path
  {
    ReplaceIsSplitJoin(path, sitesDirectory, MountedSites);
    if IndexOf(path, sitesDirectory).None? {
      ReplaceAbsent(path, sitesDirectory, MountedSites);
    }
  }

  /** The file options appear exactly for the non-empty paths (for a sites
      directory that is not the empty string, which `str.replace` would
      splice into every path, making both options always appear). */
  lemma FileOptionsOnlyForGivenPaths(public: string, private: string, sitesDirectory: string)
    ensures PublicOption(Rewrite(public, sitesDirectory)) != "" <==> public != "" || sitesDirectory == ""
    ensures PrivateOption(Rewrite(private, sitesDirectory)) != "" <==> private != "" || sitesDirectory == ""
    ensures public != "" ==>
              PublicOption(Rewrite(public, sitesDirectory)) == "--with-public-files " + Rewrite(public, sitesDirectory)
  {
    ReplaceEmptyIff(public, sitesDirectory, MountedSites);
    ReplaceEmptyIff(private, sitesDirectory, MountedSites);
  }
}
