/** A site of a bench: its derived filesystem paths, its database
    credentials, and the validation done when a `Site` is constructed. */
module Sites {
  import opened Wrappers
  import opened Text
  import opened SiteConfig

  /** The parts of the owning bench the site reads. */
  datatype Bench = Bench(sitesDirectory: string, host: string)

  datatype Site = Site(
    name: string,
    bench: Bench,
    directory: string,
    backupDirectory: string,      // `<site>/.migrate`, table dumps
    logsDirectory: string,
    configFile: string,           // `<site>/site_config.json`
    touchedTablesFile: string,
    analyticsFile: string,
    database: string,
    user: string,
    password: string,
    host: string,
    config: Config)               // current content of `configFile`

  /** The filesystem as construction sees it: the existing directories and
      the parsed content of every existing configuration file. */
  datatype Disk = Disk(directories: set<string>, configs: map<string, Config>)

  datatype SiteError =
    | NotADirectory(path: string)
    | ConfigMissing(path: string)
    | MissingKey(key: string)

  /** `Site(name, bench)`: derive the paths, insist that the site directory
      and its config file exist, then read the database settings, falling
      back to the bench's host when the config names none. */
  function Open(name: string, bench: Bench, disk: Disk): (r: Result<Site, SiteError>)
    ensures var dir := PathJoin(bench.sitesDirectory, name);
            var file := PathJoin(dir, "site_config.json");
            r.Ok? <==> dir in disk.directories && file in disk.configs
                       && "db_name" in disk.configs[file] && "db_password" in disk.configs[file]
    ensures var dir := PathJoin(bench.sitesDirectory, name);
            dir !in disk.directories ==> r == Err(NotADirectory(dir))
    ensures r.Ok? ==>
              var s := r.value;
              && s.name == name
              && s.bench == bench
              && s.directory == PathJoin(bench.sitesDirectory, name)
              && s.configFile == PathJoin(s.directory, "site_config.json")
              && s.backupDirectory == PathJoin(s.directory, ".migrate")
              && s.logsDirectory == PathJoin(s.directory, "logs")
              && s.touchedTablesFile == PathJoin(s.directory, "touched_tables.json")
              && s.analyticsFile == PathJoin(s.directory, "analytics.json")
              && s.config == disk.configs[s.configFile]
              && s.user == s.database == Render(s.config["db_name"])
              && s.password == Render(s.config["db_password"])
              && (s.host == if "db_host" in s.config then Render(s.config["db_host"]) else bench.host)
  {
    var dir := PathJoin(bench.sitesDirectory, name);
    var file := PathJoin(dir, "site_config.json");
    if dir !in disk.directories then Err(NotADirectory(dir))
    else if file !in disk.configs then Err(ConfigMissing(file))
    else
      var config := disk.configs[file];
      if "db_name" !in config then Err(MissingKey("db_name"))
      else if "db_password" !in config then Err(MissingKey("db_password"))
      else
        Ok(Site(
          name, bench, dir,
          PathJoin(dir, ".migrate"),
          PathJoin(dir, "logs"),
          file,
          PathJoin(dir, "touched_tables.json"),
          PathJoin(dir, "analytics.json"),
          Render(config["db_name"]),
          Render(config["db_name"]),
          Render(config["db_password"]),
          if "db_host" in config then Render(config["db_host"]) else bench.host,
          config))
  }
}
