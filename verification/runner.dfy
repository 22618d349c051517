/** The abstract command runner. Every external action of the site (a bench
    command in the container, a shell command on the host, a database user
    grant, a config write, an nginx reload, an upload, a sleep) is an `Effect`
    appended to a trace; whether it raises is decided by an oracle that may
    look at everything that happened before. */
module Runner {
  import opened Lists
  import opened SiteConfig
  import opened Sites

  datatype Effect =
    | BenchCommand(site: string, command: string)   // `bench --site <site> <command>`
    | HostCommand(command: string)                  // `self.execute(command)`
    | CreateDbUser(site: string, rootPassword: string, database: string)
    | DropDbUser(site: string, rootPassword: string, database: string)
    | DownloadFiles(site: string, database: string, public: string, private: string)
    | DeleteDownloadedFiles(directory: string)
    | WriteConfig(path: string, config: Config)
    | MoveDirectory(source: string, target: string)
    | SetupNginx
    | ReloadNginx
    | Upload(bucket: string, key: string, path: string)
    | Sleep

  /** The environment: which effects raise, and how many milliseconds each takes. */
  datatype Env = Env(
    fails: (seq<Effect>, Effect) -> bool,
    took: (seq<Effect>, Effect) -> nat)

  /** The state of a job: the site as the job sees it, everything issued so
      far, and whether an exception is propagating. */
  datatype Run = Run(site: Site, trace: seq<Effect>, raised: bool)

  /** The `bench --site` command for the site's current name. */
  function SiteCommand(site: Site, command: string): (r: Effect) {
    BenchCommand(site.name, command)
  }

  /** Issue `e` unless an exception is already propagating; `e` raising
      makes the run raise. */
  function Call(env: Env, r: Run, e: Effect): (r': Run)
    ensures r.raised ==> r' == r
    ensures !r.raised ==> r'.site == r.site && r'.trace == r.trace + [e] && r'.raised == env.fails(r.trace, e)
  {
    if r.raised then r else Run(r.site, r.trace + [e], env.fails(r.trace, e))
  }

  /** `try: e except Exception: pass` */
  function Swallow(env: Env, r: Run, e: Effect): (r': Run)
    ensures r.raised ==> r' == r
    ensures !r.raised ==> r'.site == r.site && r'.trace == r.trace + [e] && !r'.raised
  {
    if r.raised then r else Run(r.site, r.trace + [e], false)
  }

  /** A `finally` block: `e` is issued whether or not an exception is
      propagating; the run raises if either the body or `e` raised. */
  function Finally(env: Env, r: Run, e: Effect): (r': Run)
    ensures r'.site == r.site && r'.trace == r.trace + [e]
    ensures r'.raised <==> r.raised || env.fails(r.trace, e)
  {
    Run(r.site, r.trace + [e], r.raised || env.fails(r.trace, e))
  }

  /** Effects issued one after another, each skipped once one has raised. */
  function CallAll(env: Env, r: Run, es: seq<Effect>): (r': Run)
    ensures r'.site == r.site
    ensures r.raised ==> r' == r
    ensures |r.trace| <= |r'.trace| && r'.trace[..|r.trace|] == r.trace
    decreases |es|
  {
    if |es| == 0 then r else CallAll(env, Call(env, r, es[0]), es[1..])
  }

  /** The job stops at the first effect that raises: its trace is the longest
      prefix of `es` whose earlier members all succeeded. */
  predicate SucceedsAll(env: Env, t: seq<Effect>, es: seq<Effect>)
    decreases |es|
  {
    |es| == 0 || (!env.fails(t, es[0]) && SucceedsAll(env, t + [es[0]], es[1..]))
  }

  lemma {:induction false} CallAllSucceeds(env: Env, r: Run, es: seq<Effect>)
    requires !r.raised
    ensures SucceedsAll(env, r.trace, es) <==> !CallAll(env, r, es).raised
    ensures SucceedsAll(env, r.trace, es) ==> CallAll(env, r, es).trace == r.trace + es
    decreases |es|
  {
    if |es| > 0 {
      var r1 := Call(env, r, es[0]);
      if r1.raised {
        assert CallAll(env, r1, es[1..]) == r1;
      } else {
        CallAllSucceeds(env, r1, es[1..]);
        assert r.trace + [es[0]] + es[1..] == r.trace + es;
      }
    }
  }

  /** `after` extends `before` by an initial part of `plan`. */
  predicate IssuedPrefixOf(before: seq<Effect>, after: seq<Effect>, plan: seq<Effect>) {
    |before| <= |after| && after[..|before|] == before && IsPrefix(after[|before|..], plan)
  }

  /** Whatever happens, a sequence of calls issues an initial part of the
      planned effects and nothing else. */
  lemma {:induction false} CallAllIssuesPrefix(env: Env, r: Run, es: seq<Effect>)
    ensures IssuedPrefixOf(r.trace, CallAll(env, r, es).trace, es)
    decreases |es|
  {
    if |es| > 0 && !r.raised {
      var r1 := Call(env, r, es[0]);
      CallAllIssuesPrefix(env, r1, es[1..]);
      var t := CallAll(env, r1, es[1..]).trace;
      assert t[|r1.trace|..] == t[|r.trace|..][1..];
      assert t[|r.trace|..][0] == es[0];
    }
  }

  /** Running two plans back to back is running their concatenation. */
  lemma {:induction false} CallAllAppend(env: Env, r: Run, a: seq<Effect>, b: seq<Effect>)
    ensures CallAll(env, r, a + b) == CallAll(env, CallAll(env, r, a), b)
    decreases |a|
  {
    if |a| == 0 {
      assert a + b == b;
    } else {
      assert (a + b)[0] == a[0];
      assert (a + b)[1..] == a[1..] + b;
      CallAllAppend(env, Call(env, r, a[0]), a[1..], b);
    }
  }

  lemma CallAllCons(env: Env, r: Run, e: Effect, es: seq<Effect>)
    ensures CallAll(env, r, [e] + es) == CallAll(env, Call(env, r, e), es)
  {
    assert ([e] + es)[0] == e;
    assert ([e] + es)[1..] == es;
  }
}
