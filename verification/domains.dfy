/** `add_domain` / `remove_domain`: the `domains` config entry is read as a
    set, the domain is added or discarded, the set is written back as a list,
    and nginx is set up and reloaded. Python's `list(set(...))` has no
    defined order; this model lists the domains in first-occurrence order. */
module Domains {
  import opened Wrappers
  import opened Lists
  import opened SiteConfig
  import opened Sites
  import opened Runner
  import opened Steps

  /** The characters of a string, each as a one-letter string. */
  function Chars(s: string): (r: seq<string>)
    ensures |r| == |s|
  {
    seq(|s|, i requires 0 <= i < |s| => [s[i]])
  }

  /** What `set(config.get("domains", []))` iterates over: nothing when the
      key is absent, the list's items, a string's characters; any other value
      is not iterable and raises. */
  function StoredDomains(config: Config): (r: Result<seq<string>, ConfigError>)
    ensures "domains" !in config ==> r == Ok([])
    ensures r.Err? <==> "domains" in config && config["domains"].Scalar?
    ensures r.Err? ==> r.error == NotIterable("domains")
    ensures "domains" in config && config["domains"].List? ==> r == Ok(config["domains"].items)
    ensures "domains" in config && config["domains"].Str? ==>
              var s := config["domains"].s;
              r.Ok? && |r.value| == |s| && forall i :: 0 <= i < |s| ==> r.value[i] == [s[i]]
  {
    if "domains" !in config then Ok([])
    else match config["domains"]
      case List(xs) => Ok(xs)
      case Str(s) => Ok(Chars(s))
      case Scalar(_) => Err(NotIterable("domains"))
  }

  /** The written list after `domains.add(d)`. */
  function WithDomain(domains: seq<string>, d: string): (r: seq<string>)
    ensures NoDup(r)
    ensures forall x :: x in r <==> x in domains || x == d
  {
    Dedup(domains + [d])
  }

  /** The written list after `domains.discard(d)`. */
  function WithoutDomain(domains: seq<string>, d: string): (r: seq<string>)
    ensures NoDup(r)
    ensures forall x :: x in r <==> x in domains && x != d
  {
    Without(Dedup(domains), d)
  }

  /** Adding a domain twice writes the same list as adding it once. */
  lemma AddDomainTwice(domains: seq<string>, d: string)
    ensures WithDomain(WithDomain(domains, d), d) == WithDomain(domains, d)
  {
    var once := WithDomain(domains, d);
    DedupSnoc(once, d);
    DedupOfNoDup(once);
  }

  /** Discarding a domain that is not there keeps the set (the list is only
      de-duplicated). */
  lemma RemoveAbsentDomain(domains: seq<string>, d: string)
    requires d !in domains
    ensures WithoutDomain(domains, d) == Dedup(domains)
  {
  }

  /** The tail every domain job ends with. */
  const NginxPlan: seq<Effect> := [SetupNginx, ReloadNginx]

  /** Write the new list, then set up and reload nginx. */
  function WriteDomains(env: Env, r: Run, domains: seq<string>): (r': Run) {
    var updated := UpdateConfigStep(env, r, map["domains" := List(domains)], []);
    Call(env, Call(env, updated, SetupNginx), ReloadNginx)
  }

  function AddDomain(env: Env, r: Run, d: string): (r': Run) {
    if r.raised then r
    else match StoredDomains(r.site.config)
      case Err(_) => r.(raised := true)
      case Ok(ds) => WriteDomains(env, r, WithDomain(ds, d))
  }

  function RemoveDomain(env: Env, r: Run, d: string): (r': Run) {
    if r.raised then r
    else match StoredDomains(r.site.config)
      case Err(_) => r.(raised := true)
      case Ok(ds) => WriteDomains(env, r, WithoutDomain(ds, d))
  }

  /** A `domains` entry that cannot be iterated makes both domain jobs raise
      before anything is written or reloaded. */
  lemma NonIterableDomainsRaise(env: Env, r: Run, d: string)
    requires !r.raised && "domains" in r.site.config && r.site.config["domains"].Scalar?
    ensures AddDomain(env, r, d) == r.(raised := true)
    ensures RemoveDomain(env, r, d) == r.(raised := true)
  {
  }

  /** The effects of writing a domain list. */
  function DomainPlan(site: Site, domains: seq<string>): (r: seq<Effect>) {
    [WriteConfig(site.configFile, Update(site.config, map["domains" := List(domains)], []))] + NginxPlan
  }

  /** The write comes first and nginx is set up and then reloaded after it;
      when nothing fails all three happen, `domains` holds the new list and
      every other key keeps its value. */
  lemma WriteDomainsOrder(env: Env, r: Run, domains: seq<string>)
    requires !r.raised
    ensures var r' := WriteDomains(env, r, domains);
            && IssuedPrefixOf(r.trace, r'.trace, DomainPlan(r.site, domains))
            && (!r'.raised ==>
                  && r'.trace == r.trace + DomainPlan(r.site, domains)
                  && "domains" in r'.site.config && r'.site.config["domains"] == List(domains)
                  && (forall k :: k != "domains" ==>
                        (k in r'.site.config <==> k in r.site.config)
                        && (k in r.site.config ==> r'.site.config[k] == r.site.config[k])))
  {
    var cfg := Update(r.site.config, map["domains" := List(domains)], []);
    var w := WriteConfig(r.site.configFile, cfg);
    var updated := UpdateConfigStep(env, r, map["domains" := List(domains)], []);
    var r' := WriteDomains(env, r, domains);
    if !updated.raised {
      assert updated.trace == r.trace + [w];
      var s := Call(env, updated, SetupNginx);
      if !s.raised {
        assert r'.trace == r.trace + [w] + [SetupNginx] + [ReloadNginx];
      }
      assert r'.trace[..|r.trace|] == r.trace;
      assert r'.trace[|r.trace|..] == DomainPlan(r.site, domains)[..|r'.trace| - |r.trace|];
    } else {
      assert r'.trace[|r.trace|..] == [w];
    }
  }

  /** Adding an already added domain again rewrites the same configuration. */
  lemma AddDomainIdempotent(env: Env, r: Run, d: string)
    requires !r.raised && StoredDomains(r.site.config).Ok?
    requires !AddDomain(env, r, d).raised
    ensures var once := AddDomain(env, r, d);
            StoredDomains(once.site.config) == Ok(WithDomain(StoredDomains(r.site.config).value, d))
            && Update(once.site.config, map["domains" := List(WithDomain(StoredDomains(once.site.config).value, d))], [])
               == once.site.config
  {
    var ds := StoredDomains(r.site.config).value;
    var once := AddDomain(env, r, d);
    WriteDomainsOrder(env, r, WithDomain(ds, d));
    AddDomainTwice(ds, d);
    var c := once.site.config;
    var again := Update(c, map["domains" := List(WithDomain(WithDomain(ds, d), d))], []);
    assert again.Keys == c.Keys;
  }

  /** Removing a domain that is not configured keeps the configured set and
      still sets up and reloads nginx. */
  lemma RemoveAbsentDomainStillReloads(env: Env, r: Run, d: string)
    requires !r.raised && StoredDomains(r.site.config).Ok?
    requires d !in StoredDomains(r.site.config).value
    requires !RemoveDomain(env, r, d).raised
    ensures var r' := RemoveDomain(env, r, d);
            var ds := StoredDomains(r.site.config).value;
            && r'.trace[|r'.trace| - 2..] == NginxPlan
            && StoredDomains(r'.site.config) == Ok(Dedup(ds))
  {
    var ds := StoredDomains(r.site.config).value;
    RemoveAbsentDomain(ds, d);
    WriteDomainsOrder(env, r, WithoutDomain(ds, d));
  }
}
