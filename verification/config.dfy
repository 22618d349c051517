/** The site configuration document (`site_config.json`) and the two ways the
    site mutates a configuration document: merge-then-remove for the site
    config, and a plain merge for the ERPNext journeys config. */
module SiteConfig {
  import opened Wrappers
  import Text

  /** A configuration value: a string, a list of strings, or any other JSON
      scalar (number, boolean, null) carried as the text Python's f-string
      renders it to. Nested objects and lists of non-strings are not
      represented; see README. */
  datatype Value = Str(s: string) | List(items: seq<string>) | Scalar(text: string)

  /** Key order of the JSON document is not modelled; see README. */
  type Config = map<string, Value>

  datatype ConfigError =
    | FileNotFound(path: string)
    | NotIterable(key: string)

  /** How an f-string renders a value when it is spliced into a command line.
      A list renders as Python's repr of a list of strings. */
  function Render(v: Value): (r: string) {
    match v
    case Str(s) => s
    case Scalar(t) => t
    case List(xs) => "[" + Text.Join(Quoted(xs), ", ") + "]"
  }

  function Quoted(xs: seq<string>): (r: seq<string>)
    ensures |r| == |xs|
  {
    seq(|xs|, i requires 0 <= i < |xs| => "'" + xs[i] + "'")
  }

  /** Pops every key of `keys` in turn (`dict.pop(key, None)`); a key that is
      absent is skipped without error. */
  function PopAll(m: Config, keys: seq<string>): (r: Config)
    ensures r.Keys == m.Keys - set k | k in keys
    ensures forall k :: k in r ==> r[k] == m[k]
    decreases |keys|
  {
    if |keys| == 0 then m
    else
      var rest := PopAll(m - {keys[0]}, keys[1..]);
      assert forall k :: k in keys <==> k == keys[0] || k in keys[1..];
      rest
  }

  /** `update_config(value, remove)`: merge `value` over the current document,
      then pop every key listed in `remove` (`None` is modelled as `[]`). */
  function Update(current: Config, value: Config, remove: seq<string>): (r: Config)
    ensures forall k :: k in value && k !in remove ==> k in r && r[k] == value[k]
    ensures forall k :: k in remove ==> k !in r
    ensures forall k :: k in current && k !in value && k !in remove ==> k in r && r[k] == current[k]
    ensures forall k :: k in r ==> k in current || k in value
  {
    PopAll(current + value, remove)
  }

  /** `update_config({})` rewrites the document unchanged. */
  lemma UpdateNothing(current: Config)
    ensures Update(current, map[], []) == current
  {
  }

  /** Popping a key that is not there changes nothing. */
  lemma PopAbsent(m: Config, key: string)
    requires key !in m
    ensures PopAll(m, [key]) == m
  {
  }

  /** Applying the same update twice is the same as applying it once. */
  lemma UpdateIdempotent(current: Config, value: Config, remove: seq<string>)
    ensures Update(Update(current, value, remove), value, remove) == Update(current, value, remove)
  {
    var once := Update(current, value, remove);
    var twice := Update(once, value, remove);
    assert twice.Keys == once.Keys;
  }

  /** `update_erpnext_config(value)`: load `journeys_config.json` (which must
      exist), merge `value` over it, write it back. `file` is the parsed
      content of that file, or `None` when it is missing. */
  function UpdateJourneysConfig(path: string, file: Option<Config>, value: Config): (r: Result<Config, ConfigError>)
    ensures file.None? <==> r == Err(FileNotFound(path))
    ensures r.Ok? ==> r.value.Keys == file.value.Keys + value.Keys
    ensures r.Ok? ==> forall k :: k in value ==> r.value[k] == value[k]
    ensures r.Ok? ==> forall k :: k in file.value && k !in value ==> r.value[k] == file.value[k]
  {
    match file
    case None => Err(FileNotFound(path))
    case Some(doc) => Ok(doc + value)
  }

  /** The journeys-config update is the site-config update without removals. */
  lemma JourneysUpdateIsMerge(path: string, doc: Config, value: Config)
    ensures UpdateJourneysConfig(path, Some(doc), value) == Ok(Update(doc, value, []))
  {
    var u := Update(doc, value, []);
    assert u.Keys == (doc + value).Keys;
  }
}
