/** Crawl options: the values an options object holds, the merge of caller options over the
    settings file, and the readers that turn option values into crawl limits. */
module Config {
  import opened Wrappers

  /** An option value as the crawler inspects it. Numbers are integers; a list is a list of strings;
      `Other` is any other object (truthy, not an array). */
  datatype Value =
    | Undefined
    | Null
    | Bool(b: bool)
    | Num(n: int)
    | Str(s: string)
    | StrList(items: seq<string>)
    | Other

  /** An options object: own keys and their values. */
  type Options = map<string, Value>

  /** Property access: a missing key reads as `undefined`. */
  function Lookup(o: Options, key: string): Value
  {
    if key in o then o[key] else Undefined
  }

  /** JavaScript truthiness of a value. */
  predicate Truthy(v: Value)
    ensures v.StrList? || v.Other? ==> Truthy(v)
    ensures v.Undefined? || v.Null? ==> !Truthy(v)
  {
    match v
    case Undefined => false
    case Null => false
    case Bool(b) => b
    case Num(n) => n != 0
    case Str(s) => s != ""
    case StrList(_) => true
    case Other => true
  }

  /** Builds the effective options: every own key of `settings` is copied, then every own key of
      `custom` (when given) is copied over it. */
  method Merge(settings: Options, custom: Option<Options>) returns (options: Options)
    ensures forall k :: k in options <==> k in settings || (custom.Some? && k in custom.value)
    ensures forall k :: custom.Some? && k in custom.value ==> options[k] == custom.value[k]
    ensures forall k :: k in settings && !(custom.Some? && k in custom.value) ==> options[k] == settings[k]
    ensures options == if custom.Some? then settings + custom.value else settings
  {
    options := map[];
    var pending := settings.Keys;
    while pending != {}
      invariant pending <= settings.Keys
      invariant options.Keys == settings.Keys - pending
      invariant forall k :: k in options ==> options[k] == settings[k]
      decreases pending
    {
      var key :| key in pending;
      options := options[key := settings[key]];
      pending := pending - {key};
    }
    assert options == settings;
    if custom.Some? {
      var overrides := custom.value;
      pending := overrides.Keys;
      while pending != {}
        invariant pending <= overrides.Keys
        invariant options.Keys == settings.Keys + (overrides.Keys - pending)
        invariant forall k :: k in overrides.Keys - pending ==> options[k] == overrides[k]
        invariant forall k :: k in settings && k !in overrides.Keys - pending ==> options[k] == settings[k]
        decreases pending
      {
        var key :| key in pending;
        options := options[key := overrides[key]];
        pending := pending - {key};
      }
    }
  }

  /** The depth limit: `maxDepth` when it is a non-negative number, otherwise 0 (no limit). */
  function MaxDepthOf(o: Options): (d: nat)
    ensures d != 0 ==> Lookup(o, "maxDepth") == Num(d)
    ensures Lookup(o, "maxDepth").Num? && Lookup(o, "maxDepth").n >= 0 ==> d == Lookup(o, "maxDepth").n
  {
    match Lookup(o, "maxDepth")
    case Num(n) => if n >= 0 then n else 0
    case _ => 0
  }

  /** The per-page link cap: `maxLinksPerPage` when it is a positive number, otherwise 10. */
  function MaxLinksPerPageOf(o: Options): (cap: nat)
    ensures cap >= 1
    ensures cap != 10 ==> Lookup(o, "maxLinksPerPage") == Num(cap)
    ensures Lookup(o, "maxLinksPerPage").Num? && Lookup(o, "maxLinksPerPage").n > 0 ==> cap == Lookup(o, "maxLinksPerPage").n
  {
    match Lookup(o, "maxLinksPerPage")
    case Num(n) => if n > 0 then n else 10
    case _ => 10
  }

  /** `options.startUrls || []` as the seed reader sees it: `Some(list)` when the value is an
      array, `None` when it is a truthy non-array. */
  function StartUrlsFallback(o: Options): (fallback: Option<seq<string>>)
    ensures !Truthy(Lookup(o, "startUrls")) ==> fallback == Some([])
    ensures Lookup(o, "startUrls").StrList? ==> fallback == Some(Lookup(o, "startUrls").items)
    ensures fallback.None? <==> Truthy(Lookup(o, "startUrls")) && !Lookup(o, "startUrls").StrList?
  {
    var v := Lookup(o, "startUrls");
    if !Truthy(v) then Some([])
    else if v.StrList? then Some(v.items)
    else None
  }
}
