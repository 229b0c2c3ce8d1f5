/** The getters that read a block definition's configuration
    (`getConfig`, `getLabel`, `getImplements`, `getProperties`, `getTraits`,
    `getBlockType` and the `classes` entry `getClasses` walks). A getter
    whose declared PHP return type rejects the configured value fails with
    `ConfigTypeError`; scalars are converted as PHP's coercive typing mode
    converts them. */
module BlockConfig {
  import opened PhpValues
  import opened BlockIdentity
  import opened BlockPaths
  import opened Imports

  /** `getConfig($key, $default)`: the configured value, or the default when
      the key is missing or null. */
  function ConfigValue(config: seq<Entry>, key: string, default: Value): (r: Value)
    ensures IsSet(config, Name(key)) ==> Find(config, Name(key)) == Some(r)
    ensures !IsSet(config, Name(key)) ==> r == default
  {
    GetOr(config, Name(key), default)
  }

  /** A getter declared to return `array`: `config[key] ?? []`. */
  function ArrayConfig(config: seq<Entry>, key: string): (r: Result<seq<Entry>, Error>)
    ensures r.Err? <==> IsSet(config, Name(key)) && !Find(config, Name(key)).value.Arr?
    ensures r.Err? ==> r.error == ConfigTypeError(key)
    ensures r.Ok? && IsSet(config, Name(key)) ==> Find(config, Name(key)) == Some(Arr(r.value))
    ensures !IsSet(config, Name(key)) ==> r == Ok([])
  {
    var v := ConfigValue(config, key, Arr([]));
    if v.Arr? then Ok(v.entries) else Err(ConfigTypeError(key))
  }

  /** `getProperties()` */
  function Properties(config: seq<Entry>): Result<seq<Entry>, Error>
  {
    ArrayConfig(config, "properties")
  }

  /** `getTraits()` */
  function Traits(config: seq<Entry>): Result<seq<Entry>, Error>
  {
    ArrayConfig(config, "traits")
  }

  /** `getLabel()`: the configured label as a string, the camel case name
      when there is none. */
  function Label(naming: Naming, id: Identity, config: seq<Entry>): (r: Result<string, Error>)
    ensures !IsSet(config, Name("label")) ==> r == Ok(CamelName(naming, id))
    ensures IsSet(config, Name("label")) ==>
      var v := Find(config, Name("label")).value;
      (v.Arr? ==> r == Err(ConfigTypeError("label"))) && (!v.Arr? ==> r == Ok(ToText(v)))
  {
    var v := ConfigValue(config, "label", Null);
    if v == Null then Ok(CamelName(naming, id))
    else if v.Arr? then Err(ConfigTypeError("label"))
    else Ok(ToText(v))
  }

  /** `getImplements()`: the configured interface as a string, or none. */
  function Implements(config: seq<Entry>): (r: Result<Option<string>, Error>)
    ensures !IsSet(config, Name("implements")) ==> r == Ok(None)
    ensures IsSet(config, Name("implements")) ==>
      var v := Find(config, Name("implements")).value;
      (v.Arr? ==> r == Err(ConfigTypeError("implements"))) && (!v.Arr? ==> r == Ok(Some(ToText(v))))
  {
    var v := ConfigValue(config, "implements", Null);
    if v == Null then Ok(None)
    else if v.Arr? then Err(ConfigTypeError("implements"))
    else Ok(Some(ToText(v)))
  }

  /** `getBlockType()`: false unless configured; a scalar counts by its truth
      value. */
  function BlockType(config: seq<Entry>): (r: Result<bool, Error>)
    ensures !IsSet(config, Name("block_type")) ==> r == Ok(false)
    ensures IsSet(config, Name("block_type")) ==>
      var v := Find(config, Name("block_type")).value;
      (v.Arr? ==> r == Err(ConfigTypeError("block_type"))) && (!v.Arr? ==> r == Ok(Truthy(v)))
  {
    var v := ConfigValue(config, "block_type", Flag(false));
    if v.Arr? then Err(ConfigTypeError("block_type")) else Ok(Truthy(v))
  }

  /** The entries `getClasses()` iterates: `getConfig('classes', [])`, where
      `foreach` over a scalar visits nothing. */
  function Classes(config: seq<Entry>): (r: seq<Entry>)
    ensures IsSet(config, Name("classes")) && Find(config, Name("classes")).value.Arr? ==>
      r == Find(config, Name("classes")).value.entries
    ensures !(IsSet(config, Name("classes")) && Find(config, Name("classes")).value.Arr?) ==> r == []
  {
    AsEntries(ConfigValue(config, "classes", Arr([])))
  }

  /** The configuration keys the getters read. */
  predicate ReadByGetters(k: Key)
  {
    k in {Name("label"), Name("implements"), Name("properties"), Name("traits"),
          Name("block_type"), Name("classes")}
  }

  /** Two configurations that agree on the keys the getters read give the
      same label, interface, properties, traits, block type and classes. */
  lemma GettersAgree(naming: Naming, id: Identity, c: seq<Entry>, d: seq<Entry>)
    requires forall k :: ReadByGetters(k) ==> Find(c, k) == Find(d, k)
    ensures Label(naming, id, c) == Label(naming, id, d)
    ensures Implements(c) == Implements(d)
    ensures Properties(c) == Properties(d)
    ensures Traits(c) == Traits(d)
    ensures BlockType(c) == BlockType(d)
    ensures Classes(c) == Classes(d)
  {
    assert ReadByGetters(Name("label")) && ReadByGetters(Name("implements"));
    assert ReadByGetters(Name("properties")) && ReadByGetters(Name("traits"));
    assert ReadByGetters(Name("block_type")) && ReadByGetters(Name("classes"));
  }

  /** Adding imports with `addUse` or `addFormUse` changes none of the
      getters. */
  lemma ImportsKeepGetters(naming: Naming, id: Identity, c: seq<Entry>, v: Value)
    ensures Label(naming, id, AddUseTo(c, v)) == Label(naming, id, c)
    ensures Properties(AddUseTo(c, v)) == Properties(c)
    ensures Classes(AddUseTo(c, v)) == Classes(c)
    ensures Label(naming, id, AddFormUseTo(c, v)) == Label(naming, id, c)
    ensures Properties(AddFormUseTo(c, v)) == Properties(c)
    ensures Classes(AddFormUseTo(c, v)) == Classes(c)
  {
    AddUseAppends(c, v);
    AddFormUseAppends(c, v);
    GettersAgree(naming, id, AddUseTo(c, v), c);
    GettersAgree(naming, id, AddFormUseTo(c, v), c);
  }
}
