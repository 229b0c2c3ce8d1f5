/** What a block definition is bound to once constructed
    (`BlockDefinition::__construct`, Maker/BlockDefinition.php): the leaf
    name and sub-directories taken from the description's key, the bundle
    when the namespace names one, the namespace and its path form.

    The host application is reached through `Environment` (the kernel's
    bundles, the filesystem, the YAML reader and the maker utility) and the
    case conversions through `Naming`; both are uninterpreted here. */
module BlockIdentity {
  import opened PhpValues
  import opened Strings

  datatype Bundle = Bundle(name: string, namespace: string)

  datatype Environment = Environment(
    /** `MakerUtil::getProjectPath()` */
    projectPath: string,
    /** `MakerUtil::getBundlePath('EnhavoBlockBundle')` */
    blockBundlePath: string,
    /** `KernelInterface::getBundle()`: the registered bundles by name */
    bundles: map<string, Bundle>,
    /** `Filesystem::exists()`: the paths that exist */
    files: set<string>,
    /** `Yaml::parseFile()`: the documents the readable files hold */
    documents: map<string, Value>,
    /** `MakerUtil::getBundleNameWithoutPostfix()` */
    bundleNameWithoutPostfix: string -> string)

  /** `NameTransformer`; `snakeCaseOfParts` is its snake case applied to the
      array of namespace segments, which the non-bundle application name
      passes it. */
  datatype Naming = Naming(
    camelCase: string -> string,
    snakeCase: string -> string,
    kebabCase: string -> string,
    snakeCaseOfParts: seq<string> -> string)

  datatype Error =
    /** the description has no entry, so the name is never set */
    | EmptyDescription
    /** the description's value is not an array (the `array` property rejects it) */
    | ConfigNotArray(key: string)
    /** `config['namespace']` is an array, which `str_ends_with` rejects */
    | NamespaceNotString
    /** the kernel has no bundle of that name */
    | BundleNotFound(bundleName: string)
    /** assigning a namespace string to the `BundleInterface` property */
    | NamespaceTypeError(namespace: string)
    /** `Cant find template "<template>"` */
    | TemplateNotFound(template: string)
    /** the template file exists but holds no readable document */
    | TemplateUnreadable(path: string)
    /** the template's document is a string, a number or `true`: writing the
        property's keys into it raises an error */
    | TemplateNotArray(path: string)
    /** a getter's declared return type rejects `config[key]` */
    | ConfigTypeError(key: string)

  datatype Identity = Identity(
    name: string,
    subDirectories: seq<string>,
    bundle: Option<Bundle>,
    namespace: string,
    path: string)

  /** The description's first entry, as the constructor's `foreach … break`
      takes it: its key and its array value. */
  function FirstEntry(description: seq<Entry>): (r: Result<Entry, Error>)
    ensures description == [] <==> r == Err(EmptyDescription)
    ensures r.Ok? ==> r.value == description[0] && r.value.val.Arr?
    ensures description != [] && description[0].val.Arr? ==> r == Ok(description[0])
    ensures description != [] && !description[0].val.Arr? ==>
      r == Err(ConfigNotArray(KeyText(description[0].key)))
  {
    if description == [] then Err(EmptyDescription)
    else if !description[0].val.Arr? then Err(ConfigNotArray(KeyText(description[0].key)))
    else Ok(description[0])
  }

  /** `$this->config['namespace'] ?? 'App'` as the string it is used as. */
  function ConfiguredNamespace(config: seq<Entry>): (r: Result<string, Error>)
    ensures !IsSet(config, Name("namespace")) ==> r == Ok("App")
    ensures IsSet(config, Name("namespace")) ==>
      var v := Find(config, Name("namespace")).value;
      (v.Arr? ==> r == Err(NamespaceNotString)) && (!v.Arr? ==> r == Ok(ToText(v)))
  {
    var v := GetOr(config, Name("namespace"), Text("App"));
    if v.Arr? then Err(NamespaceNotString) else Ok(ToText(v))
  }

  /** A namespace ending in `Bundle` names a bundle of the kernel and is
      replaced by that bundle's namespace; any other is kept. */
  function Bind(env: Environment, ns: string): Result<(Option<Bundle>, string), Error>
  {
    if EndsWith(ns, "Bundle") then
      if ns in env.bundles then Ok((Some(env.bundles[ns]), env.bundles[ns].namespace))
      else Err(BundleNotFound(ns))
    else Ok((None, ns))
  }

  /** The constructor's identity steps with the namespace kept as a string. */
  function Identify(env: Environment, key: Key, config: seq<Entry>): Result<Identity, Error>
  {
    var ns :- ConfiguredNamespace(config);
    var bound :- Bind(env, ns);
    var parts := Split(KeyText(key), '/');
    Ok(Identity(parts[|parts| - 1], parts[..|parts| - 1], bound.0, bound.1,
                ReplaceChar(bound.1, '\\', '/')))
  }

  /** The constructor's identity steps as written: the `$namespace` property
      is declared `BundleInterface`, so `setNamespace` with the bundle's
      namespace string raises a TypeError for every bundle-bound definition. */
  function IdentifyAsWritten(env: Environment, key: Key, config: seq<Entry>): (r: Result<Identity, Error>)
    ensures r.Ok? <==> Identify(env, key, config).Ok? && Identify(env, key, config).value.bundle.None?
    ensures r.Ok? ==> r == Identify(env, key, config)
    ensures Identify(env, key, config).Err? ==> r == Identify(env, key, config)
  {
    var ns :- ConfiguredNamespace(config);
    var bound :- Bind(env, ns);
    if bound.0.Some? then Err(NamespaceTypeError(bound.1)) else Identify(env, key, config)
  }

  /** The key `a/b/Leaf` gives the name `Leaf` and the sub-directories
      `[a, b]`: no piece holds a `/`, joining them with `/` gives the key
      back, and there are no sub-directories exactly when the key has no `/`. */
  lemma IdentifyName(env: Environment, key: Key, config: seq<Entry>)
    requires Identify(env, key, config).Ok?
    ensures var id := Identify(env, key, config).value;
      && Join(id.subDirectories + [id.name], "/") == KeyText(key)
      && (id.subDirectories == [] <==> '/' !in KeyText(key))
      && '/' !in id.name
      && (forall s :: s in id.subDirectories ==> '/' !in s)
  {
    var parts := Split(KeyText(key), '/');
    assert parts == parts[..|parts| - 1] + [parts[|parts| - 1]];
    JoinSplit(KeyText(key), '/');
    SplitSingle(KeyText(key), '/');
  }

  /** The namespace is `config['namespace']`, `App` when that is not set;
      one ending in `Bundle` binds the definition to the kernel's bundle of
      that name (failing when there is none) and takes the bundle's
      namespace; the path is the namespace with every `\` turned into `/`. */
  lemma IdentifyNamespace(env: Environment, key: Key, config: seq<Entry>, ns: string)
    requires ConfiguredNamespace(config) == Ok(ns)
    ensures !IsSet(config, Name("namespace")) ==> ns == "App"
    ensures Identify(env, key, config).Err? <==> EndsWith(ns, "Bundle") && ns !in env.bundles
    ensures Identify(env, key, config).Err? ==> Identify(env, key, config).error == BundleNotFound(ns)
    ensures Identify(env, key, config).Ok? ==>
      var id := Identify(env, key, config).value;
      && (id.bundle.Some? <==> EndsWith(ns, "Bundle"))
      && (id.bundle.Some? ==> id.bundle.value == env.bundles[ns] && id.namespace == id.bundle.value.namespace)
      && (id.bundle.None? ==> id.namespace == ns)
      && |id.path| == |id.namespace|
      && '\\' !in id.path
      && (forall i :: 0 <= i < |id.path| && id.namespace[i] != '\\' ==> id.path[i] == id.namespace[i])
      && (forall i :: 0 <= i < |id.path| && id.namespace[i] == '\\' ==> id.path[i] == '/')
  {
  }

  /** As written, a definition whose namespace names an existing bundle
      cannot be constructed; with the namespace kept as a string it is bound
      to that bundle. */
  lemma BundleBindingAsWritten(env: Environment, key: Key, config: seq<Entry>, ns: string)
    requires ConfiguredNamespace(config) == Ok(ns)
    requires EndsWith(ns, "Bundle") && ns in env.bundles
    ensures IdentifyAsWritten(env, key, config) == Err(NamespaceTypeError(env.bundles[ns].namespace))
    ensures Identify(env, key, config).Ok?
    ensures Identify(env, key, config).value.bundle == Some(env.bundles[ns])
  {
  }

  /** The smallest such input: `{Block: {namespace: AppBundle}}` with the
      kernel knowing `AppBundle`. */
  lemma BundleBindingCounterexample(env: Environment)
    requires "AppBundle" in env.bundles
    ensures IdentifyAsWritten(env, Name("Block"), [Entry(Name("namespace"), Text("AppBundle"))]).Err?
    ensures Identify(env, Name("Block"), [Entry(Name("namespace"), Text("AppBundle"))]).Ok?
  {
    var config := [Entry(Name("namespace"), Text("AppBundle"))];
    assert ConfiguredNamespace(config) == Ok("AppBundle");
    assert EndsWith("AppBundle", "Bundle");
    BundleBindingAsWritten(env, Name("Block"), config, "AppBundle");
  }
}
