/** What `loadTemplates` does to a block definition's configuration
    (Maker/BlockDefinition.php). For each property, in order: a property
    naming a `template` has the template file's document merged under it
    (the property wins) and loses its `template` key; then the property's
    `type_options.use` is added to the entity imports and its `form.use`
    to the form imports. A template is looked up in the project directory,
    then in the project's `config/block/templates`, then in the block
    bundle's `Resources/block/templates`. */
module BlockTemplates {
  import opened PhpValues
  import opened BlockIdentity
  import opened ConfigMerge
  import opened Imports
  import opened BlockConfig
  import opened Strings

  /** The files `getTemplatePath($template)` tries, in order. */
  function Candidates(env: Environment, template: string): (r: seq<string>)
    ensures |r| == 3
    ensures StartsWith(r[0], env.projectPath + "/") && EndsWith(r[0], "/" + template + ".yaml")
    ensures |r[0]| == |env.projectPath| + |template| + 6
    ensures StartsWith(r[1], env.projectPath + "/") && EndsWith(r[1], "/config/block/templates/" + template + ".yaml")
    ensures StartsWith(r[2], env.blockBundlePath) && EndsWith(r[2], "Resources/block/templates/" + template + ".yaml")
    ensures forall i :: 0 <= i < 3 ==> EndsWith(r[i], "/" + template + ".yaml")
  {
    FileUnder(env.projectPath, "/", template);
    FileUnder(env.projectPath, "/config/block/templates/", template);
    FileUnder(env.blockBundlePath, "Resources/block/templates/", template);
    [env.projectPath + "/" + template + ".yaml",
     env.projectPath + "/config/block/templates/" + template + ".yaml",
     env.blockBundlePath + "Resources/block/templates/" + template + ".yaml"]
  }

  /** The candidate `dir + middle + template + ".yaml"`, with `middle`
      ending in `/`, starts with `dir` and the first character of `middle`,
      and ends with `middle` and the file name. */
  lemma FileUnder(dir: string, middle: string, template: string)
    requires |middle| > 0 && middle[|middle| - 1] == '/'
    ensures var s := dir + middle + template + ".yaml";
      && StartsWith(s, dir)
      && StartsWith(s, dir + [middle[0]])
      && EndsWith(s, "/" + template + ".yaml")
      && EndsWith(s, middle + template + ".yaml")
      && |s| == |dir| + |middle| + |template| + 5
  {
    var s := dir + middle + template + ".yaml";
    assert s[..|dir|] == dir;
    assert s[..|dir| + 1] == dir + [middle[0]];
    assert s[|s| - |template| - 6..] == "/" + template + ".yaml";
    assert s[|dir|..] == middle + template + ".yaml";
  }

  /** The first path that exists, or none. */
  function FirstExisting(paths: seq<string>, files: set<string>): Option<string>
  {
    if paths == [] then None
    else if paths[0] in files then Some(paths[0])
    else FirstExisting(paths[1..], files)
  }

  /** The first existing path is one of the paths, exists, and comes after
      only paths that do not; there is none exactly when no path exists. */
  lemma {:induction false} FirstExistingSpec(paths: seq<string>, files: set<string>)
    ensures FirstExisting(paths, files).None? <==> forall p :: p in paths ==> p !in files
    ensures FirstExisting(paths, files).Some? ==>
      exists i :: 0 <= i < |paths| && paths[i] == FirstExisting(paths, files).value &&
                  paths[i] in files && forall j :: 0 <= j < i ==> paths[j] !in files
  {
    if paths != [] && paths[0] in files {
      assert paths[0] == FirstExisting(paths, files).value;
    } else if paths != [] {
      var rest := paths[1..];
      FirstExistingSpec(rest, files);
      assert forall p :: p in paths ==> p == paths[0] || p in rest;
      var r := FirstExisting(rest, files);
      if r.Some? {
        var i :| 0 <= i < |rest| && rest[i] == r.value && rest[i] in files &&
                 forall j :: 0 <= j < i ==> rest[j] !in files;
        forall j | 0 <= j < i + 1
          ensures paths[j] !in files
        {
          if j > 0 {
            assert paths[j] == rest[j - 1];
          }
        }
        assert paths[i + 1] == rest[i];
      }
    }
  }

  /** `getTemplatePath($template)` */
  function TemplatePath(env: Environment, template: string): Option<string>
  {
    FirstExisting(Candidates(env, template), env.files)
  }

  /** The project directory shadows the project's template directory, which
      shadows the block bundle's; without any of the three files there is
      no path. */
  lemma TemplateLookupOrder(env: Environment, template: string)
    ensures var c := Candidates(env, template);
      && (c[0] in env.files ==> TemplatePath(env, template) == Some(c[0]))
      && (c[0] !in env.files && c[1] in env.files ==> TemplatePath(env, template) == Some(c[1]))
      && (c[0] !in env.files && c[1] !in env.files && c[2] in env.files ==> TemplatePath(env, template) == Some(c[2]))
      && (c[0] !in env.files && c[1] !in env.files && c[2] !in env.files ==> TemplatePath(env, template) == None)
  {
    var c := Candidates(env, template);
    var f := env.files;
    assert c[1..] == [c[1], c[2]] && c[1..][1..] == [c[2]] && [c[2]][1..] == [];
    if c[0] !in f {
      assert FirstExisting(c, f) == FirstExisting(c[1..], f);
      if c[1] !in f {
        assert FirstExisting(c[1..], f) == FirstExisting([c[2]], f);
        assert FirstExisting([c[2]], f) == if c[2] in f then Some(c[2]) else FirstExisting([], f);
      }
    }
  }

  /** `isset($property['template'])` */
  predicate HasTemplate(property: Value)
  {
    property.Arr? && IsSet(property.entries, Name("template"))
  }

  /** The template name as the string `sprintf` makes of it. */
  function TemplateName(property: Value): string
    requires HasTemplate(property)
  {
    ToText(GetOr(property.entries, Name("template"), Null))
  }

  /** `$this->config['properties'][$key]`, null when absent. */
  function PropertyAt(c: seq<Entry>, key: Key): Value
  {
    match Find(Sub(c, "properties"), key)
    case Some(v) => v
    case None => Null
  }

  /** `$this->config['properties'][$key] = $v` */
  function WithProperty(c: seq<Entry>, key: Key, v: Value): seq<Entry>
  {
    WithSub(c, "properties", Set(Sub(c, "properties"), key, v))
  }

  /** A document the property's keys can be written into: an array, or
      null or `false`, which PHP turns into an empty array on the first
      write. */
  predicate Mergeable(document: Value)
  {
    document.Arr? || document == Null || document == Flag(false)
  }

  /** A property merged over its template's document, without the
      `template` key. */
  function ExpandedProperty(document: Value, property: Value): Value
  {
    Arr(Unset(Merge(AsEntries(document), AsEntries(property)), Name("template")))
  }

  /** `$property[$part] ?? []` for one step of a path; anything but an array
      has no parts. */
  function Step(v: Value, part: string): Value
  {
    if v.Arr? then GetOr(v.entries, Name(part), Arr([])) else Arr([])
  }

  /** `extractFromProperty`'s walk down `path` from a property. */
  function Extract(v: Value, path: seq<string>): Value
    decreases |path|
  {
    if path == [] then v else Extract(Step(v, path[0]), path[1..])
  }

  /** Walking two steps finds the nested value when both steps find one,
      and an empty array otherwise. */
  lemma ExtractNested(v: Value, a: string, b: string)
    ensures v.Arr? && IsSet(v.entries, Name(a)) && Find(v.entries, Name(a)).value.Arr?
            && IsSet(Find(v.entries, Name(a)).value.entries, Name(b)) ==>
              Some(Extract(v, [a, b])) == Find(Find(v.entries, Name(a)).value.entries, Name(b))
    ensures !(v.Arr? && IsSet(v.entries, Name(a)) && Find(v.entries, Name(a)).value.Arr?
              && IsSet(Find(v.entries, Name(a)).value.entries, Name(b))) ==>
              Extract(v, [a, b]) == Arr([])
  {
    assert [a, b][1..] == [b];
    assert [b][1..] == [];
    assert Extract(Step(Step(v, a), b), []) == Step(Step(v, a), b);
    assert Extract(Step(v, a), [b]) == Step(Step(v, a), b);
    assert Extract(v, [a, b]) == Step(Step(v, a), b);
  }

  /** The template step for one property: fails when no candidate file
      exists, the file has no document, or the document is a scalar the
      property cannot be merged into. */
  function ExpandTemplate(env: Environment, c: seq<Entry>, key: Key, property: Value): (r: Result<seq<Entry>, Error>)
    requires HasTemplate(property)
    ensures r.Err? <==> !TemplateLoads(env, property)
  {
    var template := TemplateName(property);
    match TemplatePath(env, template)
    case None => Err(TemplateNotFound(template))
    case Some(path) =>
      if path !in env.documents then Err(TemplateUnreadable(path))
      else if !Mergeable(env.documents[path]) then Err(TemplateNotArray(path))
      else Ok(WithProperty(c, key, ExpandedProperty(env.documents[path], PropertyAt(c, key))))
  }

  /** The template step of one iteration, for a property with or without
      a template. */
  function ExpandStep(env: Environment, c: seq<Entry>, e: Entry): Result<seq<Entry>, Error>
  {
    if HasTemplate(e.val) then ExpandTemplate(env, c, e.key, e.val) else Ok(c)
  }

  /** The import step of one iteration: `addUse` of the property's
      `type_options.use`, then `addFormUse` of its `form.use`. */
  function PropertyImports(c: seq<Entry>, key: Key): seq<Entry>
  {
    var withUse := AddUseTo(c, Extract(PropertyAt(c, key), ["type_options", "use"]));
    AddFormUseTo(withUse, Extract(PropertyAt(withUse, key), ["form", "use"]))
  }

  /** One iteration of `loadTemplates` for the entry `e` of the properties
      as they were when the loop started. */
  function LoadProperty(env: Environment, c: seq<Entry>, e: Entry): Result<seq<Entry>, Error>
  {
    var expanded :- ExpandStep(env, c, e);
    Ok(PropertyImports(expanded, e.key))
  }

  /** The iterations for `props[i..]`; the first failure ends the loop. */
  function LoadFrom(env: Environment, c: seq<Entry>, props: seq<Entry>, i: nat): Result<seq<Entry>, Error>
    requires i <= |props|
    decreases |props| - i
  {
    if i == |props| then Ok(c)
    else
      var next :- LoadProperty(env, c, props[i]);
      LoadFrom(env, next, props, i + 1)
  }

  /** `loadTemplates()` */
  function Load(env: Environment, c: seq<Entry>): Result<seq<Entry>, Error>
  {
    var props :- Properties(c);
    LoadFrom(env, c, props, 0)
  }

  /** Whether the template of one property can be loaded. */
  predicate TemplateLoads(env: Environment, property: Value)
  {
    HasTemplate(property) ==>
      TemplatePath(env, TemplateName(property)).Some? &&
      TemplatePath(env, TemplateName(property)).value in env.documents &&
      Mergeable(env.documents[TemplatePath(env, TemplateName(property)).value])
  }

  /** The iteration fails exactly when its property names a template that
      cannot be loaded, and then with the missing template or file. */
  lemma LoadPropertyFails(env: Environment, c: seq<Entry>, e: Entry)
    ensures LoadProperty(env, c, e).Err? <==> !TemplateLoads(env, e.val)
    ensures LoadProperty(env, c, e).Err? ==>
      var template := TemplateName(e.val);
      LoadProperty(env, c, e).error ==
        var path := TemplatePath(env, template);
        if path.None? then TemplateNotFound(template)
        else if path.value !in env.documents then TemplateUnreadable(path.value)
        else TemplateNotArray(path.value)
  {
  }

  /** Loading succeeds exactly when the properties are an array and every
      template they name can be loaded. */
  lemma {:induction false} LoadFromSucceeds(env: Environment, c: seq<Entry>, props: seq<Entry>, i: nat)
    requires i <= |props|
    ensures LoadFrom(env, c, props, i).Ok? <==> AllLoad(env, props, i)
    decreases |props| - i
  {
    if i < |props| {
      var r := LoadProperty(env, c, props[i]);
      LoadPropertySucceeds(env, c, props[i]);
      LoadFromStep(env, c, props, i);
      AllLoadStep(env, props, i);
      if r.Ok? {
        LoadFromSucceeds(env, r.value, props, i + 1);
        assert LoadFrom(env, c, props, i) == LoadFrom(env, r.value, props, i + 1);
        assert AllLoad(env, props, i) == AllLoad(env, props, i + 1);
      } else {
        assert LoadFrom(env, c, props, i).Err?;
        assert !AllLoad(env, props, i);
      }
    }
  }

  /** Every template of `props[i..]` can be loaded. */
  predicate AllLoad(env: Environment, props: seq<Entry>, i: nat)
  {
    forall j :: i <= j < |props| ==> TemplateLoads(env, props[j].val)
  }

  lemma AllLoadStep(env: Environment, props: seq<Entry>, i: nat)
    requires i < |props|
    ensures AllLoad(env, props, i) <==> TemplateLoads(env, props[i].val) && AllLoad(env, props, i + 1)
  {
  }

  lemma LoadPropertySucceeds(env: Environment, c: seq<Entry>, e: Entry)
    ensures LoadProperty(env, c, e).Ok? <==> TemplateLoads(env, e.val)
  {
    LoadPropertyFails(env, c, e);
  }

  /** One iteration of the loop: a failure ends it, a success goes on. */
  lemma LoadFromStep(env: Environment, c: seq<Entry>, props: seq<Entry>, i: nat)
    requires i < |props|
    ensures LoadProperty(env, c, props[i]).Err? ==> LoadFrom(env, c, props, i) == Err(LoadProperty(env, c, props[i]).error)
    ensures LoadProperty(env, c, props[i]).Ok? ==>
      LoadFrom(env, c, props, i) == LoadFrom(env, LoadProperty(env, c, props[i]).value, props, i + 1)
  {
  }

  lemma LoadSucceeds(env: Environment, c: seq<Entry>)
    ensures Load(env, c).Ok? <==>
      Properties(c).Ok? && forall e :: e in Properties(c).value ==> TemplateLoads(env, e.val)
  {
    if Properties(c).Ok? {
      var props := Properties(c).value;
      LoadFromSucceeds(env, c, props, 0);
      assert forall e :: e in props <==> exists j :: 0 <= j < |props| && props[j] == e;
    }
  }

  /** The template step changes only `properties`, and there only the
      iteration's own key. */
  lemma ExpandStepFrame(env: Environment, c: seq<Entry>, e: Entry)
    requires ExpandStep(env, c, e).Ok?
    ensures var d := ExpandStep(env, c, e).value;
      && (forall k :: k != Name("properties") ==> Find(d, k) == Find(c, k))
      && (forall k :: k != e.key ==> Find(Sub(d, "properties"), k) == Find(Sub(c, "properties"), k))
      && (HasTemplate(e.val) ==>
            Find(Sub(d, "properties"), e.key) == Some(ExpandedProperty(
              env.documents[TemplatePath(env, TemplateName(e.val)).value], PropertyAt(c, e.key))))
      && (!HasTemplate(e.val) ==> d == c)
      && (UseListsWellFormed(c) ==> UseListsWellFormed(d))
      && UseList(d) == UseList(c) && FormUseList(d) == FormUseList(c)
  {
    if HasTemplate(e.val) {
      var d := ExpandStep(env, c, e).value;
      var props := Set(Sub(c, "properties"), e.key, ExpandedProperty(
        env.documents[TemplatePath(env, TemplateName(e.val)).value], PropertyAt(c, e.key)));
      assert d == Set(c, Name("properties"), Arr(props));
      assert Find(d, Name("form")) == Find(c, Name("form"));
      assert Find(d, Name("use")) == Find(c, Name("use"));
      assert Sub(d, "form") == Sub(c, "form");
    }
  }

  /** The import step changes only `use` and `form`, and keeps them
      appendable. */
  lemma PropertyImportsFrame(c: seq<Entry>, key: Key)
    ensures var d := PropertyImports(c, key);
      && (forall k :: k != Name("use") && k != Name("form") ==> Find(d, k) == Find(c, k))
      && Sub(d, "properties") == Sub(c, "properties")
      && (UseListsWellFormed(c) ==> UseListsWellFormed(d))
  {
    var classUse := Extract(PropertyAt(c, key), ["type_options", "use"]);
    ImportsFrame(c, classUse, Extract(PropertyAt(AddUseTo(c, classUse), key), ["form", "use"]));
  }

  /** `addUse` followed by `addFormUse`, whatever they add. */
  lemma ImportsFrame(c: seq<Entry>, classUse: Value, formUse: Value)
    ensures var d := AddFormUseTo(AddUseTo(c, classUse), formUse);
      && (forall k :: k != Name("use") && k != Name("form") ==> Find(d, k) == Find(c, k))
      && Sub(d, "properties") == Sub(c, "properties")
      && (UseListsWellFormed(c) ==> UseListsWellFormed(d))
  {
    AddUseAppends(c, classUse);
    FormImportFrame(c, AddUseTo(c, classUse), formUse);
  }

  /** `addFormUse` after a change that kept every key but `use`. */
  lemma FormImportFrame(c: seq<Entry>, before: seq<Entry>, formUse: Value)
    requires forall k :: k != Name("use") ==> Find(before, k) == Find(c, k)
    requires UseListsWellFormed(c) ==> UseListsWellFormed(before)
    ensures var d := AddFormUseTo(before, formUse);
      && (forall k :: k != Name("use") && k != Name("form") ==> Find(d, k) == Find(c, k))
      && Sub(d, "properties") == Sub(c, "properties")
      && (UseListsWellFormed(c) ==> UseListsWellFormed(d))
  {
    AddFormUseAppends(before, formUse);
    var p := Name("properties");
    assert Find(before, p) == Find(c, p);
  }

  /** One iteration changes only `properties` at its own key, `use` and
      `form`; the other properties and configuration keys are kept, and the
      import lists stay appendable. */
  lemma LoadPropertyFrame(env: Environment, c: seq<Entry>, e: Entry)
    requires LoadProperty(env, c, e).Ok?
    ensures var d := LoadProperty(env, c, e).value;
      && (forall k :: k != Name("use") && k != Name("form") && k != Name("properties") ==> Find(d, k) == Find(c, k))
      && (forall k :: k != e.key ==> Find(Sub(d, "properties"), k) == Find(Sub(c, "properties"), k))
      && (HasTemplate(e.val) ==>
            Find(Sub(d, "properties"), e.key) == Some(ExpandedProperty(
              env.documents[TemplatePath(env, TemplateName(e.val)).value], PropertyAt(c, e.key))))
      && (!HasTemplate(e.val) ==> Find(Sub(d, "properties"), e.key) == Find(Sub(c, "properties"), e.key))
      && (UseListsWellFormed(c) ==> UseListsWellFormed(d))
  {
    var expanded := ExpandStep(env, c, e).value;
    var d := PropertyImports(expanded, e.key);
    assert LoadProperty(env, c, e).value == d;
    ExpandStepFrame(env, c, e);
    PropertyImportsFrame(expanded, e.key);
  }

  /** A PHP array never holds one key twice. */
  predicate UniqueKeys(a: seq<Entry>)
  {
    forall i, j :: 0 <= i < j < |a| ==> a[i].key != a[j].key
  }

  lemma {:induction false} FindUnique(a: seq<Entry>, j: nat)
    requires UniqueKeys(a)
    requires j < |a|
    ensures Find(a, a[j].key) == Some(a[j].val)
  {
    if j > 0 {
      assert a[1..][j - 1] == a[j];
      FindUnique(a[1..], j - 1);
    }
  }

  /** The value a property ends up with after loading. */
  function LoadedProperty(env: Environment, e: Entry): Value
    requires TemplateLoads(env, e.val)
  {
    if HasTemplate(e.val) then ExpandedProperty(env.documents[TemplatePath(env, TemplateName(e.val)).value], e.val)
    else e.val
  }

  /** The loop changes no configuration key but `properties`, `use` and
      `form`, and keeps the import lists appendable. */
  lemma {:induction false} LoadFromFrame(env: Environment, c: seq<Entry>, props: seq<Entry>, i: nat)
    requires i <= |props|
    requires LoadFrom(env, c, props, i).Ok?
    ensures var d := LoadFrom(env, c, props, i).value;
      && (forall k :: k != Name("use") && k != Name("form") && k != Name("properties") ==> Find(d, k) == Find(c, k))
      && (UseListsWellFormed(c) ==> UseListsWellFormed(d))
    decreases |props| - i
  {
    if i < |props| {
      var next := LoadProperty(env, c, props[i]).value;
      LoadPropertyFrame(env, c, props[i]);
      assert LoadFrom(env, c, props, i) == LoadFrom(env, next, props, i + 1);
      LoadFromFrame(env, next, props, i + 1);
    }
  }

  /** One iteration leaves its own property with its loaded value. */
  lemma LoadPropertyAt(env: Environment, c: seq<Entry>, e: Entry)
    requires LoadProperty(env, c, e).Ok?
    requires Find(Sub(c, "properties"), e.key) == Some(e.val)
    ensures TemplateLoads(env, e.val)
    ensures Find(Sub(LoadProperty(env, c, e).value, "properties"), e.key) == Some(LoadedProperty(env, e))
  {
    LoadPropertyFrame(env, c, e);
    LoadPropertyFails(env, c, e);
    assert PropertyAt(c, e.key) == e.val;
  }

  /** One iteration leaves every other property as it was. */
  lemma LoadPropertyOthers(env: Environment, c: seq<Entry>, e: Entry, k: Key)
    requires LoadProperty(env, c, e).Ok?
    requires k != e.key
    ensures Find(Sub(LoadProperty(env, c, e).value, "properties"), k) == Find(Sub(c, "properties"), k)
  {
    LoadPropertyFrame(env, c, e);
  }

  /** A property the remaining iterations do not visit keeps its value. */
  lemma {:induction false} LoadFromUnvisited(env: Environment, c: seq<Entry>, props: seq<Entry>, i: nat, k: Key)
    requires i <= |props|
    requires forall j :: i <= j < |props| ==> props[j].key != k
    requires LoadFrom(env, c, props, i).Ok?
    ensures Find(Sub(LoadFrom(env, c, props, i).value, "properties"), k) == Find(Sub(c, "properties"), k)
    decreases |props| - i
  {
    if i < |props| {
      var next := LoadProperty(env, c, props[i]).value;
      assert LoadFrom(env, c, props, i) == LoadFrom(env, next, props, i + 1);
      LoadPropertyOthers(env, c, props[i], k);
      LoadFromUnvisited(env, next, props, i + 1, k);
    }
  }

  /** A remaining property that still holds its original value ends with
      its loaded value. */
  lemma {:induction false} LoadFromVisited(env: Environment, c: seq<Entry>, props: seq<Entry>, i: nat, j: nat)
    requires i <= j < |props|
    requires UniqueKeys(props)
    requires Find(Sub(c, "properties"), props[j].key) == Some(props[j].val)
    requires LoadFrom(env, c, props, i).Ok?
    ensures TemplateLoads(env, props[j].val)
    ensures Find(Sub(LoadFrom(env, c, props, i).value, "properties"), props[j].key) == Some(LoadedProperty(env, props[j]))
    decreases |props| - i
  {
    var next := LoadProperty(env, c, props[i]).value;
    assert LoadFrom(env, c, props, i) == LoadFrom(env, next, props, i + 1);
    if i == j {
      LoadPropertyAt(env, c, props[i]);
      LoadFromUnvisited(env, next, props, i + 1, props[i].key);
    } else {
      LoadPropertyOthers(env, c, props[i], props[j].key);
      LoadFromVisited(env, next, props, i + 1, j);
    }
  }

  /** Two arrays with the same keys in the same order. */
  predicate SameKeys(a: seq<Entry>, b: seq<Entry>)
  {
    |a| == |b| && forall j :: 0 <= j < |a| ==> a[j].key == b[j].key
  }

  /** Arrays with the same keys find the same keys. */
  lemma SameKeysFind(a: seq<Entry>, b: seq<Entry>, k: Key)
    requires SameKeys(a, b)
    ensures Find(a, k).Some? <==> Find(b, k).Some?
  {
    FindSpec(a, k);
    FindSpec(b, k);
  }

  /** The template step rewrites a present property in place and leaves
      `form` alone. */
  lemma ExpandStepKeys(env: Environment, c: seq<Entry>, e: Entry)
    requires ExpandStep(env, c, e).Ok?
    requires Find(Sub(c, "properties"), e.key).Some?
    ensures SameKeys(Sub(ExpandStep(env, c, e).value, "properties"), Sub(c, "properties"))
    ensures Sub(ExpandStep(env, c, e).value, "form") == Sub(c, "form")
  {
    if HasTemplate(e.val) {
      var v := ExpandedProperty(env.documents[TemplatePath(env, TemplateName(e.val)).value], PropertyAt(c, e.key));
      var props := Set(Sub(c, "properties"), e.key, v);
      var d := ExpandStep(env, c, e).value;
      assert d == Set(c, Name("properties"), Arr(props));
      assert Find(d, Name("properties")) == Some(Arr(props));
      assert Sub(d, "properties") == props;
      assert Find(d, Name("form")) == Find(c, Name("form"));
    }
  }

  /** The import step keeps every key of `form` but `use`. */
  lemma PropertyImportsForm(c: seq<Entry>, key: Key)
    ensures forall k :: k != Name("use") ==> Find(Sub(PropertyImports(c, key), "form"), k) == Find(Sub(c, "form"), k)
  {
    var classUse := Extract(PropertyAt(c, key), ["type_options", "use"]);
    var withUse := AddUseTo(c, classUse);
    AddUseAppends(c, classUse);
    assert Find(withUse, Name("form")) == Find(c, Name("form"));
    assert Sub(withUse, "form") == Sub(c, "form");
    AddFormUseAppends(withUse, Extract(PropertyAt(withUse, key), ["form", "use"]));
  }

  /** One iteration over a property that is present rewrites it in place:
      the properties keep their keys and order, and `form` keeps every key
      but `use`. */
  lemma LoadPropertyShape(env: Environment, c: seq<Entry>, e: Entry)
    requires LoadProperty(env, c, e).Ok?
    requires Find(Sub(c, "properties"), e.key).Some?
    ensures var d := LoadProperty(env, c, e).value;
      && SameKeys(Sub(d, "properties"), Sub(c, "properties"))
      && forall k :: k != Name("use") ==> Find(Sub(d, "form"), k) == Find(Sub(c, "form"), k)
  {
    var expanded := ExpandStep(env, c, e).value;
    assert LoadProperty(env, c, e).value == PropertyImports(expanded, e.key);
    ExpandStepKeys(env, c, e);
    PropertyImportsFrame(expanded, e.key);
    PropertyImportsForm(expanded, e.key);
  }

  /** The loop rewrites present properties only in place and keeps `form`'s
      keys other than `use`. */
  lemma {:induction false} LoadFromShape(env: Environment, c: seq<Entry>, props: seq<Entry>, i: nat)
    requires i <= |props|
    requires LoadFrom(env, c, props, i).Ok?
    requires forall j :: i <= j < |props| ==> Find(Sub(c, "properties"), props[j].key).Some?
    ensures var d := LoadFrom(env, c, props, i).value;
      && SameKeys(Sub(d, "properties"), Sub(c, "properties"))
      && forall k :: k != Name("use") ==> Find(Sub(d, "form"), k) == Find(Sub(c, "form"), k)
    decreases |props| - i
  {
    if i < |props| {
      var next := LoadProperty(env, c, props[i]).value;
      assert LoadFrom(env, c, props, i) == LoadFrom(env, next, props, i + 1);
      LoadPropertyShape(env, c, props[i]);
      forall j | i + 1 <= j < |props|
        ensures Find(Sub(next, "properties"), props[j].key).Some?
      {
        SameKeysFind(Sub(next, "properties"), Sub(c, "properties"), props[j].key);
      }
      LoadFromShape(env, next, props, i + 1);
    }
  }

  /** After loading, every property holds its template's document merged
      under it (without the `template` key) or, naming no template, its
      original value; the properties keep their keys in their order; the
      configuration keys other than `properties`, `use` and `form` are
      unchanged, and so are the keys of `form` other than `use`. */
  lemma LoadProperties(env: Environment, c: seq<Entry>)
    requires Load(env, c).Ok?
    requires UniqueKeys(Properties(c).value)
    ensures var props := Properties(c).value;
      var d := Load(env, c).value;
      && (forall e :: e in props ==>
            TemplateLoads(env, e.val) &&
            Find(Sub(d, "properties"), e.key) == Some(LoadedProperty(env, e)))
      && |Sub(d, "properties")| == |props|
      && (forall j :: 0 <= j < |props| ==> Sub(d, "properties")[j].key == props[j].key)
      && (forall k :: k != Name("use") && k != Name("form") && k != Name("properties") ==> Find(d, k) == Find(c, k))
      && (forall k :: k != Name("use") ==> Find(Sub(d, "form"), k) == Find(Sub(c, "form"), k))
      && (UseListsWellFormed(c) ==> UseListsWellFormed(d))
  {
    var props := Properties(c).value;
    assert Load(env, c) == LoadFrom(env, c, props, 0);
    assert Sub(c, "properties") == props;
    forall j | 0 <= j < |props|
      ensures TemplateLoads(env, props[j].val)
      ensures Find(Sub(Load(env, c).value, "properties"), props[j].key) == Some(LoadedProperty(env, props[j]))
      ensures Find(Sub(c, "properties"), props[j].key).Some?
    {
      FindUnique(props, j);
      LoadFromVisited(env, c, props, 0, j);
    }
    LoadFromFrame(env, c, props, 0);
    LoadFromShape(env, c, props, 0);
    assert forall e :: e in props ==> exists j :: 0 <= j < |props| && props[j] == e;
  }

  /** A loaded property that named a template no longer has a `template`
      key; each key of the template's document or of the property is
      present. */
  lemma LoadedPropertyShape(env: Environment, e: Entry, k: Key)
    requires TemplateLoads(env, e.val) && HasTemplate(e.val)
    ensures LoadedProperty(env, e).Arr?
    ensures Find(LoadedProperty(env, e).entries, Name("template")).None?
    ensures k != Name("template") ==>
      (Find(LoadedProperty(env, e).entries, k).Some? <==>
         Find(AsEntries(env.documents[TemplatePath(env, TemplateName(e.val)).value]), k).Some? ||
         Find(e.val.entries, k).Some?)
  {
    MergeDomain(AsEntries(env.documents[TemplatePath(env, TemplateName(e.val)).value]), e.val.entries, k);
  }
  /** The leaves the iterations for `props[i..]` import from `path` of their
      loaded properties, property by property in order. */
  function Collected(env: Environment, props: seq<Entry>, i: nat, path: seq<string>): seq<Value>
    requires i <= |props|
    requires AllLoad(env, props, i)
    decreases |props| - i
  {
    if i == |props| then []
    else Leaves(Extract(LoadedProperty(env, props[i]), path)) + Collected(env, props, i + 1, path)
  }

  /** The import step appends the leaves of the property's
      `type_options.use` to the entity imports and those of its `form.use`
      to the form imports. */
  lemma PropertyImportsAppend(c: seq<Entry>, key: Key)
    ensures var d := PropertyImports(c, key);
      && Values(UseList(d)) == Values(UseList(c)) + Leaves(Extract(PropertyAt(c, key), ["type_options", "use"]))
      && Values(FormUseList(d)) == Values(FormUseList(c)) + Leaves(Extract(PropertyAt(c, key), ["form", "use"]))
  {
    var classUse := Extract(PropertyAt(c, key), ["type_options", "use"]);
    var withUse := AddUseTo(c, classUse);
    AddUseAppends(c, classUse);
    var form, props := Name("form"), Name("properties");
    assert Find(withUse, form) == Find(c, form);
    assert Find(withUse, props) == Find(c, props);
    var formUse := Extract(PropertyAt(withUse, key), ["form", "use"]);
    AddFormUseAppends(withUse, formUse);
    var d := AddFormUseTo(withUse, formUse);
    assert Find(d, Name("use")) == Find(withUse, Name("use"));
    AppendsThrough(c, withUse, d, Leaves(classUse), Leaves(formUse));
  }

  /** An entity import step followed by a form import step that leave each
      other's list alone append to both lists. */
  lemma AppendsThrough(c: seq<Entry>, withUse: seq<Entry>, d: seq<Entry>, a: seq<Value>, b: seq<Value>)
    requires Values(UseList(withUse)) == Values(UseList(c)) + a
    requires Find(withUse, Name("form")) == Find(c, Name("form"))
    requires Values(FormUseList(d)) == Values(FormUseList(withUse)) + b
    requires Find(d, Name("use")) == Find(withUse, Name("use"))
    ensures Values(UseList(d)) == Values(UseList(c)) + a
    ensures Values(FormUseList(d)) == Values(FormUseList(c)) + b
  {
  }

  /** One iteration, on a property that still holds its original value,
      appends the imports of its loaded value. */
  lemma LoadPropertyImports(env: Environment, c: seq<Entry>, e: Entry)
    requires LoadProperty(env, c, e).Ok?
    requires Find(Sub(c, "properties"), e.key) == Some(e.val)
    ensures TemplateLoads(env, e.val)
    ensures var d := LoadProperty(env, c, e).value;
      && Values(UseList(d)) == Values(UseList(c)) + Leaves(Extract(LoadedProperty(env, e), ["type_options", "use"]))
      && Values(FormUseList(d)) == Values(FormUseList(c)) + Leaves(Extract(LoadedProperty(env, e), ["form", "use"]))
  {
    LoadPropertyFails(env, c, e);
    var expanded := ExpandStep(env, c, e).value;
    ExpandStepFrame(env, c, e);
    assert PropertyAt(c, e.key) == e.val;
    ExpandedAt(env, c, expanded, e);
    PropertyImportsAppend(expanded, e.key);
  }

  /** The expanded property is the loaded one. */
  lemma ExpandedAt(env: Environment, c: seq<Entry>, expanded: seq<Entry>, e: Entry)
    requires TemplateLoads(env, e.val)
    requires PropertyAt(c, e.key) == e.val
    requires HasTemplate(e.val) ==>
      Find(Sub(expanded, "properties"), e.key) == Some(ExpandedProperty(
        env.documents[TemplatePath(env, TemplateName(e.val)).value], PropertyAt(c, e.key)))
    requires !HasTemplate(e.val) ==> expanded == c
    ensures PropertyAt(expanded, e.key) == LoadedProperty(env, e)
  {
  }

  /** The remaining iterations append, in order, the imports of each
      remaining property's loaded value. */
  lemma {:induction false} LoadFromImports(env: Environment, c: seq<Entry>, props: seq<Entry>, i: nat)
    requires i <= |props|
    requires UniqueKeys(props)
    requires forall j :: i <= j < |props| ==> Find(Sub(c, "properties"), props[j].key) == Some(props[j].val)
    requires AllLoad(env, props, i)
    requires LoadFrom(env, c, props, i).Ok?
    ensures var d := LoadFrom(env, c, props, i).value;
      && Values(UseList(d)) == Values(UseList(c)) + Collected(env, props, i, ["type_options", "use"])
      && Values(FormUseList(d)) == Values(FormUseList(c)) + Collected(env, props, i, ["form", "use"])
    decreases |props| - i
  {
    if i < |props| {
      var next := LoadProperty(env, c, props[i]).value;
      LoadFromStep(env, c, props, i);
      AllLoadStep(env, props, i);
      LoadPropertyImports(env, c, props[i]);
      forall j | i + 1 <= j < |props|
        ensures Find(Sub(next, "properties"), props[j].key) == Some(props[j].val)
      {
        LoadPropertyOthers(env, c, props[i], props[j].key);
      }
      LoadFromImports(env, next, props, i + 1);
      var d := LoadFrom(env, next, props, i + 1).value;
      CollectedStep(env, props, i, ["type_options", "use"], Values(UseList(c)), Values(UseList(next)), Values(UseList(d)));
      CollectedStep(env, props, i, ["form", "use"], Values(FormUseList(c)), Values(FormUseList(next)), Values(FormUseList(d)));
    }
  }

  /** The imports of one property followed by those of the properties after
      it are those of the properties from it on. */
  lemma CollectedStep(env: Environment, props: seq<Entry>, i: nat, path: seq<string>, x0: seq<Value>, x1: seq<Value>, x2: seq<Value>)
    requires i < |props|
    requires AllLoad(env, props, i)
    requires x1 == x0 + Leaves(Extract(LoadedProperty(env, props[i]), path))
    requires x2 == x1 + Collected(env, props, i + 1, path)
    ensures x2 == x0 + Collected(env, props, i, path)
  {
    assert Collected(env, props, i, path) == Leaves(Extract(LoadedProperty(env, props[i]), path)) + Collected(env, props, i + 1, path);
  }

  /** `loadTemplates()` appends to `use` the leaves of every loaded
      property's `type_options.use`, and to `form.use` those of its
      `form.use`, property by property in order; nothing already imported
      is dropped. */
  lemma LoadImports(env: Environment, c: seq<Entry>)
    requires Load(env, c).Ok?
    requires UniqueKeys(Properties(c).value)
    ensures var props := Properties(c).value;
      forall j :: 0 <= j < |props| ==> TemplateLoads(env, props[j].val)
    ensures var props, d := Properties(c).value, Load(env, c).value;
      && Values(UseList(d)) == Values(UseList(c)) + Collected(env, props, 0, ["type_options", "use"])
      && Values(FormUseList(d)) == Values(FormUseList(c)) + Collected(env, props, 0, ["form", "use"])
  {
    var props := Properties(c).value;
    assert Load(env, c) == LoadFrom(env, c, props, 0);
    assert props != [] ==> Sub(c, "properties") == props;
    forall j | 0 <= j < |props|
      ensures Find(Sub(c, "properties"), props[j].key) == Some(props[j].val)
    {
      FindUnique(props, j);
    }
    LoadFromSucceeds(env, c, props, 0);
    LoadFromImports(env, c, props, 0);
  }
}
