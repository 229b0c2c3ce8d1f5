/** A block definition (Maker/BlockDefinition.php): built from a one-entry
    description `{<name>: <config>}`, it binds its identity, loads the
    templates its properties name and collects the imports of the entity
    class and the form type. Its configuration is the one piece of state
    that changes after construction. */
module BlockDefinitions {
  import opened PhpValues
  import opened BlockIdentity
  import opened BlockPaths
  import opened ConfigMerge
  import opened Imports
  import opened BlockConfig
  import opened BlockTemplates

  /** What a successful construction leaves: the identity and the
      configuration after `loadTemplates`. */
  datatype Resolved = Resolved(id: Identity, config: seq<Entry>)

  /** The constructor: the first entry of the description, its identity,
      then its templates. */
  function Resolve(env: Environment, description: seq<Entry>): Result<Resolved, Error>
  {
    var first :- FirstEntry(description);
    var id :- Identify(env, first.key, first.val.entries);
    var config :- Load(env, first.val.entries);
    Ok(Resolved(id, config))
  }

  /** A description whose `use`, `form` and `form.use` are each absent,
      null or an array, the shapes the model appends imports to. PHP
      appending into a string, a number or `true` raises an error, and it
      turns `false` into an array. */
  predicate WellFormedDescription(description: seq<Entry>)
  {
    description == [] || !description[0].val.Arr? || UseListsWellFormed(description[0].val.entries)
  }

  /** `sprintf('%s\%s', getEntityNamespace(), getName())`: the entity class
      a definition generates. */
  function ClassRef(id: Identity): string
  {
    EntityNamespace(id) + "\\" + id.name
  }

  /** The descriptions of `getClasses()` can be constructed without an
      import error. */
  predicate ClassesWellFormed(config: seq<Entry>)
  {
    forall e :: e in Classes(config) ==> WellFormedDescription([e])
  }

  /** The construction of each entry of `classes` as a definition of its
      own. */
  function Attempts(env: Environment, classes: seq<Entry>): (r: seq<Result<Resolved, Error>>)
    ensures |r| == |classes|
  {
    if classes == [] then []
    else Attempts(env, classes[..|classes| - 1]) + [Resolve(env, [classes[|classes| - 1]])]
  }

  /** The attempt at `i` constructs the entry at `i` alone. */
  lemma {:induction false} AttemptAt(env: Environment, classes: seq<Entry>, i: nat)
    requires i < |classes|
    ensures Attempts(env, classes)[i] == Resolve(env, [classes[i]])
  {
    if i < |classes| - 1 {
      var init := classes[..|classes| - 1];
      AttemptAt(env, init, i);
      assert init[i] == classes[i];
    }
  }

  /** The constructions of the attempts `i..`, in order; the first failed
      construction ends the walk. */
  function Constructions(attempts: seq<Result<Resolved, Error>>, i: nat): Result<seq<Resolved>, Error>
    requires i <= |attempts|
    decreases |attempts| - i
  {
    if i == |attempts| then Ok([])
    else
      var child :- attempts[i];
      var rest :- Constructions(attempts, i + 1);
      Ok([child] + rest)
  }

  /** The constructions the walk completes before the first failed one; all
      of them when none fails. */
  function Done(attempts: seq<Result<Resolved, Error>>, i: nat): (r: seq<Resolved>)
    requires i <= |attempts|
    ensures Constructions(attempts, i).Ok? ==> r == Constructions(attempts, i).value
    ensures |r| <= |attempts| - i
    ensures forall k :: 0 <= k < |r| ==> attempts[i + k] == Ok(r[k])
    ensures i + |r| < |attempts| ==> attempts[i + |r|].Err?
    decreases |attempts| - i
  {
    if i == |attempts| || attempts[i].Err? then []
    else [attempts[i].value] + Done(attempts, i + 1)
  }

  /** One step of `Done` after the constructions `made`. */
  lemma DoneStep(attempts: seq<Result<Resolved, Error>>, i: nat, made: seq<Resolved>)
    requires i < |attempts|
    ensures attempts[i].Err? ==> made + Done(attempts, i) == made
    ensures attempts[i].Ok? ==> made + Done(attempts, i) == (made + [attempts[i].value]) + Done(attempts, i + 1)
  {
    assert made + [] == made;
  }

  /** A constructed child after it imports the parent's entity class. */
  function Child(parent: Identity, r: Resolved): Resolved
  {
    Resolved(r.id, AddUseTo(r.config, Text(ClassRef(parent))))
  }

  /** The parent's configuration after importing each child's entity class,
      in order. */
  function AddRefs(c: seq<Entry>, children: seq<Resolved>): seq<Entry>
  {
    if children == [] then c
    else AddUseTo(AddRefs(c, children[..|children| - 1]), Text(ClassRef(children[|children| - 1].id)))
  }

  /** The entity classes of some definitions, as import values. */
  function Refs(children: seq<Resolved>): (r: seq<Value>)
    ensures |r| == |children|
    ensures forall j :: 0 <= j < |r| ==> r[j] == Text(ClassRef(children[j].id))
  {
    if children == [] then []
    else Refs(children[..|children| - 1]) + [Text(ClassRef(children[|children| - 1].id))]
  }

  /** A list of constructions in front of a result. */
  function Prepend(done: seq<Resolved>, r: Result<seq<Resolved>, Error>): Result<seq<Resolved>, Error>
  {
    if r.Err? then r else Ok(done + r.value)
  }

  /** One step of the walk: a failed attempt ends it with its error, a
      successful one puts its construction in front of the rest. */
  lemma ConstructionsStep(attempts: seq<Result<Resolved, Error>>, i: nat)
    requires i < |attempts|
    ensures attempts[i].Err? ==> Constructions(attempts, i) == Err(attempts[i].error)
    ensures attempts[i].Ok? ==>
      Constructions(attempts, i) == Prepend([attempts[i].value], Constructions(attempts, i + 1))
  {
  }

  lemma PrependTwice(done: seq<Resolved>, r: Resolved, rest: Result<seq<Resolved>, Error>)
    ensures Prepend(done, Prepend([r], rest)) == Prepend(done + [r], rest)
  {
    if rest.Ok? {
      assert done + ([r] + rest.value) == (done + [r]) + rest.value;
    }
  }

  /** `d` holds the identity and the configuration `r` describes. */
  ghost predicate Built(d: BlockDefinition, r: Resolved)
    reads d
  {
    d.id == r.id && d.config == r.config
  }

  class BlockDefinition {
    const env: Environment
    const naming: Naming
    const id: Identity
    var config: seq<Entry>

    /** The import lists can take appends. */
    predicate Valid()
      reads this
    {
      UseListsWellFormed(config)
    }

    constructor (env: Environment, naming: Naming, id: Identity, config: seq<Entry>)
      ensures this.env == env && this.naming == naming && this.id == id && this.config == config
    {
      this.env := env;
      this.naming := naming;
      this.id := id;
      this.config := config;
    }

    /** `new BlockDefinition(...)`: fails exactly when `Resolve` does, and
        otherwise holds what `Resolve` computes. */
    static method Create(env: Environment, naming: Naming, description: seq<Entry>) returns (res: Result<BlockDefinition, Error>)
      requires WellFormedDescription(description)
      ensures res.Ok? <==> Resolve(env, description).Ok?
      ensures res.Err? ==> res.error == Resolve(env, description).error
      ensures res.Ok? ==>
        && fresh(res.value)
        && res.value.env == env && res.value.naming == naming
        && res.value.id == Resolve(env, description).value.id
        && res.value.config == Resolve(env, description).value.config
        && res.value.Valid()
    {
      var first := FirstEntry(description);
      if first.Err? {
        return Err(first.error);
      }
      var entry := first.value;
      var identity := Identify(env, entry.key, entry.val.entries);
      if identity.Err? {
        return Err(identity.error);
      }
      var definition := new BlockDefinition(env, naming, identity.value, entry.val.entries);
      var loaded := definition.LoadTemplates();
      if loaded.Err? {
        return Err(loaded.error);
      }
      LoadKeepsUseLists(env, entry.val.entries);
      res := Ok(definition);
    }

    /** `loadTemplates()`: the configuration becomes `Load` of the old one,
        or the load fails with `Load`'s error. */
    method LoadTemplates() returns (out: Result<(), Error>)
      requires Valid()
      modifies this
      ensures out.Ok? <==> Load(env, old(config)).Ok?
      ensures out.Err? ==> out.error == Load(env, old(config)).error
      ensures out.Ok? ==> config == Load(env, old(config)).value
      ensures Valid()
    {
      var properties := Properties(config);
      if properties.Err? {
        return Err(properties.error);
      }
      var props := properties.value;
      var i := 0;
      while i < |props|
        invariant 0 <= i <= |props|
        invariant LoadFrom(env, config, props, i) == Load(env, old(config))
        invariant Valid()
      {
        var step := LoadEntry(props[i]);
        if step.Err? {
          return Err(step.error);
        }
        i := i + 1;
      }
      out := Ok(());
    }

    /** One iteration of `loadTemplates()`: merges the property's template
        into it when it names one, then imports the property's
        `type_options.use` and `form.use`. */
    method LoadEntry(e: Entry) returns (out: Result<(), Error>)
      requires Valid()
      modifies this
      ensures out.Ok? <==> LoadProperty(env, old(config), e).Ok?
      ensures out.Err? ==> out.error == LoadProperty(env, old(config), e).error
      ensures out.Ok? ==> config == LoadProperty(env, old(config), e).value
      ensures out.Err? ==> config == old(config)
      ensures Valid()
    {
      if HasTemplate(e.val) {
        var template := TemplateName(e.val);
        var path := FindTemplatePath(template);
        if path.None? {
          return Err(TemplateNotFound(template));
        }
        if path.value !in env.documents {
          return Err(TemplateUnreadable(path.value));
        }
        if !Mergeable(env.documents[path.value]) {
          return Err(TemplateNotArray(path.value));
        }
        var merged := DeepMerge(AsEntries(env.documents[path.value]), AsEntries(PropertyAt(config, e.key)));
        config := WithProperty(config, e.key, Arr(Unset(merged, Name("template"))));
      }
      assert ExpandStep(env, old(config), e) == Ok(config);
      ExpandStepFrame(env, old(config), e);
      var classUse := ExtractFromProperty(e.key, ["type_options", "use"]);
      AddUse(classUse);
      var formUse := ExtractFromProperty(e.key, ["form", "use"]);
      AddFormUse(formUse);
      out := Ok(());
    }

    /** `getTemplatePath($template)`: the first candidate file that
        exists. */
    method FindTemplatePath(template: string) returns (path: Option<string>)
      ensures path == TemplatePath(env, template)
    {
      var paths := Candidates(env, template);
      var i := 0;
      while i < |paths|
        invariant 0 <= i <= |paths|
        invariant FirstExisting(paths[i..], env.files) == TemplatePath(env, template)
      {
        if paths[i] in env.files {
          return Some(paths[i]);
        }
        assert paths[i..][1..] == paths[i + 1..];
        i := i + 1;
      }
      return None;
    }

    /** `extractFromProperty($key, $path)`: walks `path` down from the
        property, an empty array wherever a step finds nothing. */
    method ExtractFromProperty(key: Key, path: seq<string>) returns (v: Value)
      ensures v == Extract(PropertyAt(config, key), path)
    {
      v := PropertyAt(config, key);
      var i := 0;
      while i < |path|
        invariant 0 <= i <= |path|
        invariant Extract(v, path[i..]) == Extract(PropertyAt(config, key), path)
      {
        assert path[i..][1..] == path[i + 1..];
        v := Step(v, path[i]);
        i := i + 1;
      }
      assert path[i..] == [];
    }

    /** `addUse($use)`: `use` becomes a list if it is not set, then the
        leaves of `$use` are appended. */
    method AddUse(v: Value)
      requires Valid()
      modifies this
      ensures config == AddUseTo(old(config), v)
      ensures Valid()
    {
      AddUseAppends(config, v);
      if !IsSet(config, Name("use")) {
        config := WithSub(config, "use", []);
        SetSet(old(config), Name("use"), Arr([]), Arr(PushAll(UseList(config), Leaves(v))));
      }
      var list := PushLeaves(UseList(config), v);
      config := WithSub(config, "use", list);
    }

    /** `addFormUse($use)`: `form.use` becomes a list if it is not set, then
        the leaves of `$use` are appended. */
    method AddFormUse(v: Value)
      requires Valid()
      modifies this
      ensures config == AddFormUseTo(old(config), v)
      ensures Valid()
    {
      AddFormUseAppends(config, v);
      if !IsSet(Sub(config, "form"), Name("use")) {
        var form := Sub(config, "form");
        config := WithSub(config, "form", WithSub(form, "use", []));
        var list := PushAll(FormUseList(config), Leaves(v));
        SetSet(form, Name("use"), Arr([]), Arr(list));
        SetSet(old(config), Name("form"), Arr(WithSub(form, "use", [])), Arr(WithSub(form, "use", list)));
      }
      var list := PushLeaves(FormUseList(config), v);
      config := WithSub(config, "form", WithSub(Sub(config, "form"), "use", list));
    }

    /** One iteration of `getClasses()`: constructs the definition of
        `classes[i]`; it imports this definition's entity class and this
        definition imports its entity class. Stated as one step of the walk
        `Constructions` and of `AddRefs`, whose earlier steps `made` took. */
    method AddClass(classes: seq<Entry>, i: nat, ghost start: seq<Entry>, ghost made: seq<Resolved>)
      returns (res: Result<BlockDefinition, Error>)
      requires i < |classes|
      requires WellFormedDescription([classes[i]])
      requires config == AddRefs(start, made)
      requires Valid()
      modifies this
      ensures Valid()
      ensures var attempts := Attempts(env, classes);
        && (res.Err? ==> attempts[i].Err? && config == old(config))
        && (res.Err? ==> Prepend(made, Constructions(attempts, i)) == Err(res.error))
        && (res.Ok? ==>
              && fresh(res.value)
              && attempts[i].Ok?
              && Prepend(made, Constructions(attempts, i)) == Prepend(made + [attempts[i].value], Constructions(attempts, i + 1))
              && res.value != this && Built(res.value, Child(id, attempts[i].value))
              && config == AddRefs(start, made + [attempts[i].value]))
    {
      AttemptAt(env, classes, i);
      ConstructionsStep(Attempts(env, classes), i);
      if Attempts(env, classes)[i].Ok? {
        PrependTwice(made, Attempts(env, classes)[i].value, Constructions(Attempts(env, classes), i + 1));
      }
      res := Create(env, naming, [classes[i]]);
      if res.Ok? {
        var definition := res.value;
        definition.AddUse(Text(ClassRef(id)));
        AddUse(Text(ClassRef(definition.id)));
        ghost var r := Attempts(env, classes)[i].value;
        assert (made + [r])[..|made|] == made;
      }
    }

    /** Each of `ds` is a definition other than this one, built as the
        child of this one from the matching construction of `made`. */
    ghost predicate BuiltChildren(ds: seq<BlockDefinition>, made: seq<Resolved>)
      reads ds
    {
      |ds| == |made| && forall j :: 0 <= j < |ds| ==> ds[j] != this && Built(ds[j], Child(id, made[j]))
    }

    /** `$definitions[] = $definition` for a child built from `r`. */
    lemma BuiltChildrenSnoc(ds: seq<BlockDefinition>, made: seq<Resolved>, d: BlockDefinition, r: Resolved)
      requires BuiltChildren(ds, made)
      requires d != this && Built(d, Child(id, r))
      ensures BuiltChildren(ds + [d], made + [r])
    {
    }

    /** `getClasses()`: one definition per entry of `classes`; each child
        imports this definition's entity class and this definition imports
        each child's, in order. */
    method GetClasses() returns (res: Result<seq<BlockDefinition>, Error>)
      requires ClassesWellFormed(config)
      requires Valid()
      modifies this
      ensures Valid()
      ensures config == AddRefs(old(config), Done(Attempts(env, Classes(old(config))), 0))
      ensures var expected := Constructions(Attempts(env, Classes(old(config))), 0);
        && (res.Ok? <==> expected.Ok?)
        && (res.Err? ==> res.error == expected.error)
        && (res.Ok? ==>
              && |res.value| == |expected.value|
              && (forall j :: 0 <= j < |res.value| ==>
                    res.value[j] != this && Built(res.value[j], Child(id, expected.value[j])))
              && config == AddRefs(old(config), expected.value))
    {
      var classes := Classes(config);
      ghost var attempts := Attempts(env, classes);
      var definitions: seq<BlockDefinition> := [];
      ghost var made: seq<Resolved> := [];
      var i := 0;
      assert Prepend(made, Constructions(attempts, 0)) == Constructions(attempts, 0) by {
        if Constructions(attempts, 0).Ok? {
          assert [] + Constructions(attempts, 0).value == Constructions(attempts, 0).value;
        }
      }
      while i < |classes|
        invariant 0 <= i <= |classes|
        invariant |definitions| == i
        invariant BuiltChildren(definitions, made)
        invariant Constructions(attempts, 0) == Prepend(made, Constructions(attempts, i))
        invariant config == AddRefs(old(config), made)
        invariant Done(attempts, 0) == made + Done(attempts, i)
        invariant Valid()
      {
        assert classes[i] in classes;
        var child := AddClass(classes, i, old(config), made);
        if child.Err? {
          DoneStep(attempts, i, made);
          return Err(child.error);
        }
        ghost var r := attempts[i].value;
        BuiltChildrenSnoc(definitions, made, child.value, r);
        DoneStep(attempts, i, made);
        definitions := definitions + [child.value];
        made := made + [r];
        i := i + 1;
      }
      assert made + [] == made;
      res := Ok(definitions);
    }
  }

  /** Loading keeps the import lists appendable. */
  lemma LoadKeepsUseLists(env: Environment, c: seq<Entry>)
    requires Load(env, c).Ok?
    requires UseListsWellFormed(c)
    ensures UseListsWellFormed(Load(env, c).value)
  {
    LoadFromFrame(env, c, Properties(c).value, 0);
  }

  /** Construction fails on an empty description or a non-array
      configuration, and otherwise exactly when binding the identity or
      loading the templates fails; a constructed definition has the
      identity `Identify` gives and the configuration `Load` gives. */
  lemma ResolveSteps(env: Environment, description: seq<Entry>)
    ensures description == [] ==> Resolve(env, description) == Err(EmptyDescription)
    ensures description != [] && !description[0].val.Arr? ==>
      Resolve(env, description) == Err(ConfigNotArray(KeyText(description[0].key)))
    ensures description != [] && description[0].val.Arr? ==>
      var key, c := description[0].key, description[0].val.entries;
      && (Resolve(env, description).Ok? <==> Identify(env, key, c).Ok? && Load(env, c).Ok?)
      && (Identify(env, key, c).Err? ==> Resolve(env, description) == Err(Identify(env, key, c).error))
      && (Resolve(env, description).Ok? ==>
            Resolve(env, description).value == Resolved(Identify(env, key, c).value, Load(env, c).value))
  {
  }

  /** A successful walk holds one construction per attempt, in order. */
  lemma {:induction false} ConstructionsShape(attempts: seq<Result<Resolved, Error>>, i: nat)
    requires i <= |attempts|
    requires Constructions(attempts, i).Ok?
    ensures var rs := Constructions(attempts, i).value;
      && |rs| == |attempts| - i
      && forall k :: i <= k < |attempts| ==> attempts[k].Ok? && rs[k - i] == attempts[k].value
    decreases |attempts| - i
  {
    if i < |attempts| {
      ConstructionsShape(attempts, i + 1);
      var rest := Constructions(attempts, i + 1).value;
      var rs := Constructions(attempts, i).value;
      assert rs == [attempts[i].value] + rest;
      forall k | i <= k < |attempts|
        ensures attempts[k].Ok? && rs[k - i] == attempts[k].value
      {
        if k > i {
          assert attempts[k].Ok? && rest[k - (i + 1)] == attempts[k].value;
          assert rs[k - i] == rest[k - (i + 1)];
        }
      }
    }
  }

  /** The walk fails exactly when some construction fails, and then with
      the error of the first one that does. */
  lemma {:induction false} ConstructionsFail(attempts: seq<Result<Resolved, Error>>, i: nat)
    requires i <= |attempts|
    ensures Constructions(attempts, i).Err? <==> exists j :: i <= j < |attempts| && attempts[j].Err?
    ensures Constructions(attempts, i).Err? ==>
      exists j :: i <= j < |attempts| && attempts[j].Err? &&
        Constructions(attempts, i).error == attempts[j].error &&
        forall l :: i <= l < j ==> attempts[l].Ok?
    decreases |attempts| - i
  {
    if i < |attempts| {
      ConstructionsFail(attempts, i + 1);
    }
  }

  /** The parent imports the children's entity classes, in order, after its
      own earlier imports; no other configuration key changes. */
  lemma {:induction false} AddRefsImports(c: seq<Entry>, children: seq<Resolved>)
    ensures Values(UseList(AddRefs(c, children))) == Values(UseList(c)) + Refs(children)
    ensures forall k :: k != Name("use") ==> Find(AddRefs(c, children), k) == Find(c, k)
    ensures UseListsWellFormed(c) ==> UseListsWellFormed(AddRefs(c, children))
  {
    if children != [] {
      var init := children[..|children| - 1];
      AddRefsImports(c, init);
      ImportStep(c, AddRefs(c, init), Refs(init), Text(ClassRef(children[|children| - 1].id)));
    }
  }

  /** One more import after some earlier ones. */
  lemma ImportStep(c: seq<Entry>, before: seq<Entry>, refs: seq<Value>, ref: Value)
    requires !ref.Arr?
    requires Values(UseList(before)) == Values(UseList(c)) + refs
    requires forall k :: k != Name("use") ==> Find(before, k) == Find(c, k)
    requires UseListsWellFormed(c) ==> UseListsWellFormed(before)
    ensures Values(UseList(AddUseTo(before, ref))) == Values(UseList(c)) + (refs + [ref])
    ensures forall k :: k != Name("use") ==> Find(AddUseTo(before, ref), k) == Find(c, k)
    ensures UseListsWellFormed(c) ==> UseListsWellFormed(AddUseTo(before, ref))
  {
    AddUseAppends(before, ref);
  }

  /** After `getClasses()`, the parent imports every child's entity
      class. */
  lemma ParentImportsChildren(c: seq<Entry>, children: seq<Resolved>)
    ensures forall j :: 0 <= j < |children| ==> Text(ClassRef(children[j].id)) in Values(UseList(AddRefs(c, children)))
  {
    AddRefsImports(c, children);
    var before := Values(UseList(c));
    var refs := Refs(children);
    var all := Values(UseList(AddRefs(c, children)));
    assert all == before + refs;
    forall j | 0 <= j < |children|
      ensures Text(ClassRef(children[j].id)) in all
    {
      assert refs[j] in before + refs;
    }
  }

  /** After `getClasses()`, every child has the identity its own
      construction gave, and its imports are the ones that construction
      loaded followed by the parent's entity class. */
  lemma ChildrenImportParent(parent: Identity, attempts: seq<Result<Resolved, Error>>)
    requires Constructions(attempts, 0).Ok?
    ensures var cs := Constructions(attempts, 0).value;
      && |cs| == |attempts|
      && forall j :: 0 <= j < |cs| ==>
        && attempts[j].Ok?
        && Child(parent, cs[j]).id == attempts[j].value.id
        && Values(UseList(Child(parent, cs[j]).config)) == Values(UseList(attempts[j].value.config)) + [Text(ClassRef(parent))]
        && Text(ClassRef(parent)) in Values(UseList(Child(parent, cs[j]).config))
  {
    var cs := Constructions(attempts, 0).value;
    ConstructionsShape(attempts, 0);
    forall j | 0 <= j < |cs|
      ensures attempts[j].Ok? && cs[j] == attempts[j].value
    {
      assert attempts[j].Ok? && cs[j - 0] == attempts[j].value;
    }
    forall j | 0 <= j < |cs|
      ensures Child(parent, cs[j]).id == attempts[j].value.id
      ensures Values(UseList(Child(parent, cs[j]).config)) == Values(UseList(attempts[j].value.config)) + [Text(ClassRef(parent))]
      ensures Text(ClassRef(parent)) in Values(UseList(Child(parent, cs[j]).config))
    {
      ChildImports(parent, cs[j]);
    }
  }

  /** A child imports what its construction loaded, then the parent's entity
      class. */
  lemma ChildImports(parent: Identity, r: Resolved)
    ensures Child(parent, r).id == r.id
    ensures Values(UseList(Child(parent, r).config)) == Values(UseList(r.config)) + [Text(ClassRef(parent))]
    ensures Text(ClassRef(parent)) in Values(UseList(Child(parent, r).config))
  {
    var ref := Text(ClassRef(parent));
    AddUseAppends(r.config, ref);
    assert Leaves(ref) == [ref];
    assert Values(UseList(Child(parent, r).config))[|Values(UseList(r.config))|] == ref;
  }
}
