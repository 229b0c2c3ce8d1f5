/** The names, namespaces and file paths a block definition derives from its
    identity (the getters of Maker/BlockDefinition.php). A bundle-bound
    definition writes under `src/<path>/`, any other under the project
    path. */
module BlockPaths {
  import opened PhpValues
  import opened Strings
  import opened BlockIdentity

  /** `implode('\\', subDirectories)` with a leading `\`, or nothing. */
  function NamespaceSuffix(subDirectories: seq<string>): string
  {
    if subDirectories == [] then "" else "\\" + Join(subDirectories, "\\")
  }

  /** `getEntityNamespace()` */
  function EntityNamespace(id: Identity): string
  {
    id.namespace + "\\Entity" + NamespaceSuffix(id.subDirectories)
  }

  /** `getFormNamespace()` */
  function FormNamespace(id: Identity): string
  {
    id.namespace + "\\Form\\Type" + NamespaceSuffix(id.subDirectories)
  }

  /** `getCamelName()` */
  function CamelName(naming: Naming, id: Identity): string
  {
    naming.camelCase(id.name)
  }

  /** `getKebabName()` */
  function KebabName(naming: Naming, id: Identity): string
  {
    naming.kebabCase(id.name)
  }

  /** `getSnakeName()`: the snake case name with `_block` removed. */
  function SnakeName(naming: Naming, id: Identity): (r: string)
    ensures |r| <= |naming.snakeCase(id.name)|
    ensures !Contains(naming.snakeCase(id.name), "_block") ==> r == naming.snakeCase(id.name)
  {
    RemoveAll(naming.snakeCase(id.name), "_block")
  }

  /** The first `_block` of the snake case name is cut out, whatever
      precedes it is kept, and the rest is scanned on in the same way. */
  lemma SnakeNameDropsBlock(naming: Naming, id: Identity, a: string, b: string)
    requires naming.snakeCase(id.name) == a + "_block" + b
    requires forall p :: 0 <= p < |a| ==> !OccursAt(a + "_block" + b, "_block", p)
    ensures SnakeName(naming, id) == a + RemoveAll(b, "_block")
  {
    RemoveAllFirst(a, "_block", b);
  }

  /** `getFormTypeName()` */
  function FormTypeName(naming: Naming, id: Identity): (r: string)
    ensures EndsWith(r, "Type") && r[..|r| - 4] == CamelName(naming, id)
  {
    naming.camelCase(id.name) + "Type"
  }

  /** `getTranslationDomain()`: the bound bundle's name. */
  function TranslationDomain(id: Identity): (r: Option<string>)
    ensures r.Some? <==> id.bundle.Some?
    ensures r.Some? ==> r.value == id.bundle.value.name
  {
    if id.bundle.Some? then Some(id.bundle.value.name) else None
  }

  /** `getApplicationName()`. */
  function ApplicationName(env: Environment, naming: Naming, id: Identity): string
  {
    if id.bundle.Some? then naming.snakeCase(env.bundleNameWithoutPostfix(id.bundle.value.name))
    else naming.snakeCaseOfParts(Split(id.namespace, '\\'))
  }

  /** The file name of the Doctrine mapping: sub-directories joined by `.`
      before the camel case name. */
  function OrmFileName(naming: Naming, id: Identity): string
  {
    JoinedPrefix(id.subDirectories, ".") + naming.camelCase(id.name) + ".orm.yml"
  }

  /** `getDoctrineORMFilePath()` */
  function DoctrineOrmFilePath(env: Environment, naming: Naming, id: Identity): (r: string)
    ensures StartsWith(r, Root(env, id)) && EndsWith(r, OrmFileName(naming, id))
    ensures EndsWith(r, (if id.bundle.Some? then "/Resources/config/doctrine/" else "/config/doctrine/")
                        + OrmFileName(naming, id))
  {
    if id.bundle.Some? then
      UnderDirectory("src/" + id.path, "/Resources/config/doctrine/", OrmFileName(naming, id));
      "src/" + id.path + "/Resources/config/doctrine/" + OrmFileName(naming, id)
    else
      UnderDirectory(env.projectPath, "/config/doctrine/", OrmFileName(naming, id));
      env.projectPath + "/config/doctrine/" + OrmFileName(naming, id)
  }

  /** The entity file below `Entity/`: sub-directories joined by `/`. */
  function EntityFileName(naming: Naming, id: Identity): string
  {
    JoinedPrefix(id.subDirectories, "/") + naming.camelCase(id.name) + ".php"
  }

  /** `getEntityFilePath()` */
  function EntityFilePath(env: Environment, naming: Naming, id: Identity): (r: string)
    ensures StartsWith(r, Root(env, id)) && EndsWith(r, EntityFileName(naming, id))
    ensures EndsWith(r, (if id.bundle.Some? then "/Entity/" else "/src/Entity/") + EntityFileName(naming, id))
  {
    if id.bundle.Some? then
      UnderDirectory("src/" + id.path, "/Entity/", EntityFileName(naming, id));
      "src/" + id.path + "/Entity/" + EntityFileName(naming, id)
    else
      UnderDirectory(env.projectPath, "/src/Entity/", EntityFileName(naming, id));
      env.projectPath + "/src/Entity/" + EntityFileName(naming, id)
  }

  /** The form type file below `Form/Type/`. */
  function FormTypeFileName(naming: Naming, id: Identity): string
  {
    JoinedPrefix(id.subDirectories, "/") + naming.camelCase(id.name) + "Type.php"
  }

  /** `getFormTypeFilePath()` */
  function FormTypeFilePath(env: Environment, naming: Naming, id: Identity): (r: string)
    ensures StartsWith(r, Root(env, id)) && EndsWith(r, FormTypeFileName(naming, id))
    ensures EndsWith(r, (if id.bundle.Some? then "/Form/Type/" else "/src/Form/Type/") + FormTypeFileName(naming, id))
  {
    if id.bundle.Some? then
      UnderDirectory("src/" + id.path, "/Form/Type/", FormTypeFileName(naming, id));
      "src/" + id.path + "/Form/Type/" + FormTypeFileName(naming, id)
    else
      UnderDirectory(env.projectPath, "/src/Form/Type/", FormTypeFileName(naming, id));
      env.projectPath + "/src/Form/Type/" + FormTypeFileName(naming, id)
  }

  /** `getTemplateFileName()`: the kebab case name with `-block` removed. */
  function TemplateFileName(naming: Naming, id: Identity): (r: string)
    ensures StartsWith(r, "theme/block/") && EndsWith(r, ".html.twig")
    ensures |r| <= |"theme/block/" + naming.kebabCase(id.name) + ".html.twig"|
    ensures !Contains(naming.kebabCase(id.name), "-block") ==>
      r == "theme/block/" + naming.kebabCase(id.name) + ".html.twig"
  {
    var base := RemoveAll(naming.kebabCase(id.name), "-block");
    assert ("theme/block/" + base + ".html.twig")[..12] == "theme/block/";
    assert ("theme/block/" + base + ".html.twig")[12 + |base|..] == ".html.twig";
    "theme/block/" + base + ".html.twig"
  }

  /** The template file name keeps the kebab case name up to its first
      `-block`, drops that, and goes on with the rest. */
  lemma TemplateFileNameDropsBlock(naming: Naming, id: Identity, a: string, b: string)
    requires naming.kebabCase(id.name) == a + "-block" + b
    requires forall p :: 0 <= p < |a| ==> !OccursAt(a + "-block" + b, "-block", p)
    ensures TemplateFileName(naming, id) == "theme/block/" + a + RemoveAll(b, "-block") + ".html.twig"
  {
    RemoveAllFirst(a, "-block", b);
  }

  /** `getTemplateFilePath()` */
  function TemplateFilePath(env: Environment, naming: Naming, id: Identity): (r: string)
    ensures StartsWith(r, Root(env, id)) && EndsWith(r, TemplateFileName(naming, id))
    ensures EndsWith(r, (if id.bundle.Some? then "/Resources/views/" else "/templates/") + TemplateFileName(naming, id))
  {
    if id.bundle.Some? then
      UnderDirectory("src/" + id.path, "/Resources/views/", TemplateFileName(naming, id));
      "src/" + id.path + "/Resources/views/" + TemplateFileName(naming, id)
    else
      UnderDirectory(env.projectPath, "/templates/", TemplateFileName(naming, id));
      env.projectPath + "/templates/" + TemplateFileName(naming, id)
  }

  /** `getTypeFilePath()`: uses the name as given, not its camel case. */
  function TypeFilePath(env: Environment, id: Identity): (r: string)
    ensures StartsWith(r, Root(env, id)) && EndsWith(r, id.name + "Type.php")
    ensures EndsWith(r, (if id.bundle.Some? then "/Block/" else "/src/Block/") + (id.name + "Type.php"))
  {
    var file := id.name + "Type.php";
    if id.bundle.Some? then
      UnderDirectory("src/" + id.path, "/Block/", file);
      "src/" + id.path + "/Block/" + file
    else
      UnderDirectory(env.projectPath, "/src/Block/", file);
      env.projectPath + "/src/Block/" + file
  }

  /** The directory every generated file goes below. */
  function Root(env: Environment, id: Identity): string
  {
    if id.bundle.Some? then "src/" + id.path + "/" else env.projectPath + "/"
  }

  /** A path written as a directory, a `/`-led middle and a file name lies
      below that directory and ends with the middle and the file name. */
  lemma UnderDirectory(dir: string, middle: string, file: string)
    requires |middle| > 0 && middle[0] == '/'
    ensures StartsWith(dir + middle + file, dir + "/")
    ensures EndsWith(dir + middle + file, file)
    ensures EndsWith(dir + middle + file, middle + file)
  {
    assert (dir + middle + file)[..|dir| + 1] == dir + [middle[0]];
    assert (dir + middle + file)[|dir + middle|..] == file;
    assert (dir + middle + file)[|dir|..] == middle + file;
  }

  /** A file name built from the sub-directories and one last piece is the
      join of both; when no piece holds the separator, splitting it gives
      the pieces back. */
  lemma FileNameSegments(subDirectories: seq<string>, last: seq<string>, sep: char)
    requires |last| > 0
    requires forall s :: s in subDirectories + last ==> sep !in s
    ensures Split(JoinedPrefix(subDirectories, [sep]) + Join(last, [sep]), sep) == subDirectories + last
  {
    JoinAfterPrefix(subDirectories, last, [sep]);
    SplitJoin(subDirectories + last, sep);
  }

  /** The mapping file name splits at `.` into the sub-directories, the
      camel case name, `orm` and `yml`. */
  lemma OrmFileNameSegments(naming: Naming, id: Identity)
    requires forall s :: s in id.subDirectories ==> '.' !in s
    requires '.' !in naming.camelCase(id.name)
    ensures Split(OrmFileName(naming, id), '.') == id.subDirectories + [naming.camelCase(id.name), "orm", "yml"]
  {
    var camel := naming.camelCase(id.name);
    assert Join(["yml"], ".") == "yml";
    assert Join(["orm", "yml"], ".") == "orm.yml" by {
      assert ["orm", "yml"][1..] == ["yml"];
    }
    assert Join([camel, "orm", "yml"], ".") == camel + ".orm.yml" by {
      assert [camel, "orm", "yml"][1..] == ["orm", "yml"];
    }
    var pieces := id.subDirectories + [camel, "orm", "yml"];
    assert forall s :: s in pieces ==> s in id.subDirectories || s == camel || s == "orm" || s == "yml";
    FileNameSegments(id.subDirectories, [camel, "orm", "yml"], '.');
    assert OrmFileName(naming, id) == JoinedPrefix(id.subDirectories, ".") + Join([camel, "orm", "yml"], ".");
  }

  /** The entity file name splits at `/` into the sub-directories and the
      camel case name with `.php`. */
  lemma EntityFileNameSegments(naming: Naming, id: Identity)
    requires forall s :: s in id.subDirectories ==> '/' !in s
    requires '/' !in naming.camelCase(id.name)
    ensures Split(EntityFileName(naming, id), '/') == id.subDirectories + [naming.camelCase(id.name) + ".php"]
  {
    var last := naming.camelCase(id.name) + ".php";
    assert '/' !in last by {
      assert forall c :: c in last ==> c in naming.camelCase(id.name) || c in ".php";
    }
    assert Join([last], "/") == last;
    assert forall s :: s in id.subDirectories + [last] ==> s in id.subDirectories || s == last;
    FileNameSegments(id.subDirectories, [last], '/');
    assert EntityFileName(naming, id) == JoinedPrefix(id.subDirectories, "/") + Join([last], "/");
  }

  /** The form type file name splits at `/` into the sub-directories and the
      camel case name with `Type.php`. */
  lemma FormTypeFileNameSegments(naming: Naming, id: Identity)
    requires forall s :: s in id.subDirectories ==> '/' !in s
    requires '/' !in naming.camelCase(id.name)
    ensures Split(FormTypeFileName(naming, id), '/') == id.subDirectories + [naming.camelCase(id.name) + "Type.php"]
  {
    var last := naming.camelCase(id.name) + "Type.php";
    assert '/' !in last by {
      assert forall c :: c in last ==> c in naming.camelCase(id.name) || c in "Type.php";
    }
    assert Join([last], "/") == last;
    assert forall s :: s in id.subDirectories + [last] ==> s in id.subDirectories || s == last;
    FileNameSegments(id.subDirectories, [last], '/');
    assert FormTypeFileName(naming, id) == JoinedPrefix(id.subDirectories, "/") + Join([last], "/");
  }

  /** A namespace followed by fixed segments and the sub-directories splits
      at `\` into the namespace's segments, the fixed ones and the
      sub-directories. */
  lemma NamespaceSegments(ns: string, fixed: seq<string>, subDirectories: seq<string>)
    requires |fixed| > 0
    requires forall s :: s in fixed + subDirectories ==> '\\' !in s
    ensures Split(ns + "\\" + Join(fixed, "\\") + NamespaceSuffix(subDirectories), '\\')
            == Split(ns, '\\') + fixed + subDirectories
  {
    var tail := fixed + subDirectories;
    var joined, suffix := Join(fixed, "\\"), NamespaceSuffix(subDirectories);
    SuffixJoin(fixed, subDirectories);
    ConcatAssoc(ns + "\\", joined, suffix);
    SplitJoin(tail, '\\');
    SplitAround(ns, Join(tail, "\\"), '\\');
  }

  /** The fixed segments followed by the namespace suffix are the join of
      both with `\`. */
  lemma SuffixJoin(fixed: seq<string>, subDirectories: seq<string>)
    requires |fixed| > 0
    ensures Join(fixed, "\\") + NamespaceSuffix(subDirectories) == Join(fixed + subDirectories, "\\")
  {
    if subDirectories == [] {
      assert fixed + subDirectories == fixed;
    } else {
      JoinAfterPrefix(fixed, subDirectories, "\\");
    }
  }

  /** The entity namespace is the namespace, `Entity` and the sub-directories
      as `\`-separated segments. */
  lemma EntityNamespaceSegments(id: Identity)
    requires forall s :: s in id.subDirectories ==> '\\' !in s
    ensures Split(EntityNamespace(id), '\\') == Split(id.namespace, '\\') + ["Entity"] + id.subDirectories
  {
    var fixed := ["Entity"];
    assert "\\Entity" == "\\" + Join(fixed, "\\");
    ConcatAssoc(id.namespace, "\\", Join(fixed, "\\"));
    assert forall s :: s in fixed + id.subDirectories ==> s in id.subDirectories || s == "Entity";
    NamespaceSegments(id.namespace, fixed, id.subDirectories);
  }

  /** The form namespace is the namespace, `Form`, `Type` and the
      sub-directories as `\`-separated segments. */
  lemma FormNamespaceSegments(id: Identity)
    requires forall s :: s in id.subDirectories ==> '\\' !in s
    ensures Split(FormNamespace(id), '\\') == Split(id.namespace, '\\') + ["Form", "Type"] + id.subDirectories
  {
    var fixed := ["Form", "Type"];
    assert "\\Form\\Type" == "\\" + Join(fixed, "\\") by {
      assert fixed[1..] == ["Type"];
    }
    ConcatAssoc(id.namespace, "\\", Join(fixed, "\\"));
    assert forall s :: s in fixed + id.subDirectories ==> s in id.subDirectories || s == "Form" || s == "Type";
    NamespaceSegments(id.namespace, fixed, id.subDirectories);
  }
}
