# Block definitions of the enhavo block maker

This project models the core of the block maker in enhavo's BlockBundle: the
`BlockDefinition` class that reads a block description such as

```yaml
TextBlock:
  namespace: AppBundle
  properties:
    title: { template: string_property, type_options: { use: [...] } }
  classes:
    Item: { properties: {...} }
```

and derives from it everything the maker's generators need, plus the
`DoctrineOrmField` value that the Doctrine mapping template reads.

- **Construction** (`BlockDefinitions.BlockDefinition.Create`, specified by
  `BlockDefinitions.Resolve`). The first entry of the description gives the
  name and the configuration. A name `a/b/Leaf` is split into the leaf name
  and its sub-directories. The namespace is `config['namespace']`, or `App`.
  A namespace ending in `Bundle` binds the definition to that kernel bundle
  and takes the bundle's namespace. Then the property templates are loaded.
- **Template loading** (`LoadTemplates`, specified by `BlockTemplates.Load`).
  For each property that names a `template`, the first existing file among
  three candidate locations is read. The property is merged over that
  document and loses its `template` key. A document that is a string, a
  number or `true` cannot be merged into (`TemplateNotArray`). Each
  property's `type_options.use` goes into the entity imports, and its
  `form.use` into the form imports, in property order.
- **Deep merge** (`ConfigMerge.DeepMerge` and `ConfigMerge.Merge`). It is
  recursive for arrays, and the override wins for scalars.
- **Imports** (`addUse`, `addFormUse`, `getUse`, `getFormUse`, module
  `Imports`). Nested arrays are flattened and appended. They are read back
  with duplicates dropped, comparing the values' string forms: the first
  occurrence of each is kept, in the order stored.
- **Getters.** Configuration getters live in `BlockConfig`; names,
  namespaces and generated file paths in `BlockPaths`.
- **Child classes** (`GetClasses`). Each entry of `classes` becomes a
  definition of its own. Each child imports the parent's entity class, and
  the parent imports each child's.

PHP arrays are modelled as ordered association lists (`PhpValues`). Lookup
finds the first entry with a key. Assignment replaces an entry in place or
appends a new one. `[] =` appends under the next integer key. The host
application is a parameter, `BlockIdentity.Environment`: the kernel's
bundles, the files that exist, the YAML documents they hold, the project
path and the block bundle's path. The case conversions of `NameTransformer`
are uninterpreted functions in `BlockIdentity.Naming`. A PHP exception is
the `Err` of a `Result`.

## Model

| member | source | states |
|---|---|---|
| BlockIdentity.FirstEntry | Maker/BlockDefinition.php:42-46 | the description's first entry is taken exactly when its value is an array; an empty description is an error, and a non-array first value is refused with an error naming its key |
| BlockIdentity.IdentifyName | Maker/BlockDefinition.php:55-57 | `Identify`: the key splits at `/` into sub-directories and a leaf name that join back to the key; no piece holds `/`; there are no sub-directories exactly when the key has no `/` |
| BlockIdentity.IdentifyNamespace | Maker/BlockDefinition.php:50-58 | `Identify`: the namespace defaults to `App`; one ending in `Bundle` binds the kernel's bundle of that name and takes its namespace, failing exactly when the kernel has none; the path is the namespace with every `\` turned into `/` and every other character kept |
| BlockIdentity.ConfiguredNamespace | Maker/BlockDefinition.php:286 | the namespace is `App` when none is configured, the configured scalar as a string otherwise, and an array is refused |
| BlockIdentity.IdentifyAsWritten | Maker/BlockDefinition.php:50-53 | as written, the identity steps succeed exactly when the corrected `Identify` succeeds without binding a bundle, and then agree with it; a failure of `Identify` is kept |
| BlockIdentity.BundleBindingAsWritten | Maker/BlockDefinition.php:289-292 | as written, every definition whose namespace names an existing bundle fails with a type error, while the corrected binding succeeds with that bundle |
| BlockIdentity.BundleBindingCounterexample | Maker/BlockDefinition.php:26 | the concrete description `{Block: {namespace: AppBundle}}` fails as written and succeeds when corrected |
| BlockPaths.SnakeName | Maker/BlockDefinition.php:172-175 | the snake case name with `_block` removed is no longer, and is unchanged when it holds no `_block` |
| BlockPaths.SnakeNameDropsBlock | Maker/BlockDefinition.php:174 | the snake case name is kept up to its first `_block`, that occurrence is dropped, and the rest is treated the same way |
| Strings.RemoveAllFirst | Maker/BlockDefinition.php:174 | `str_replace` scans left to right: the text before the first occurrence is kept, the occurrence is dropped, and the scan goes on after it |
| Strings.RemoveAllSinglePass | Maker/BlockDefinition.php:174 | one pass can leave the word in the result: `x_bl_blockock` becomes `x_block` |
| BlockPaths.FormTypeName | Maker/BlockDefinition.php:187-190 | the form type name is the camel case name followed by `Type` |
| BlockPaths.TranslationDomain | Maker/BlockDefinition.php:192-195 | there is a translation domain exactly when a bundle is bound, and it is the bundle's name |
| BlockPaths.DoctrineOrmFilePath | Maker/BlockDefinition.php:94-104 | the mapping file lies below `src/<path>/` in `Resources/config/doctrine/` for a bundle-bound definition, and below the project path in `config/doctrine/` otherwise; it ends with the mapping file name |
| BlockPaths.EntityFilePath | Maker/BlockDefinition.php:106-116 | the entity file lies below the definition's root, in `Entity/` for a bundle-bound definition and in `src/Entity/` otherwise, and ends with the entity file name |
| BlockPaths.FormTypeFilePath | Maker/BlockDefinition.php:125-135 | the form type file lies below the definition's root, in `Form/Type/` for a bundle-bound definition and in `src/Form/Type/` otherwise, and ends with the form type file name |
| BlockPaths.TemplateFileName | Maker/BlockDefinition.php:146-149 | the template file name lies in `theme/block/`, ends with `.html.twig`, is no longer than the kebab case name would give, and holds that name unchanged when it has no `-block` |
| BlockPaths.TemplateFileNameDropsBlock | Maker/BlockDefinition.php:148 | the template file name keeps the kebab case name up to its first `-block`, drops it, and treats the rest the same way |
| BlockPaths.TemplateFilePath | Maker/BlockDefinition.php:137-144 | the Twig template lies below the definition's root, in `Resources/views/` for a bundle-bound definition and in `templates/` otherwise, and ends with the template file name |
| BlockPaths.TypeFilePath | Maker/BlockDefinition.php:151-158 | the block type file lies below the definition's root, in `Block/` for a bundle-bound definition and in `src/Block/` otherwise, and ends with the name as given, not its camel case, followed by `Type.php` |
| BlockPaths.OrmFileNameSegments | Maker/BlockDefinition.php:94-104 | the mapping file name splits at `.` into the sub-directories, the camel case name, `orm` and `yml` |
| BlockPaths.EntityFileNameSegments | Maker/BlockDefinition.php:106-116 | the entity file name splits at `/` into the sub-directories and the camel case name with `.php` |
| BlockPaths.FormTypeFileNameSegments | Maker/BlockDefinition.php:125-135 | the form type file name splits at `/` into the sub-directories and the camel case name with `Type.php` |
| BlockPaths.EntityNamespaceSegments | Maker/BlockDefinition.php:118-123 | `EntityNamespace`: the entity namespace is the namespace's segments, `Entity`, then the sub-directories |
| BlockPaths.FormNamespaceSegments | Maker/BlockDefinition.php:160-165 | `FormNamespace`: the form namespace is the namespace's segments, `Form`, `Type`, then the sub-directories |
| BlockConfig.ConfigValue | Maker/BlockDefinition.php:279-282 | the configured value when the key is set and not null, the default otherwise |
| BlockConfig.ArrayConfig | Maker/BlockDefinition.php:269-277 | `Properties` and `Traits`: the properties and traits are the configured array, `[]` when unset, and a type error exactly when a scalar is configured |
| BlockConfig.Classes | Maker/BlockDefinition.php:224-225 | the walk over `classes` visits the configured array's entries, and nothing when `classes` is unset or not an array |
| BlockConfig.Label | Maker/BlockDefinition.php:238-241 | the label is the configured scalar as a string, the camel case name when none is set; an array is a type error |
| BlockConfig.Implements | Maker/BlockDefinition.php:243-246 | the interface is the configured scalar as a string, none when unset; an array is a type error |
| BlockConfig.BlockType | Maker/BlockDefinition.php:299-302 | the block type is false when unset and the configured scalar's truth value otherwise; an array is a type error |
| BlockConfig.GettersAgree | Maker/BlockDefinition.php:221-302 | the getters read nothing but their own keys: two configurations that agree there give the same results |
| BlockConfig.ImportsKeepGetters | Maker/BlockDefinition.php:304-330 | adding imports changes neither the label, the properties nor the classes |
| Imports.Leaves | Maker/BlockDefinition.php:309-315 | what `addUse` appends never holds an array |
| Imports.PushLeaves | Maker/BlockDefinition.php:304-316 | the recursive append loop appends exactly the leaves of its argument, in order |
| Imports.Unique | Maker/BlockDefinition.php:335 | the deduplicated list has no two values with the same string form, has the same string forms as its input and holds only input values |
| Imports.FirstIndices | Maker/BlockDefinition.php:335 | the positions of the first occurrences are positions of the input, in strictly increasing order |
| Imports.UniqueKeepsFirsts | Maker/BlockDefinition.php:335 | `array_unique` keeps exactly the values whose string form has not occurred earlier, in input order: its k-th value is the input's value at the k-th first occurrence |
| Imports.UniqueOfDistinct | Maker/BlockDefinition.php:335 | a list without repeated string forms reads back unchanged |
| Imports.UseImports | Maker/BlockDefinition.php:332-339 | the entity imports are empty when `use` is unset; otherwise they are the stored list's first occurrences in stored order, without repeats and with the same string forms |
| Imports.FormUseImports | Maker/BlockDefinition.php:341-344 | the form imports are the stored `form.use` list's first occurrences in stored order, without repeats and with the same string forms |
| Imports.AddUseAppends | Maker/BlockDefinition.php:304-316 | `AddUseTo`: `addUse` appends the leaves of its argument to `use`, keeps every other key and keeps the import lists appendable |
| Imports.AddFormUseAppends | Maker/BlockDefinition.php:318-330 | `AddFormUseTo`: `addFormUse` appends the leaves of its argument to `form.use` and changes nothing outside it |
| Imports.AddUseThenRead | Maker/BlockDefinition.php:304-339 | after `addUse`, the entity imports read back without repeats, with every added leaf and every earlier import |
| ConfigMerge.BaseFor | Maker/BlockDefinition.php:350 | an array override is merged into the base's array under its key, or into `[]` when the base has none or holds null |
| ConfigMerge.DeepMerge | Maker/BlockDefinition.php:346-357 | the source's loop computes the merge `Merge` |
| ConfigMerge.MergeKeepsUnnamed | Maker/BlockDefinition.php:346-357 | `Merge`: a key the override does not name keeps its base value |
| ConfigMerge.MergeOverrides | Maker/BlockDefinition.php:348-354 | a scalar of the override replaces the base's value, whatever the base holds there; an array of the override is merged recursively into the base's array, or into `[]` when the base has none or holds a scalar |
| ConfigMerge.MergeDomain | Maker/BlockDefinition.php:346-357 | the merge holds exactly the keys of the base and of the override |
| ConfigMerge.MergeIdempotent | Maker/BlockDefinition.php:346-357 | merging the same override twice gives the same result as merging it once |
| ConfigMerge.MergeExample | Maker/BlockDefinition.php:72 | a template's nested options and a property's nested options are combined, the template's first |
| BlockTemplates.Candidates | Maker/BlockDefinition.php:361-364 | there are three candidates, each ending with `/<template>.yaml`, in this order: `<project>/<template>.yaml` (fixed by its length), then `config/block/templates/` below the project path, then `Resources/block/templates/` below the block bundle's path |
| BlockTemplates.FirstExistingSpec | Maker/BlockDefinition.php:365-371 | the path found is a candidate that exists, and every candidate before it does not; none is found exactly when no candidate exists |
| BlockTemplates.TemplateLookupOrder | Maker/BlockDefinition.php:359-372 | `TemplatePath`: the project directory shadows `config/block/templates`, which shadows the block bundle's templates |
| BlockTemplates.ExtractNested | Maker/BlockDefinition.php:83-92 | the two-step walk finds the nested value when both steps find one, and `[]` otherwise |
| BlockTemplates.ExpandTemplate | Maker/BlockDefinition.php:66-73 | merging a property's template fails exactly when the template cannot be loaded: it is not found, its file cannot be read, or its document is a scalar that `deepMerge` cannot write into |
| BlockTemplates.LoadPropertyFails | Maker/BlockDefinition.php:66-70 | `LoadProperty`: one iteration fails exactly when its template cannot be loaded, naming the missing template, the unreadable file or the document that is not an array |
| BlockTemplates.LoadSucceeds | Maker/BlockDefinition.php:63-81 | `Load`: loading succeeds exactly when the properties are an array and every template they name can be loaded |
| BlockTemplates.LoadPropertyFrame | Maker/BlockDefinition.php:65-79 | one iteration changes only its own property, `use` and `form` |
| BlockTemplates.LoadProperties | Maker/BlockDefinition.php:63-81 | after loading, every property holds its template merged under it, or its original value when it names none; the properties keep exactly their keys, in order; other keys than `properties`, `use` and `form` are unchanged, and so are the keys of `form` other than `use` |
| BlockTemplates.PropertyImportsAppend | Maker/BlockDefinition.php:76-79 | `PropertyImports`: one property's `type_options.use` leaves are appended to `use` and its `form.use` leaves to `form.use` |
| BlockTemplates.LoadPropertyImports | Maker/BlockDefinition.php:65-79 | one successful iteration appends the imports of the property as loaded, after its template is merged |
| BlockTemplates.LoadFromImports | Maker/BlockDefinition.php:65-80 | the loop from any property onwards appends the collected imports of the remaining properties, in property order |
| BlockTemplates.LoadImports | Maker/BlockDefinition.php:63-81 | after loading, `use` is the earlier list followed by every loaded property's `type_options.use` leaves, in property order, and `form.use` likewise with `form.use` |
| BlockTemplates.LoadedPropertyShape | Maker/BlockDefinition.php:71-73 | a loaded property has no `template` key and holds exactly the keys of the document and of the property |
| BlockDefinitions.ResolveSteps | Maker/BlockDefinition.php:36-61 | `Resolve`: construction fails on an empty or non-array description; otherwise it fails exactly when the binding or the loading does, and it yields their results |
| BlockDefinitions.BlockDefinition.Create | Maker/BlockDefinition.php:36-61 | the constructed object holds the identity and the loaded configuration `Resolve` gives, and fails with its error |
| BlockDefinitions.BlockDefinition.LoadTemplates | Maker/BlockDefinition.php:63-81 | the loop leaves the configuration `Load` computes, or fails with its error; so it appends the imports `LoadImports` states, and keeps the object valid |
| BlockDefinitions.BlockDefinition.LoadEntry | Maker/BlockDefinition.php:65-79 | one iteration merges the property's template and adds its imports as `LoadProperty` computes, or fails with the missing template, the unreadable file or the non-array document and leaves the configuration unchanged; the object stays valid |
| BlockDefinitions.BlockDefinition.FindTemplatePath | Maker/BlockDefinition.php:359-372 | the loop returns the first candidate that exists |
| BlockDefinitions.BlockDefinition.ExtractFromProperty | Maker/BlockDefinition.php:83-92 | the loop walks the path down from the property, `[]` wherever a step finds nothing |
| BlockDefinitions.BlockDefinition.AddUse | Maker/BlockDefinition.php:304-316 | the new configuration is the old one with the leaves appended to `use`, and the object stays valid |
| BlockDefinitions.BlockDefinition.AddFormUse | Maker/BlockDefinition.php:318-330 | the new configuration is the old one with the leaves appended to `form.use`, and the object stays valid |
| BlockDefinitions.BlockDefinition.AddClass | Maker/BlockDefinition.php:225-233 | one iteration constructs a new child other than the parent, makes it import the parent's entity class and makes the parent import the child's; a failed construction ends the walk with its error and leaves the parent's configuration unchanged |
| BlockDefinitions.BlockDefinition.GetClasses | Maker/BlockDefinition.php:221-236 | one definition per entry of `classes` in order, each with its own identity and configuration plus the parent import; the parent imports every child's class; the first failed construction ends it with its error, and the parent then keeps the imports of the children built before it |
| BlockDefinitions.Done | Maker/BlockDefinition.php:225-233 | the children built before the first failed construction: all of them when none fails, each the result of its construction, and the next construction is the one that fails |
| BlockDefinitions.ConstructionsShape | Maker/BlockDefinition.php:225-228 | a successful walk holds exactly one construction per entry of `classes`, in order |
| BlockDefinitions.ConstructionsFail | Maker/BlockDefinition.php:225-228 | the walk fails exactly when some construction fails, with the error of the first one that does |
| BlockDefinitions.AddRefsImports | Maker/BlockDefinition.php:230 | the parent's imports become its earlier imports followed by the children's entity classes, in order; no other key changes |
| BlockDefinitions.ParentImportsChildren | Maker/BlockDefinition.php:230 | the parent imports every child's entity class |
| BlockDefinitions.ChildrenImportParent | Maker/BlockDefinition.php:225-229 | every child keeps the identity of its construction, and its imports are those of its construction followed by the parent's entity class |
| BlockDefinitions.ChildImports | Maker/BlockDefinition.php:229 | a child's imports are its construction's followed by the parent's entity class, which it therefore imports |
| OrmField.NullableString | Maker/Generator/DoctrineOrmField.php:28-31 | the mapping's nullability is the string `true` or `false` |
| OrmField.NullableRoundTrip | Maker/Generator/DoctrineOrmField.php:23-31 | the string written reads back as a YAML boolean equal to the field's nullability; an unset `nullable` gives `false` |
| OrmField.NullableOnlyReadsNullable | Maker/Generator/DoctrineOrmField.php:23-26 | `Nullable`: only `nullable` decides nullability: setting it gives its truth value, unsetting it gives false, other keys do not matter |
| OrmField.Type | Maker/Generator/DoctrineOrmField.php:33-36 | the type is `orm_type` when set, else `type` when set, else none; an array is a type error |
| OrmField.OrmTypeFirst | Maker/Generator/DoctrineOrmField.php:35 | while `orm_type` is set, `type` does not matter; while it is not, the type is what `type` holds |
| OrmField.TextTypeKept | Maker/Generator/DoctrineOrmField.php:35 | a string type is returned as written from either key |

## Left out

- `NameTransformer`'s camel, snake and kebab case are uninterpreted. `BlockPaths.CamelName`, `BlockPaths.KebabName` and `BlockPaths.ApplicationName` therefore only apply them, and no property is stated about them.
- `Filesystem::exists`, `Yaml::parseFile`, `KernelInterface::getBundle` and `MakerUtil` are parameters (`Environment`). A YAML file that exists but is missing from `documents` fails with `TemplateUnreadable`. The YAML parser's own errors and formats are not modelled.
- `createEntityPhpClass`, `createFormTypePhpClass`, `createDoctrineOrmYaml` and `getFormType` only hand values to the generators. The generators (`PhpClass`, `FormType`, `DoctrineOrmYaml`) are not part of this model. So the `enhavo_` stripping of the table name is left out too.
- `getGroupsString` formats YAML text for a generator template. It is not part of this model.
- ConfigMerge.Merge: the model differs from PHP when the base holds a scalar other than null under a nested key whose override is an array. The model always merges the override into `[]`. With an empty override array, PHP's loop does not run and the scalar is kept, `false` included. With a non-empty override, PHP writes into the scalar: that raises an error for a number or `true` and does not build an array from a string, while `false` becomes an array as in the model. At the top level, a template document that is a string, a number or `true` is refused with `TemplateNotArray`, as PHP raises there; `null` and `false` are merged as `[]`, since PHP turns them into an array on the first write.
- BlockPaths.SnakeName and BlockPaths.TemplateFileName: `str_replace` makes a single pass, so the result can still hold the word (`Strings.RemoveAllSinglePass`). The contracts therefore state the left-to-right law, not that the word is gone.
- Functions that only compute have no row of their own; their properties are the contracts of the lemmas whose rows name them: `BlockIdentity.Identify`, `BlockPaths.EntityNamespace`, `BlockPaths.FormNamespace`, `BlockConfig.Properties`, `BlockConfig.Traits`, `BlockTemplates.TemplatePath`, `BlockTemplates.Load`, `BlockTemplates.LoadProperty`, `BlockTemplates.PropertyImports`, `Imports.AddUseTo`, `Imports.AddFormUseTo`, `ConfigMerge.Merge`, `OrmField.Nullable` and `BlockDefinitions.Resolve`.
- Imports.UseImports and Imports.FormUseImports: `array_unique` keeps the keys of the entries it keeps. The model returns the values only.
- BlockDefinitions.BlockDefinition.AddUse: PHP raises an error when it appends into a `use` that holds a string, a number or `true`, and turns a `false` there into a list. The model appends only to an absent, null or array `use`. `Valid` excludes the other shapes; `Create` establishes it, and every method that changes the configuration requires and ensures it.
- BlockDefinitions.BlockDefinition.Create and BlockDefinitions.BlockDefinition.GetClasses require (`WellFormedDescription`, `ClassesWellFormed`) that `use`, `form` and `form.use` are absent, null or arrays. PHP also constructs a definition whose `use` is a string or a number when no property adds an import to it, and fails only later, in `getUse`. It also constructs one whose `use` is `false`, which becomes a list on the first append. The model constructs neither.
- BlockDefinitions.BlockDefinition.AddFormUse: the same holds for `form` and `form.use`.
- BlockTemplates.LoadProperties assumes that the properties hold each key once, as every PHP array does. The association-list model does not enforce that by itself.
- BlockDefinitions.BlockDefinition.GetClasses states the following: no returned definition is the parent, and each holds the child's identity and configuration. It does not state that the definitions are newly allocated and pairwise distinct. It does not state that they share the parent's environment and naming either; `Create` states that for each one.
- PhpValues.Truthy and PhpValues.ToText have no floating-point values; PHP's float formatting is not modelled.
- The source's namespace property is typed `BundleInterface`. The model keeps the namespace as a string, as the rest of the class uses it (see Findings).
- ConfigMerge.DeepMerge merges a list index by index, as the code does: the override's elements replace the base's elements with the same index, and surplus base elements are kept. It does not replace the list whole.

## Findings

| source | as written | input that shows it | evidently intended | confidence | as-written member | corrected member |
|---|---|---|---|---|---|---|
| Maker/BlockDefinition.php:26 | the `$namespace` property is typed `BundleInterface`, and the constructor calls `setNamespace` with the bundle's namespace string, which raises a TypeError | `{Block: {namespace: AppBundle}}` with a registered `AppBundle` (lemma `BlockIdentity.BundleBindingCounterexample`) | the property holds a string, so a bundle-bound definition takes the bundle's namespace | not executed | BlockIdentity.IdentifyAsWritten | BlockIdentity.Identify |
