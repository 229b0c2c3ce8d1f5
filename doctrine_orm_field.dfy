/** A property of a block as a Doctrine ORM field
    (Maker/Generator/DoctrineOrmField.php): its name and its configuration
    array, read by the ORM mapping template through `getNullable`,
    `getNullableString`, `getType` and `getName`. The field never changes
    after construction, so it is a value. */
module OrmField {
  import opened PhpValues

  /** `new DoctrineOrmField($name, $config)`; `getName()` is `name`. */
  datatype DoctrineOrmField = DoctrineOrmField(name: string, config: seq<Entry>)

  /** `getType()` returns `?string`: a configured array cannot be returned
      and raises a TypeError naming the key it came from. */
  datatype TypeError = NotAString(key: string)

  /** `getNullable()`: `nullable` is set and truthy. */
  predicate Nullable(f: DoctrineOrmField)
  {
    IsSet(f.config, Name("nullable")) && Truthy(Find(f.config, Name("nullable")).value)
  }

  /** `getNullableString()`: the mapping's YAML boolean. */
  function NullableString(f: DoctrineOrmField): (r: string)
    ensures r == "true" || r == "false"
  {
    if Nullable(f) then "true" else "false"
  }

  /** How the YAML reader takes the two boolean literals back. */
  function YamlBool(s: string): Option<bool>
  {
    if s == "true" then Some(true)
    else if s == "false" then Some(false)
    else None
  }

  /** A configured value as `?string` in PHP's coercive mode: scalars
      become their string form, an array is refused. */
  function AsString(key: string, v: Value): Result<string, TypeError>
  {
    if v.Arr? then Err(NotAString(key)) else Ok(ToText(v))
  }

  /** `getType()`: `orm_type ?? type ?? null`. */
  function Type(f: DoctrineOrmField): (r: Result<Option<string>, TypeError>)
    ensures IsSet(f.config, Name("orm_type")) ==>
      r == (var s :- AsString("orm_type", Find(f.config, Name("orm_type")).value); Ok(Some(s)))
    ensures !IsSet(f.config, Name("orm_type")) && IsSet(f.config, Name("type")) ==>
      r == (var s :- AsString("type", Find(f.config, Name("type")).value); Ok(Some(s)))
    ensures r == Ok(None) <==> !IsSet(f.config, Name("orm_type")) && !IsSet(f.config, Name("type"))
  {
    if IsSet(f.config, Name("orm_type")) then
      var s :- AsString("orm_type", GetOr(f.config, Name("orm_type"), Null));
      Ok(Some(s))
    else if IsSet(f.config, Name("type")) then
      var s :- AsString("type", GetOr(f.config, Name("type"), Null));
      Ok(Some(s))
    else Ok(None)
  }

  /** The string written into the mapping reads back as the field's
      nullability, and only `nullable` decides it. */
  lemma NullableRoundTrip(f: DoctrineOrmField)
    ensures YamlBool(NullableString(f)) == Some(Nullable(f))
    ensures NullableString(f) == "true" <==> Nullable(f)
    ensures !IsSet(f.config, Name("nullable")) ==> NullableString(f) == "false"
  {
  }

  /** Only the `nullable` entry decides nullability: changing any other
      entry keeps it, setting `nullable` to a value gives that value's
      truthiness, and unsetting it makes the field not nullable. */
  lemma NullableOnlyReadsNullable(f: DoctrineOrmField, k: Key, v: Value)
    ensures k != Name("nullable") ==>
      Nullable(DoctrineOrmField(f.name, Set(f.config, k, v))) == Nullable(f)
    ensures Nullable(DoctrineOrmField(f.name, Set(f.config, Name("nullable"), v))) == Truthy(v)
    ensures !Nullable(DoctrineOrmField(f.name, Unset(f.config, Name("nullable"))))
  {
    var n := Name("nullable");
    assert Find(Set(f.config, n, v), n) == Some(v);
    if k != n {
      assert Find(Set(f.config, k, v), n) == Find(f.config, n);
    }
    assert Find(Unset(f.config, n), n) == None;
  }

  /** `orm_type` wins over `type`: while `orm_type` is set, changing `type`
      does not change the type; while it is not, the type is what `type`
      holds. */
  lemma OrmTypeFirst(f: DoctrineOrmField, v: Value)
    ensures IsSet(f.config, Name("orm_type")) ==>
      Type(DoctrineOrmField(f.name, Set(f.config, Name("type"), v))) == Type(f)
    ensures !IsSet(f.config, Name("orm_type")) && v != Null ==>
      Type(DoctrineOrmField(f.name, Set(f.config, Name("type"), v)))
        == (var s :- AsString("type", v); Ok(Some(s)))
  {
    var t, o := Name("type"), Name("orm_type");
    var g := DoctrineOrmField(f.name, Set(f.config, t, v));
    assert Find(g.config, o) == Find(f.config, o);
    assert Find(g.config, t) == Some(v);
  }

  /** A text type is returned as written, whichever key holds it. */
  lemma TextTypeKept(f: DoctrineOrmField, s: string)
    ensures Find(f.config, Name("orm_type")) == Some(Text(s)) ==> Type(f) == Ok(Some(s))
    ensures !IsSet(f.config, Name("orm_type")) && Find(f.config, Name("type")) == Some(Text(s)) ==>
      Type(f) == Ok(Some(s))
  {
  }
}
