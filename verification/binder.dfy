/** `SchemAlchemyModelMeta.__init__`: the class-definition-time pass that links
    each Schematics field to the mapped column attribute of the same name
    under the mapper's column prefix. A link is recorded by giving the field's
    descriptor a `column_name`; here the links of a class form a map from
    field name to column attribute name. */
module Binder {
  import opened Wrappers
  import opened Schema

  /** `__mapper_args__` of `SchemAlchemyModel`: the column prefix `'_'`,
      inherited by every subclass that does not define its own
      `__mapper_args__` (a subclass's own dict replaces this one whole). */
  const DefaultPrefix: Option<string> := Some("_")

  /** The mapper of a declarative subclass that keeps the inherited mapper
      arguments, given the keys of its column attributes. */
  function DeclarativeMapper(columnAttrs: set<string>): Mapper {
    Mapper(DefaultPrefix, columnAttrs)
  }

  /** The column attribute a field is looked up under:
      `(mapper.column_prefix or '') + field_name`. */
  function ColumnName(prefix: Option<string>, field: string): string {
    prefix.GetOr("") + field
  }

  /** The links the metaclass records, one field at a time in `_fields` order.
      A class without a mapper gets none; a field whose column name is not a
      column attribute is skipped without error. */
  function Bind(fieldNames: seq<string>, mapper: Option<Mapper>): (links: map<string, string>)
    ensures mapper.None? ==> links == map[]
    ensures forall f :: f in links <==>
      f in fieldNames && mapper.Some? && ColumnName(mapper.value.columnPrefix, f) in mapper.value.columnAttrs
    ensures mapper.Some? ==> forall f :: f in links ==> links[f] == ColumnName(mapper.value.columnPrefix, f)
  {
    if mapper.None? || |fieldNames| == 0 then map[]
    else
      var rest := Bind(fieldNames[1..], mapper);
      var column := ColumnName(mapper.value.columnPrefix, fieldNames[0]);
      if column in mapper.value.columnAttrs then rest[fieldNames[0] := column] else rest
  }

  /** The links of a class: what its descriptors carry after definition. */
  function Links(cls: ModelClass): map<string, string> {
    Bind(cls.fieldNames, cls.mapper)
  }

  lemma PrefixCancels(p: string, a: string, b: string)
    requires p + a == p + b
    ensures a == b
  {
    assert a == (p + a)[|p|..];
    assert b == (p + b)[|p|..];
  }

  /** Two fields never share a column: the prefix rule is injective, so the
      binder cannot produce an ambiguous link. */
  lemma LinksInjective(cls: ModelClass)
    ensures forall f, g :: f in Links(cls) && g in Links(cls) && Links(cls)[f] == Links(cls)[g] ==> f == g
  {
    forall f, g | f in Links(cls) && g in Links(cls) && Links(cls)[f] == Links(cls)[g]
      ensures f == g
    {
      PrefixCancels(cls.mapper.value.columnPrefix.GetOr(""), f, g);
    }
  }

  /** Under the inherited prefix, field `f` is linked exactly when `"_" + f`
      is a column attribute, and then to that attribute. */
  lemma DefaultPrefixLinks(fieldNames: seq<string>, columnAttrs: set<string>, f: string)
    ensures f in Bind(fieldNames, Some(DeclarativeMapper(columnAttrs))) <==>
      f in fieldNames && "_" + f in columnAttrs
    ensures f in Bind(fieldNames, Some(DeclarativeMapper(columnAttrs))) ==>
      Bind(fieldNames, Some(DeclarativeMapper(columnAttrs)))[f] == "_" + f
  {
  }
}
