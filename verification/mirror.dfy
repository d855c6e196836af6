/** `SchemAlchemyFieldDescriptor.__set__`: a field write goes through
    Schematics' own assignment and, when the field is linked, the value read
    back from the field is copied into its column attribute. */
module Mirror {
  import opened Wrappers
  import opened Schema
  import opened Binder

  /** The invariant the core keeps: every linked field has a value, and its
      column attribute holds that same value. */
  predicate Synced(links: map<string, string>, inst: Instance) {
    forall f :: f in links ==>
      f in inst.fields && links[f] in inst.columns && inst.columns[links[f]] == inst.fields[f]
  }

  /** `setattr(instance, field, value)` on one of the class's declared fields
      (only those carry the mirroring descriptor). A conversion error
      propagates before either store changes. Otherwise the field holds the
      converted value; a linked field's column then holds that stored value
      (not the raw argument) and no other column changes; an unlinked field
      leaves the instance dict as it was. */
  function SetField(cls: ModelClass, inst: Instance, field: string, value: Value): (r: Result<Instance, string>)
    requires field in cls.fieldNames
    ensures r.Failure? <==> cls.convert(field, value).Failure?
    ensures r.Failure? ==> r.error == cls.convert(field, value).error
    ensures r.Success? ==> r.value.fields == inst.fields[field := cls.convert(field, value).value]
    ensures r.Success? && field in Links(cls) ==>
      && Links(cls)[field] in r.value.columns
      && r.value.columns[Links(cls)[field]] == r.value.fields[field]
      && r.value.columns - {Links(cls)[field]} == inst.columns - {Links(cls)[field]}
    ensures r.Success? && field !in Links(cls) ==> r.value.columns == inst.columns
  {
    match cls.convert(field, value)
    case Failure(e) => Failure(e)
    case Success(stored) =>
      var fields := inst.fields[field := stored];
      var links := Links(cls);
      if field in links then
        Success(Instance(fields, inst.columns[links[field] := fields[field]]))
      else
        Success(Instance(fields, inst.columns))
  }

  /** A successful write keeps every linked field equal to its column. */
  lemma SetFieldPreservesSync(cls: ModelClass, inst: Instance, field: string, value: Value)
    requires Synced(Links(cls), inst)
    requires field in cls.fieldNames
    requires SetField(cls, inst, field, value).Success?
    ensures Synced(Links(cls), SetField(cls, inst, field, value).value)
  {
    var links := Links(cls);
    var after := SetField(cls, inst, field, value).value;
    LinksInjective(cls);
    forall g | g in links
      ensures g in after.fields && links[g] in after.columns && after.columns[links[g]] == after.fields[g]
    {
      if g != field && field in links {
        assert links[g] != links[field];
        assert links[g] in after.columns - {links[field]};
      }
    }
  }
}
