/** The classes and fixtures of the repository's test script. `Person` maps
    a table with columns `id` and `name`, `Company` declares the column
    attributes `_id` and `_name` itself; under the inherited prefix `'_'`
    both end up with the column attributes `_id` and `_name`, so both are
    the same `ModelClass` here. */
module Scenarios {
  import opened Wrappers
  import opened Schema
  import opened Binder
  import opened Mirror
  import opened Lifecycle
  import opened Properties

  /** A hypothetical coercion for the two fields, chosen so that a load has
      a way to fail: `id` refuses a string, everything else is stored as
      given. The repository shows no coercion of its own here. */
  function TestConvert(field: string, value: Value): Result<Value, string> {
    if field == "id" && value.StrValue? then Failure("Value is not int") else Success(value)
  }

  /** `id = IntType(default=1)`, `name = StringType()`. */
  function TestModel(): ModelClass {
    ModelClass(["id", "name"], Some(DeclarativeMapper({"_id", "_name"})), TestConvert,
      map["id" := IntValue(1), "name" := Null])
  }

  /** The links of the test classes. */
  const TestLinks: map<string, string> := map["id" := "_id", "name" := "_name"]

  /** The fields and columns the test links name. */
  lemma TestLinkNames()
    ensures TestLinks.Keys == {"id", "name"}
    ensures TestLinks.Values == {"_id", "_name"}
  {
    assert TestLinks["id"] == "_id" && TestLinks["name"] == "_name";
  }

  /** Both fields are linked, `id` to `_id` and `name` to `_name`. */
  lemma TestModelLinks()
    ensures Links(TestModel()) == TestLinks
    ensures Links(TestModel()).Values == {"_id", "_name"}
  {
    DefaultPrefixLinks(["id", "name"], {"_id", "_name"}, "id");
    DefaultPrefixLinks(["id", "name"], {"_id", "_name"}, "name");
    assert "_" + "id" == "_id";
    assert "_" + "name" == "_name";
    var links := Links(TestModel());
    forall f ensures f in links <==> f in {"id", "name"} {
      if f in links {
        assert f in ["id", "name"];
      }
    }
    assert links == map["id" := "_id", "name" := "_name"];
  }

  /** Construction of a class linked like the test classes: its instance
      dict has the two column attributes, each holding its field value. */
  lemma ConstructTwoFieldColumns(cls: ModelClass, initial: Store)
    requires Links(cls) == TestLinks
    requires "id" in initial && "name" in initial
    ensures var columns := Construct(cls, initial, map[]).columns;
      && columns.Keys == {"_id", "_name"}
      && columns["_id"] == initial["id"] && columns["_name"] == initial["name"]
  {
    TestLinkNames();
    assert Links(cls)["id"] == "_id" && Links(cls)["name"] == "_name";
  }

  /** So its columns are exactly its two field values. */
  lemma ConstructTwoFields(cls: ModelClass, initial: Store)
    requires Links(cls) == TestLinks
    requires "id" in initial && "name" in initial
    ensures Construct(cls, initial, map[]).columns == map["_id" := initial["id"], "_name" := initial["name"]]
  {
    ConstructTwoFieldColumns(cls, initial);
    StoresAgree(Construct(cls, initial, map[]).columns, map["_id" := initial["id"], "_name" := initial["name"]]);
  }

  /** `Company()`: the default `id` reaches column `_id` at construction. */
  lemma CompanyDefaultsReachColumns()
    ensures Construct(TestModel(), TestModel().defaults, map[]).columns == map["_id" := IntValue(1), "_name" := Null]
  {
    TestModelLinks();
    ConstructTwoFields(TestModel(), TestModel().defaults);
  }

  /** `fixture_person`: `Person({'name': 'Paul Eipper'})`, where Schematics
      fills `id` with its default; both values reach the columns. */
  lemma FixturePerson()
    ensures Construct(TestModel(), map["id" := IntValue(1), "name" := StrValue("Paul Eipper")], map[]).columns
      == map["_id" := IntValue(1), "_name" := StrValue("Paul Eipper")]
  {
    TestModelLinks();
    ConstructTwoFields(TestModel(), map["id" := IntValue(1), "name" := StrValue("Paul Eipper")]);
  }

  /** A write that Schematics stores unchanged, on a class linked like the
      test classes, updates one field and its column. */
  lemma WriteTwoFields(cls: ModelClass, inst: Instance, field: string, value: Value)
    requires Links(cls) == TestLinks
    requires field == "id" || field == "name"
    requires cls.convert(field, value) == Success(value)
    ensures SetField(cls, inst, field, value)
      == Success(Instance(inst.fields[field := value], inst.columns["_" + field := value]))
  {
    assert TestLinks[field] == "_" + field;
    var after := SetField(cls, inst, field, value).value;
    StoresAgree(after.columns, inst.columns["_" + field := value]);
  }

  /** Two writes in a row. */
  lemma ApplyTwoWrites(cls: ModelClass, inst: Instance, first: (string, Value), second: (string, Value))
    requires first.0 in cls.fieldNames && second.0 in cls.fieldNames
    requires SetField(cls, inst, first.0, first.1).Success?
    ensures ApplyWrites(cls, inst, [first, second])
      == SetField(cls, SetField(cls, inst, first.0, first.1).value, second.0, second.1)
  {
    var next := SetField(cls, inst, first.0, first.1).value;
    assert [first, second][1..] == [second];
    assert [second][1..] == [];
    match SetField(cls, next, second.0, second.1)
    case Success(last) =>
      assert ApplyWrites(cls, next, [second]) == ApplyWrites(cls, last, []);
    case Failure(e) =>
  }

  /** Writing both fields of an instance of a class linked like the test
      classes, with values Schematics stores unchanged, leaves both stores
      holding exactly the written values. */
  lemma {:induction false} WriteBothFields(cls: ModelClass, inst: Instance, id: Value, name: Value)
    requires Links(cls) == TestLinks
    requires cls.convert("id", id) == Success(id) && cls.convert("name", name) == Success(name)
    requires inst.fields.Keys == {"id", "name"} && inst.columns.Keys == {"_id", "_name"}
    ensures ApplyWrites(cls, inst, [("id", id), ("name", name)])
      == Success(Instance(map["id" := id, "name" := name], map["_id" := id, "_name" := name]))
  {
    WriteTwoFields(cls, inst, "id", id);
    var afterId := SetField(cls, inst, "id", id).value;
    WriteTwoFields(cls, afterId, "name", name);
    ApplyTwoWrites(cls, inst, ("id", id), ("name", name));
    var afterName := SetField(cls, afterId, "name", name).value;
    assert afterName.fields.Keys == {"id", "name"};
    assert afterName.columns.Keys == {"_id", "_name"};
    StoresAgree(afterName.fields, map["id" := id, "name" := name]);
    StoresAgree(afterName.columns, map["_id" := id, "_name" := name]);
  }

  /** `fixture_company`: `Company()`, then `c.id = 2` and `c.name = 'nKey'`;
      both columns follow the writes. */
  lemma FixtureCompany()
    ensures ApplyWrites(TestModel(), Construct(TestModel(), TestModel().defaults, map[]),
      [("id", IntValue(2)), ("name", StrValue("nKey"))])
      == Success(Instance(map["id" := IntValue(2), "name" := StrValue("nKey")],
                          map["_id" := IntValue(2), "_name" := StrValue("nKey")]))
  {
    TestModelLinks();
    CompanyDefaultsReachColumns();
    WriteBothFields(TestModel(), Construct(TestModel(), TestModel().defaults, map[]), IntValue(2), StrValue("nKey"));
  }

  /** The stored row of a test instance. */
  function TestRow(id: Value, name: Value): Store {
    map["_id" := id, "_name" := name]
  }

  /** A reference load of a test row into a class linked like the test
      classes puts the converted row values into both stores. */
  lemma LoadedTwoFieldsValues(cls: ModelClass, id: Value, name: Value, inst: Instance)
    requires Links(cls) == TestLinks
    requires cls.convert("id", id) == Success(id) && cls.convert("name", name) == Success(name)
    requires LoadedFrom(cls, TestRow(id, name), inst)
    ensures "id" in inst.fields && inst.fields["id"] == id && "name" in inst.fields && inst.fields["name"] == name
    ensures "_id" in inst.columns && inst.columns["_id"] == id && "_name" in inst.columns && inst.columns["_name"] == name
  {
    assert TestLinks["id"] == "_id" && TestLinks["name"] == "_name";
  }

  /** Its field store holds only the two fields, when the defaults hold no
      other field. */
  lemma LoadedTwoFieldsFieldKeys(cls: ModelClass, id: Value, name: Value, inst: Instance)
    requires Links(cls) == TestLinks
    requires cls.defaults.Keys <= {"id", "name"}
    requires LoadedFrom(cls, TestRow(id, name), inst)
    ensures inst.fields.Keys == {"id", "name"}
  {
    TestLinkNames();
    LoadedFromFieldKeys(cls, TestRow(id, name), inst);
  }

  /** Its instance dict holds only the two columns. */
  lemma LoadedTwoFieldsColumnKeys(cls: ModelClass, id: Value, name: Value, inst: Instance)
    requires Links(cls) == TestLinks
    requires LoadedFrom(cls, TestRow(id, name), inst)
    ensures inst.columns.Keys == {"_id", "_name"}
  {
    TestLinkNames();
    assert TestRow(id, name).Keys == {"_id", "_name"};
    LoadedFromColumnKeys(cls, TestRow(id, name), inst);
  }

  /** So the reference load of a test row gives the row's values back as the
      fields and leaves the row as it was. */
  lemma {:induction false} LoadedTwoFields(cls: ModelClass, id: Value, name: Value, inst: Instance)
    requires Links(cls) == TestLinks
    requires cls.defaults.Keys <= {"id", "name"}
    requires cls.convert("id", id) == Success(id) && cls.convert("name", name) == Success(name)
    requires LoadedFrom(cls, TestRow(id, name), inst)
    ensures inst == Instance(map["id" := id, "name" := name], TestRow(id, name))
  {
    LoadedTwoFieldsValues(cls, id, name, inst);
    LoadedTwoFieldsFieldKeys(cls, id, name, inst);
    LoadedTwoFieldsColumnKeys(cls, id, name, inst);
    TwoFieldInstance(inst, id, name);
  }

  /** An instance whose stores hold exactly the two fields and the two
      columns, with the given values, is the test instance of those values. */
  lemma TwoFieldInstance(inst: Instance, id: Value, name: Value)
    requires inst.fields.Keys == {"id", "name"} && inst.columns.Keys == {"_id", "_name"}
    requires inst.fields["id"] == id && inst.fields["name"] == name
    requires inst.columns["_id"] == id && inst.columns["_name"] == name
    ensures inst == Instance(map["id" := id, "name" := name], TestRow(id, name))
  {
    StoresAgree(inst.fields, map["id" := id, "name" := name]);
    StoresAgree(inst.columns, TestRow(id, name));
  }

  /** The whole load of a test row. */
  lemma LoadTwoFields(cls: ModelClass, id: Value, name: Value)
    requires Links(cls) == TestLinks && ValidClass(cls)
    requires cls.defaults.Keys <= {"id", "name"}
    requires cls.convert("id", id) == Success(id) && cls.convert("name", name) == Success(name)
    ensures Reconstruct(cls, TestRow(id, name)) == Success(Instance(map["id" := id, "name" := name], TestRow(id, name)))
  {
    ReconstructOutcome(cls, TestRow(id, name));
    ReconstructLoads(cls, TestRow(id, name));
    LoadedTwoFields(cls, id, name, Reconstruct(cls, TestRow(id, name)).value);
  }

  /** `test_load_data`: loading a row whose `_id` is not a string gives its
      two column values back as the fields, and leaves the row as it was. */
  lemma LoadTestRow(id: Value, name: Value)
    requires !id.StrValue?
    ensures Reconstruct(TestModel(), TestRow(id, name))
      == Success(Instance(map["id" := id, "name" := name], TestRow(id, name)))
  {
    TestModelLinks();
    LoadTwoFields(TestModel(), id, name);
  }

  /** A stored `_id` that `id` cannot convert makes the load raise the
      conversion error. */
  lemma LoadRejectsBadId()
    ensures Reconstruct(TestModel(), map["_id" := StrValue("x"), "_name" := StrValue("nKey")])
      == Failure("Value is not int")
  {
    TestModelLinks();
  }

  /** A class without a mapper links nothing, so writes never touch the
      instance dict. */
  lemma UnmappedClassIsIndependent(inst: Instance, field: string, value: Value)
    requires field == "id" || field == "name"
    requires SetField(ModelClass(["id", "name"], None, TestConvert, map[]), inst, field, value).Success?
    ensures SetField(ModelClass(["id", "name"], None, TestConvert, map[]), inst, field, value).value.columns
      == inst.columns
  {
  }
}
