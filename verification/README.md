# SchemAlchemy field/column synchronisation, in Dafny

SchemAlchemy lets one Python class be both a Schematics model (validated
fields kept in a raw-value store) and a SQLAlchemy declarative model (column
attributes kept in the instance dict). Its core keeps the two stores equal for
every field that has a matching column:

- **Binder** (`SchemAlchemyModelMeta.__init__`): when a class is defined, field
  `f` is linked to column attribute `(mapper.column_prefix or '') + f` exactly
  when the mapper has a column attribute of that name. A class without a mapper
  gets no links. `SchemAlchemyModel` sets the prefix `'_'`, inherited by every
  subclass that does not define its own `__mapper_args__`. A subclass's own
  `__mapper_args__` replaces that dict whole, so without a `column_prefix`
  entry its fields look up columns of their own name.
- **Mirror** (`SchemAlchemyFieldDescriptor.__set__`): a write to a declared
  field goes through Schematics' own assignment. For a linked field, the value
  read back from the field is then copied into the column.
- **Construction** (`SchemAlchemyModel.__init__`): after Schematics' own
  initialisation, defaults included, every linked field value is pushed into
  its column.
- **Load** (`_reconstructor`): when SQLAlchemy loads a row, the field store is
  re-initialised by Schematics. Then every linked field is assigned its
  column's stored value (`None` if absent) through the mirrored setter, in
  `_fields` order.

The model is functional. A class is a `Schema.ModelClass`: the field names in
`_fields` order, an optional `Mapper` (column prefix and column-attribute
names), Schematics' coercion as an abstract function `convert` that returns
the stored value or a conversion error, and the field store Schematics'
no-argument `__init__` leaves (`defaults`). An instance is a pair of
`map<string, Value>` stores. Python's `None` is `Value.Null` and `dict.get` is
`Schema.Get`. The invariant is `Mirror.Synced`: every linked field has a value
and its column holds that same value. Construction establishes it
(`Lifecycle.Construct`), every successful write preserves it
(`Mirror.SetFieldPreservesSync`, `Properties.WritesPreserveSync`), and every
successful load establishes it (`Lifecycle.ReconstructSynced`). The load also
has a reference description, `Lifecycle.LoadedFrom`, that does not depend on
assignment order. `Lifecycle.ReconstructLoads` proves the sequential load
meets it.

Files: `wrappers.dfy` (Option/Result), `schema.dfy` (values, stores, classes,
instances), `binder.dfy`, `mirror.dfy`, `lifecycle.dfy` (the
`SchemAlchemyModel` methods), `properties.dfy` (properties spanning several
operations), `scenarios.dfy` (the classes and fixtures of `test.py`).

Three facts about the code shape the model:

- Prefix concatenation is the only naming rule. `Binder.LinksInjective`
  proves it never links two fields to one column.
- A mapper without a `column_prefix` still links: the code uses `''` and
  links `f` to a column attribute named `f` (schemalchemy.py:70). Only a
  class without `__mapper__` gets no links.
- A load first re-runs Schematics' `__init__`, which re-applies the
  defaults, and only then assigns the linked fields from their columns
  (schemalchemy.py:94-95).

## Model

| member | source | states |
|---|---|---|
| Binder.Bind | schemalchemy.py:59-76 | Field `f` is linked iff it is a declared field, the class has a mapper, and `(prefix or '') + f` is a column attribute. Its link is exactly that name. Without a mapper there are no links. Unmatched fields are skipped without error. |
| Binder.LinksInjective | schemalchemy.py:69-74 | No two fields of a class are linked to the same column, so a link is never ambiguous. |
| Binder.DefaultPrefixLinks | schemalchemy.py:86 | Under the inherited `column_prefix` `'_'`, field `f` is linked iff `"_" + f` is a column attribute, and then to that name. |
| Mirror.SetField | schemalchemy.py:39-47 | For a declared field: a write fails iff Schematics' conversion fails, with the same error, and then changes nothing. On success the field holds the converted value. For a linked field, the column holds the value read back from the field, not the raw argument, and no other column changes. For an unlinked field, the instance dict is unchanged. |
| Mirror.SetFieldPreservesSync | schemalchemy.py:44-47 | A successful write keeps every linked field equal to its column. |
| Lifecycle.LinkedPairs | schemalchemy.py:97-104 | Every yielded pair is a declared field with its link. Every linked declared field is yielded. Unlinked fields are skipped. |
| Lifecycle.LinkedPairsAppend | schemalchemy.py:99-104 | The pairs come in `_fields` order: the pairs of two runs of field names, concatenated, are the pairs of the first run followed by those of the second. |
| Lifecycle.LinkedPairsDistinct | schemalchemy.py:99-104 | With distinct field names, no field and no column occurs in two yielded pairs. |
| Lifecycle.ColumnFieldsCoverLinks | schemalchemy.py:97-104 | The fields of a class's pairs are exactly its linked fields, and their columns are exactly its linked columns. |
| Lifecycle.PushColumns | schemalchemy.py:111-114 | Every yielded column ends up holding its field's value. The columns present afterwards are those present before plus the yielded ones. Every other column is unchanged. |
| Lifecycle.Construct | schemalchemy.py:88-90 | After construction every linked column equals its field, defaults included. The field store is what Schematics initialised. Unlinked columns are unchanged. |
| Lifecycle.AssignFromColumns | schemalchemy.py:106-109 | Models `_set_mapped_field_values`: each pair in order is assigned its column's stored value (`None` if absent) through the mirrored setter, and the first conversion error aborts. It carries only the precondition that the pairs are links of the class; its properties are the five `AssignFromColumns` lemmas below. |
| Lifecycle.AssignFromColumnsSucceeds | schemalchemy.py:106-109 | Assigning the pairs from the instance dict succeeds iff every pair's stored value (`None` if absent) converts. |
| Lifecycle.AssignFromColumnsFirstError | schemalchemy.py:106-109 | A failed assignment raises the error of the first pair, in order, whose stored value does not convert. |
| Lifecycle.AssignFromColumnsValues | schemalchemy.py:106-109 | When every stored value converts, each pair's field holds its converted column value and the column holds that same value. |
| Lifecycle.AssignFromColumnsKeepsOtherFields | schemalchemy.py:106-109 | A successful assignment changes no field outside the pairs. |
| Lifecycle.AssignFromColumnsKeepsOtherColumns | schemalchemy.py:106-109 | A successful assignment changes no column outside the pairs. |
| Lifecycle.Reconstruct | schemalchemy.py:92-95 | Models `_reconstructor`: the field store is reset to Schematics' defaults, then the class's pairs are assigned from the row. Its properties are `ReconstructOutcome`, `ReconstructSynced`, `ReconstructKeepsUnlinked` and `ReconstructLoads`. |
| Lifecycle.ReconstructOutcome | schemalchemy.py:92-95 | A load succeeds iff every linked column's stored value converts. Otherwise it raises the error of the first linked field in `_fields` order whose value does not. |
| Lifecycle.ReconstructSynced | schemalchemy.py:92-95 | After a successful load each linked field holds the conversion of its column's prior value (`None` if absent), and field and column agree. |
| Lifecycle.ReconstructKeepsUnlinked | schemalchemy.py:93-94 | After a successful load, unlinked fields keep the values Schematics' re-initialisation gave them, and unlinked columns are untouched. |
| Lifecycle.ReconstructLoads | schemalchemy.py:92-95 | The sequential load produces exactly the order-independent reference result `LoadedFrom`. |
| Lifecycle.LoadedFromFieldKeys | schemalchemy.py:93-94 | After a load the field store holds the re-initialised fields plus the linked fields. |
| Lifecycle.LoadedFromColumnKeys | schemalchemy.py:106-109 | After a load the instance dict holds the row's columns plus the linked columns. |
| Properties.WritesPreserveSync | schemalchemy.py:39-47 | Any run of successful writes to declared fields keeps every linked field equal to its column. |
| Properties.ConstructThenWritesSynced | schemalchemy.py:88-90 | A constructed instance stays synchronised through any run of successful writes. |
| Properties.LoadedFromAgree | schemalchemy.py:106-109 | Loads from two rows that agree on the linked columns give the same field store. |
| Properties.ReloadDependsOnlyOnLinkedColumns | schemalchemy.py:92-95 | Two rows that agree on the linked columns load to the same outcome and the same field store. So loading the same row twice gives equal field stores. |
| Properties.LoadedFromStable | schemalchemy.py:106-109 | Loading the instance dict that a load left behind gives back the same instance, when conversion stores its own output unchanged. |
| Properties.ReloadIsStable | schemalchemy.py:92-95 | Reloading from the row a successful load left behind returns the identical instance, when conversion stores its own output unchanged. |
| Properties.LoadedFromSyncedInstance | schemalchemy.py:106-109 | Loading the instance dict of a synchronised instance returns that dict unchanged and its linked field values, when conversion accepts those values unchanged. |
| Properties.ConstructReloadRoundTrip | test.py:68-85 | Construct, then load from the resulting instance dict: the load succeeds, every linked field gets its constructed value back, and the instance dict is exactly as construction left it. |
| Scenarios.TestModelLinks | test.py:10-42 | The test classes link `id` to `_id` and `name` to `_name`. |
| Scenarios.CompanyDefaultsReachColumns | test.py:60-61 | `Company()` gives `_id == 1` through the field default, and `_name` is `None`. |
| Scenarios.FixturePerson | test.py:55-57 | `Person({'name': 'Paul Eipper'})` gives columns `_id == 1` and `_name == 'Paul Eipper'`. |
| Scenarios.FixtureCompany | test.py:60-65 | `Company()`, `c.id = 2`, `c.name = 'nKey'` leaves fields and columns both holding `2` and `'nKey'`. |
| Scenarios.LoadTestRow | test.py:81-85 | Loading a row `_id`, `_name` (with `_id` not a string) gives those values back as the fields `id`, `name`, and leaves the row as it was. |
| Scenarios.LoadRejectsBadId | schemalchemy.py:106-109 | With a hypothetical converter that refuses a string for `id`, a stored string `_id` makes the load raise that conversion error. |
| Scenarios.UnmappedClassIsIndependent | schemalchemy.py:66-67 | For a class without a mapper, writes to its declared fields never touch the instance dict. |

## Left out

- Registration of the `orm.synonym` property for each linked field (schemalchemy.py:75-76). This is SQLAlchemy mapper machinery. The model records only the link itself.
- The calls to the base metaclasses' `__init__` and the metaclass composition (schemalchemy.py:50-57, 65). The model takes their result as given: the field list and the mapper.
- Every declared field is assumed to have its own descriptor in the class dict, as Schematics' metaclass creates one per field. A missing descriptor would raise at schemalchemy.py:74; that case is not modelled.
- Monkeypatching of the Schematics module (schemalchemy.py:119-121) and the `declarative_base` call (schemalchemy.py:126-129). These are runtime plumbing.
- Schematics coercion, validation and serialisation internals. Coercion is the abstract `convert` function. Schematics' `__init__` is the `defaults` store for the no-argument call, and a given store for construction with data. Serialisation is compared as field-store equality.
- SQLAlchemy's instance-state tracking, sessions, flush, commit and queries. The instance dict is a plain map, and a row round trip is the identity on the instance dict.
- The sqlite engine, file deletion and session handling in test.py (test.py:45-52), and setup.py packaging.
- Lifecycle.Reconstruct: carries no contract of its own. Its properties are the lemmas `ReconstructOutcome`, `ReconstructSynced`, `ReconstructKeepsUnlinked` and `ReconstructLoads`, which need distinct field names. `_fields` is a dictionary, so that holds for every real class.
- Lifecycle.AssignFromColumns: carries no postcondition of its own. Its properties are the `AssignFromColumns` lemmas.
- Lifecycle.Reconstruct: on a conversion error the model returns only the error and discards the partly updated instance. The same holds for `Lifecycle.AssignFromColumns` and `Properties.ApplyWrites`. In the code the loop at schemalchemy.py:107-109 has already run `setattr` for the earlier pairs, so they stay assigned and mirrored. The linked fields after the failing one keep their re-initialised values while their columns still hold the row, so that instance is not synchronised. Likewise, the writes of a run that come before a failing write stay in effect. The model states nothing about the instance left behind by a raise.
- Lifecycle.Construct: requires the Schematics-initialised store to hold every linked field. Reading a linked field it lacks would raise in `getattr` (schemalchemy.py:114).
- Mirror.SetField: models writes to declared fields only, since only they carry the mirroring descriptor. An attribute write under any other name, such as a direct column write `c._id = 5`, bypasses the descriptor. It is not modelled, and it can leave a field and its column unequal, so `Properties.WritesPreserveSync` covers only runs of declared-field writes.
- Properties.ReloadDependsOnlyOnLinkedColumns: assumes Schematics' no-argument `__init__` is deterministic, because `defaults` is one fixed store. A field whose default is a callable that produces a fresh value would differ between two loads of the same row. `Lifecycle.ReconstructKeepsUnlinked` rests on the same assumption.
- Properties.ReloadIsStable: assumes conversion returns its own output unchanged. A non-idempotent coercion could change a value on each reload.
- Properties.ConstructReloadRoundTrip: assumes conversion accepts the constructed values unchanged. Server-computed columns (such as an autoincrement key) and database type coercion are not modelled.
- Scenarios.LoadRejectsBadId: uses `TestConvert`, a hypothetical converter that refuses a string for `id` and stores every other value as given. It is not the behaviour of the `IntType`/`StringType` fields of test.py, whose coercion is not modelled. It shows only how a conversion error reaches the load.
