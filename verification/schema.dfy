/** The data both collaborators hand to the synchronisation core: values, the
    two per-instance stores, and a class as the binder sees it. */
module Schema {
  import opened Wrappers

  /** A Python value as held by either store; `Null` is Python's `None`. */
  datatype Value = Null | IntValue(i: int) | StrValue(s: string)

  /** A per-instance store keyed by attribute name: the Schematics raw-value
      store (keyed by field name) or the SQLAlchemy instance dict (keyed by
      column attribute name). */
  type Store = map<string, Value>

  /** `store.get(key)`: the stored value, or `None` when the key is absent. */
  function Get(store: Store, key: string): Value {
    if key in store then store[key] else Null
  }

  /** Schematics' own field assignment: the value it stores for a raw value,
      or the message of the conversion error it raises. */
  type Converter = (string, Value) -> Result<Value, string>

  /** The parts of a SQLAlchemy mapper the binder reads: its `column_prefix`
      and the keys of its `column_attrs`. */
  datatype Mapper = Mapper(columnPrefix: Option<string>, columnAttrs: set<string>)

  /** A model class at definition time.
      - `fieldNames`: the keys of `cls._fields`, in declaration order;
      - `mapper`: `cls.__mapper__`, `None` when the class is not mapped;
      - `convert`: Schematics' per-field coercion;
      - `defaults`: the field store Schematics' `__init__` leaves when called
        without data (default values, `None` elsewhere). */
  datatype ModelClass = ModelClass(
    fieldNames: seq<string>,
    mapper: Option<Mapper>,
    convert: Converter,
    defaults: Store)

  /** `cls._fields` is a dictionary, so no field name occurs twice. */
  predicate ValidClass(cls: ModelClass) {
    forall i, j :: 0 <= i < j < |cls.fieldNames| ==> cls.fieldNames[i] != cls.fieldNames[j]
  }

  /** One model instance: its Schematics field store and its SQLAlchemy
      instance dict. */
  datatype Instance = Instance(fields: Store, columns: Store)
}
