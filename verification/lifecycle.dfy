/** `SchemAlchemyModel`: the instance-side half of the synchronisation. After
    ordinary construction every linked field value is pushed into its column;
    when SQLAlchemy loads an instance from a row, the field store is
    re-initialised and every linked column value is assigned back through the
    mirrored setter. */
module Lifecycle {
  import opened Wrappers
  import opened Schema
  import opened Binder
  import opened Mirror

  /** One `(field_name, column_name)` pair yielded by `_iter_column_fields`. */
  datatype Link = Link(field: string, column: string)

  function FieldSet(pairs: seq<Link>): set<string> {
    set i | 0 <= i < |pairs| :: pairs[i].field
  }

  function ColumnSet(pairs: seq<Link>): set<string> {
    set i | 0 <= i < |pairs| :: pairs[i].column
  }

  /** Every pair is a link of the class. */
  predicate PairsAreLinks(links: map<string, string>, pairs: seq<Link>) {
    forall i :: 0 <= i < |pairs| ==> pairs[i].field in links && links[pairs[i].field] == pairs[i].column
  }

  /** No field and no column occurs in two pairs. */
  predicate PairsDistinct(pairs: seq<Link>) {
    forall i, j :: 0 <= i < j < |pairs| ==>
      pairs[i].field != pairs[j].field && pairs[i].column != pairs[j].column
  }

  /** The pairs `_iter_column_fields` yields for the given field names: the
      linked ones, each with its column, skipping unlinked fields. */
  function LinkedPairs(fieldNames: seq<string>, links: map<string, string>): (pairs: seq<Link>)
    ensures |pairs| <= |fieldNames|
    ensures forall i :: 0 <= i < |pairs| ==> pairs[i].field in fieldNames
    ensures PairsAreLinks(links, pairs)
    ensures forall f :: f in fieldNames && f in links ==> Link(f, links[f]) in pairs
  {
    if |fieldNames| == 0 then []
    else
      var rest := LinkedPairs(fieldNames[1..], links);
      if fieldNames[0] in links then [Link(fieldNames[0], links[fieldNames[0]])] + rest else rest
  }

  /** `_iter_column_fields` of an instance of `cls`. */
  function ColumnFields(cls: ModelClass): seq<Link> {
    LinkedPairs(cls.fieldNames, Links(cls))
  }

  /** The pairs come in `_fields` order: iterating over two runs of field
      names one after the other yields the pairs of the first run, then those
      of the second. */
  lemma {:induction false} LinkedPairsAppend(a: seq<string>, b: seq<string>, links: map<string, string>)
    ensures LinkedPairs(a + b, links) == LinkedPairs(a, links) + LinkedPairs(b, links)
  {
    if |a| == 0 {
      assert a + b == b;
    } else {
      assert (a + b)[1..] == a[1..] + b;
      LinkedPairsAppend(a[1..], b, links);
    }
  }

  /** Distinct field names yield pairs with distinct fields; the prefix rule
      then makes their columns distinct too. */
  lemma {:induction false} LinkedPairsDistinct(fieldNames: seq<string>, links: map<string, string>)
    requires forall i, j :: 0 <= i < j < |fieldNames| ==> fieldNames[i] != fieldNames[j]
    requires forall f, g :: f in links && g in links && links[f] == links[g] ==> f == g
    ensures PairsDistinct(LinkedPairs(fieldNames, links))
  {
    if |fieldNames| > 0 {
      LinkedPairsDistinct(fieldNames[1..], links);
      var rest := LinkedPairs(fieldNames[1..], links);
      forall i | 0 <= i < |rest|
        ensures rest[i].field != fieldNames[0]
      {
        var k :| 0 <= k < |fieldNames[1..]| && fieldNames[1..][k] == rest[i].field;
        assert fieldNames[k + 1] == rest[i].field;
      }
    }
  }

  /** The pairs of a class cover exactly its links. */
  lemma ColumnFieldsCoverLinks(cls: ModelClass)
    ensures FieldSet(ColumnFields(cls)) == Links(cls).Keys
    ensures ColumnSet(ColumnFields(cls)) == Links(cls).Values
  {
    var pairs := ColumnFields(cls);
    var links := Links(cls);
    forall f | f in links ensures f in FieldSet(pairs) && links[f] in ColumnSet(pairs) {
      var i :| 0 <= i < |pairs| && pairs[i] == Link(f, links[f]);
    }
    forall c | c in links.Values ensures c in ColumnSet(pairs) {
      var f :| f in links && links[f] == c;
    }
  }

  /** The pairs of a class with distinct field names repeat no field and no
      column. */
  lemma ColumnFieldsDistinct(cls: ModelClass)
    requires ValidClass(cls)
    ensures PairsDistinct(ColumnFields(cls))
  {
    LinksInjective(cls);
    LinkedPairsDistinct(cls.fieldNames, Links(cls));
  }

  /** Two pairs that name the same column name the same field. */
  predicate ColumnsDetermineFields(pairs: seq<Link>) {
    forall i, j :: 0 <= i < |pairs| && 0 <= j < |pairs| && pairs[i].column == pairs[j].column ==>
      pairs[i].field == pairs[j].field
  }

  lemma LinksDetermineFields(cls: ModelClass, pairs: seq<Link>)
    requires PairsAreLinks(Links(cls), pairs)
    ensures ColumnsDetermineFields(pairs)
  {
    LinksInjective(cls);
  }

  /** `_set_mapped_column_values`: copy each pair's field value into its
      column, in order. Every named column ends up holding its field's value;
      every other column is left as it was. */
  function PushColumns(pairs: seq<Link>, fields: Store, columns: Store): (r: Store)
    requires forall i :: 0 <= i < |pairs| ==> pairs[i].field in fields
    requires ColumnsDetermineFields(pairs)
    ensures forall i :: 0 <= i < |pairs| ==> pairs[i].column in r && r[pairs[i].column] == fields[pairs[i].field]
    ensures forall c :: c in r <==> c in columns || c in ColumnSet(pairs)
    ensures forall c :: c in columns && c !in ColumnSet(pairs) ==> r[c] == columns[c]
  {
    if |pairs| == 0 then columns
    else
      assert ColumnSet(pairs) == {pairs[0].column} + ColumnSet(pairs[1..]);
      assert ColumnsDetermineFields(pairs[1..]);
      var first := columns[pairs[0].column := fields[pairs[0].field]];
      var r := PushColumns(pairs[1..], fields, first);
      assert pairs[0].column in r && r[pairs[0].column] == fields[pairs[0].field] by {
        if pairs[0].column in ColumnSet(pairs[1..]) {
          var j :| 0 <= j < |pairs[1..]| && pairs[1..][j].column == pairs[0].column;
          assert pairs[j + 1].column == pairs[0].column;
        }
      }
      r
  }

  /** `SchemAlchemyModel.__init__`: Schematics initialisation leaves the field
      store `initial` (defaults included), which must hold every linked field
      since each is read back; then every linked field is pushed into the
      instance dict `columns`. Afterwards every linked field equals its
      column, the field store is untouched and unlinked columns are
      unchanged. */
  function Construct(cls: ModelClass, initial: Store, columns: Store): (inst: Instance)
    requires forall f :: f in Links(cls) ==> f in initial
    ensures inst.fields == initial
    ensures Synced(Links(cls), inst)
    ensures forall c :: c in inst.columns <==> c in columns || c in Links(cls).Values
    ensures forall c :: c in columns && c !in Links(cls).Values ==> inst.columns[c] == columns[c]
  {
    var pairs := ColumnFields(cls);
    LinksDetermineFields(cls, pairs);
    ColumnFieldsCoverLinks(cls);
    var inst := Instance(initial, PushColumns(pairs, initial, columns));
    assert Synced(Links(cls), inst) by {
      forall f | f in Links(cls)
        ensures Links(cls)[f] in inst.columns && inst.columns[Links(cls)[f]] == inst.fields[f]
      {
        assert Link(f, Links(cls)[f]) in pairs;
      }
    }
    inst
  }

  /** `_set_mapped_field_values`: for each pair in order, read the column
      (`None` when absent) and assign it to the field through the mirrored
      setter; the first conversion error aborts the load. The pairs are
      links of the class, as `_iter_column_fields` yields them. Its outcome
      and the stores it leaves are the `AssignFromColumns` lemmas below. */
  function AssignFromColumns(cls: ModelClass, pairs: seq<Link>, inst: Instance): Result<Instance, string>
    requires PairsAreLinks(Links(cls), pairs)
  {
    if |pairs| == 0 then Success(inst)
    else
      assert PairsAreLinks(Links(cls), pairs[1..]);
      match SetField(cls, inst, pairs[0].field, Get(inst.columns, pairs[0].column))
      case Failure(e) => Failure(e)
      case Success(next) => AssignFromColumns(cls, pairs[1..], next)
  }

  /** What a load assigns to the field of pair `p`: Schematics' conversion of
      the value stored in its column, `None` when the column is absent. */
  function Loaded(cls: ModelClass, columns: Store, p: Link): Result<Value, string> {
    cls.convert(p.field, Get(columns, p.column))
  }

  /** The first assignment of a load leaves the columns of the later pairs
      as they were, since no two pairs share a column. */
  lemma FirstAssignKeepsLaterColumns(cls: ModelClass, pairs: seq<Link>, inst: Instance, next: Instance)
    requires |pairs| > 0
    requires PairsAreLinks(Links(cls), pairs)
    requires PairsDistinct(pairs)
    requires SetField(cls, inst, pairs[0].field, Get(inst.columns, pairs[0].column)) == Success(next)
    ensures forall i :: 1 <= i < |pairs| ==> Loaded(cls, next.columns, pairs[i]) == Loaded(cls, inst.columns, pairs[i])
  {
    var c := pairs[0].column;
    forall i | 1 <= i < |pairs|
      ensures Loaded(cls, next.columns, pairs[i]) == Loaded(cls, inst.columns, pairs[i])
    {
      assert pairs[i].column != c;
      assert pairs[i].column in next.columns - {c} <==> pairs[i].column in inst.columns - {c};
    }
  }

  /** Assigning a run of distinct linked pairs from the instance dict
      succeeds exactly when every pair's stored value converts. */
  lemma {:induction false} AssignFromColumnsSucceeds(cls: ModelClass, pairs: seq<Link>, inst: Instance)
    requires PairsAreLinks(Links(cls), pairs)
    requires PairsDistinct(pairs)
    ensures AssignFromColumns(cls, pairs, inst).Success? <==>
      forall i :: 0 <= i < |pairs| ==> Loaded(cls, inst.columns, pairs[i]).Success?
  {
    if |pairs| > 0 {
      var step := SetField(cls, inst, pairs[0].field, Get(inst.columns, pairs[0].column));
      if step.Success? {
        var rest := pairs[1..];
        FirstAssignKeepsLaterColumns(cls, pairs, inst, step.value);
        AssignFromColumnsSucceeds(cls, rest, step.value);
        forall i | 1 <= i < |pairs| ensures Loaded(cls, step.value.columns, rest[i - 1]) == Loaded(cls, inst.columns, pairs[i]) {
          assert pairs[i] == rest[i - 1];
        }
        if AssignFromColumns(cls, pairs, inst).Success? {
          forall i | 0 <= i < |pairs| ensures Loaded(cls, inst.columns, pairs[i]).Success? {
            if i > 0 { assert Loaded(cls, step.value.columns, rest[i - 1]).Success?; }
          }
        }
      }
    }
  }

  /** When it fails, it fails with the error of the first pair, in order,
      whose stored value does not convert. */
  lemma {:induction false} AssignFromColumnsFirstError(cls: ModelClass, pairs: seq<Link>, inst: Instance)
    requires PairsAreLinks(Links(cls), pairs)
    requires PairsDistinct(pairs)
    requires AssignFromColumns(cls, pairs, inst).Failure?
    ensures exists k :: (0 <= k < |pairs| && Loaded(cls, inst.columns, pairs[k]) == Failure(AssignFromColumns(cls, pairs, inst).error)
      && forall i :: 0 <= i < k ==> Loaded(cls, inst.columns, pairs[i]).Success?)
  {
    var step := SetField(cls, inst, pairs[0].field, Get(inst.columns, pairs[0].column));
    if step.Success? {
      var rest := pairs[1..];
      var error := AssignFromColumns(cls, pairs, inst).error;
      FirstAssignKeepsLaterColumns(cls, pairs, inst, step.value);
      AssignFromColumnsFirstError(cls, rest, step.value);
      var k :| 0 <= k < |rest| && Loaded(cls, step.value.columns, rest[k]) == Failure(error)
        && forall i :: 0 <= i < k ==> Loaded(cls, step.value.columns, rest[i]).Success?;
      assert pairs[k + 1] == rest[k];
      forall i | 0 <= i < k + 1 ensures Loaded(cls, inst.columns, pairs[i]).Success? {
        if i > 0 { assert pairs[i] == rest[i - 1]; }
      }
    } else {
      assert Loaded(cls, inst.columns, pairs[0]) == Failure(AssignFromColumns(cls, pairs, inst).error);
    }
  }

  /** The first assignment of a load updates exactly that pair's field and
      column, both to the converted stored value. */
  lemma FirstAssignUpdates(cls: ModelClass, pairs: seq<Link>, inst: Instance)
    requires |pairs| > 0
    requires PairsAreLinks(Links(cls), pairs)
    requires Loaded(cls, inst.columns, pairs[0]).Success?
    ensures var w := Loaded(cls, inst.columns, pairs[0]).value;
      SetField(cls, inst, pairs[0].field, Get(inst.columns, pairs[0].column))
        == Success(Instance(inst.fields[pairs[0].field := w], inst.columns[pairs[0].column := w]))
  {
  }

  /** A successful assignment of pairs changes no field outside them. */
  lemma {:induction false} AssignFromColumnsKeepsOtherFields(cls: ModelClass, pairs: seq<Link>, inst: Instance, f: string)
    requires PairsAreLinks(Links(cls), pairs)
    requires AssignFromColumns(cls, pairs, inst).Success?
    requires forall i :: 0 <= i < |pairs| ==> pairs[i].field != f
    ensures Get(AssignFromColumns(cls, pairs, inst).value.fields, f) == Get(inst.fields, f)
    ensures f in AssignFromColumns(cls, pairs, inst).value.fields <==> f in inst.fields
  {
    if |pairs| > 0 {
      var next := SetField(cls, inst, pairs[0].field, Get(inst.columns, pairs[0].column)).value;
      AssignFromColumnsKeepsOtherFields(cls, pairs[1..], next, f);
    }
  }

  /** A successful assignment of linked pairs changes no column outside them. */
  lemma {:induction false} AssignFromColumnsKeepsOtherColumns(cls: ModelClass, pairs: seq<Link>, inst: Instance, c: string)
    requires PairsAreLinks(Links(cls), pairs)
    requires AssignFromColumns(cls, pairs, inst).Success?
    requires forall i :: 0 <= i < |pairs| ==> pairs[i].column != c
    ensures Get(AssignFromColumns(cls, pairs, inst).value.columns, c) == Get(inst.columns, c)
    ensures c in AssignFromColumns(cls, pairs, inst).value.columns <==> c in inst.columns
  {
    if |pairs| > 0 {
      var next := SetField(cls, inst, pairs[0].field, Get(inst.columns, pairs[0].column)).value;
      assert c in next.columns - {pairs[0].column} <==> c in inst.columns - {pairs[0].column};
      assert PairsAreLinks(Links(cls), pairs[1..]);
      AssignFromColumnsKeepsOtherColumns(cls, pairs[1..], next, c);
    }
  }

  /** When every pair's stored value converts, assigning distinct linked
      pairs succeeds and leaves each pair's field holding its converted
      column value and its column holding that same value. */
  lemma {:induction false} AssignFromColumnsValues(cls: ModelClass, pairs: seq<Link>, inst: Instance)
    requires PairsAreLinks(Links(cls), pairs)
    requires PairsDistinct(pairs)
    requires forall i :: 0 <= i < |pairs| ==> Loaded(cls, inst.columns, pairs[i]).Success?
    ensures AssignFromColumns(cls, pairs, inst).Success?
    ensures var after := AssignFromColumns(cls, pairs, inst).value;
      forall i :: 0 <= i < |pairs| ==>
        && pairs[i].field in after.fields
        && after.fields[pairs[i].field] == Loaded(cls, inst.columns, pairs[i]).value
        && pairs[i].column in after.columns
        && after.columns[pairs[i].column] == after.fields[pairs[i].field]
  {
    if |pairs| > 0 {
      var p := pairs[0];
      var w := Loaded(cls, inst.columns, p).value;
      FirstAssignUpdates(cls, pairs, inst);
      var next := Instance(inst.fields[p.field := w], inst.columns[p.column := w]);
      var rest := pairs[1..];
      FirstAssignKeepsLaterColumns(cls, pairs, inst, next);
      forall i | 0 <= i < |rest| ensures Loaded(cls, next.columns, rest[i]).Success? {
        assert rest[i] == pairs[i + 1];
      }
      assert PairsAreLinks(Links(cls), rest);
      assert PairsDistinct(rest);
      AssignFromColumnsValues(cls, rest, next);
      assert AssignFromColumns(cls, pairs, inst) == AssignFromColumns(cls, rest, next);
      var after := AssignFromColumns(cls, rest, next).value;
      AssignFromColumnsKeepsOtherFields(cls, rest, next, p.field);
      AssignFromColumnsKeepsOtherColumns(cls, rest, next, p.column);
      forall i | 1 <= i < |pairs|
        ensures after.fields[pairs[i].field] == Loaded(cls, inst.columns, pairs[i]).value
      {
        assert pairs[i] == rest[i - 1];
      }
    }
  }

  /** `_reconstructor`, run when SQLAlchemy loads an instance whose instance
      dict already holds the row's `columns`: Schematics' `__init__` resets
      the field store to its defaults, then every linked field is assigned its
      column's value (`None` if absent) through the mirrored setter, in
      `_fields` order. Its properties are the `Reconstruct` lemmas below. */
  function Reconstruct(cls: ModelClass, columns: Store): Result<Instance, string> {
    AssignFromColumns(cls, ColumnFields(cls), Instance(cls.defaults, columns))
  }

  /** A load succeeds exactly when every linked stored value converts, and
      otherwise raises the error of the first linked field, in `_fields`
      order, whose value does not. */
  lemma ReconstructOutcome(cls: ModelClass, columns: Store)
    requires ValidClass(cls)
    ensures Reconstruct(cls, columns).Success? <==>
      forall f :: f in Links(cls) ==> cls.convert(f, Get(columns, Links(cls)[f])).Success?
    ensures Reconstruct(cls, columns).Failure? ==> exists k :: (0 <= k < |ColumnFields(cls)|
      && Loaded(cls, columns, ColumnFields(cls)[k]) == Failure(Reconstruct(cls, columns).error)
      && forall i :: 0 <= i < k ==> Loaded(cls, columns, ColumnFields(cls)[i]).Success?)
  {
    var pairs := ColumnFields(cls);
    ColumnFieldsDistinct(cls);
    AssignFromColumnsSucceeds(cls, pairs, Instance(cls.defaults, columns));
    if Reconstruct(cls, columns).Failure? {
      AssignFromColumnsFirstError(cls, pairs, Instance(cls.defaults, columns));
    }
    forall f | f in Links(cls) ensures Link(f, Links(cls)[f]) in pairs { }
  }

  /** After a successful load each linked field holds the conversion of its
      column's prior value, and its column holds that same value. */
  lemma ReconstructSynced(cls: ModelClass, columns: Store)
    requires ValidClass(cls)
    requires Reconstruct(cls, columns).Success?
    ensures Synced(Links(cls), Reconstruct(cls, columns).value)
    ensures forall f :: f in Links(cls) ==>
      cls.convert(f, Get(columns, Links(cls)[f])) == Success(Reconstruct(cls, columns).value.fields[f])
  {
    var pairs := ColumnFields(cls);
    var start := Instance(cls.defaults, columns);
    ColumnFieldsDistinct(cls);
    AssignFromColumnsSucceeds(cls, pairs, start);
    AssignFromColumnsValues(cls, pairs, start);
    var after := Reconstruct(cls, columns).value;
    forall f | f in Links(cls)
      ensures f in after.fields && Links(cls)[f] in after.columns
      ensures after.fields[f] == cls.convert(f, Get(columns, Links(cls)[f])).value
      ensures after.columns[Links(cls)[f]] == after.fields[f]
    {
      var i :| 0 <= i < |pairs| && pairs[i] == Link(f, Links(cls)[f]);
    }
  }

  /** A successful load leaves unlinked fields at their freshly initialised
      values and unlinked columns untouched. */
  lemma ReconstructKeepsUnlinked(cls: ModelClass, columns: Store)
    requires Reconstruct(cls, columns).Success?
    ensures forall f :: f !in Links(cls) ==>
      var fields := Reconstruct(cls, columns).value.fields;
      (f in fields <==> f in cls.defaults) && Get(fields, f) == Get(cls.defaults, f)
    ensures forall c :: c !in Links(cls).Values ==>
      var after := Reconstruct(cls, columns).value.columns;
      (c in after <==> c in columns) && Get(after, c) == Get(columns, c)
  {
    var pairs := ColumnFields(cls);
    var start := Instance(cls.defaults, columns);
    ColumnFieldsCoverLinks(cls);
    forall f | f !in Links(cls)
      ensures var fields := Reconstruct(cls, columns).value.fields;
        (f in fields <==> f in cls.defaults) && Get(fields, f) == Get(cls.defaults, f)
    {
      AssignFromColumnsKeepsOtherFields(cls, pairs, start, f);
    }
    forall c | c !in Links(cls).Values
      ensures var after := Reconstruct(cls, columns).value.columns;
        (c in after <==> c in columns) && Get(after, c) == Get(columns, c)
    {
      AssignFromColumnsKeepsOtherColumns(cls, pairs, start, c);
    }
  }

  /** The reference description of a load from `columns`, independent of
      the order the pairs are assigned in: each linked field holds the
      conversion of its column's stored value and its column holds that same
      value; every other field is as Schematics initialised it and every
      other column is as the row had it. */
  ghost predicate LoadedFrom(cls: ModelClass, columns: Store, inst: Instance) {
    && (forall f :: f in Links(cls) ==>
         && f in inst.fields && cls.convert(f, Get(columns, Links(cls)[f])) == Success(inst.fields[f])
         && Links(cls)[f] in inst.columns && inst.columns[Links(cls)[f]] == inst.fields[f])
    && (forall f :: f !in Links(cls) ==>
         (f in inst.fields <==> f in cls.defaults) && Get(inst.fields, f) == Get(cls.defaults, f))
    && (forall c :: c !in Links(cls).Values ==>
         (c in inst.columns <==> c in columns) && Get(inst.columns, c) == Get(columns, c))
  }

  /** A successful load produces exactly the reference result. */
  lemma ReconstructLoads(cls: ModelClass, columns: Store)
    requires ValidClass(cls)
    requires Reconstruct(cls, columns).Success?
    ensures LoadedFrom(cls, columns, Reconstruct(cls, columns).value)
  {
    ReconstructSynced(cls, columns);
    ReconstructKeepsUnlinked(cls, columns);
  }

  /** The reference result's field store holds the defaults' fields and the
      linked fields. */
  lemma LoadedFromFieldKeys(cls: ModelClass, columns: Store, inst: Instance)
    requires LoadedFrom(cls, columns, inst)
    ensures inst.fields.Keys == cls.defaults.Keys + Links(cls).Keys
  {
  }

  /** The reference result's instance dict holds the row's columns and the
      linked columns. */
  lemma LoadedFromColumnKeys(cls: ModelClass, columns: Store, inst: Instance)
    requires LoadedFrom(cls, columns, inst)
    ensures inst.columns.Keys == columns.Keys + Links(cls).Values
  {
    forall c | c in Links(cls).Values ensures c in inst.columns {
      var f :| f in Links(cls) && Links(cls)[f] == c;
    }
  }
}
