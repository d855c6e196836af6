/** Properties relating several operations of an instance's life: writes,
    construction and loads keep the stores synchronised, a load depends only
    on the linked columns of the row, and construct-then-load gives back the
    constructed values. */
module Properties {
  import opened Wrappers
  import opened Schema
  import opened Binder
  import opened Mirror
  import opened Lifecycle

  /** Two stores with the same keys and the same value at each key are equal. */
  lemma StoresAgree(a: Store, b: Store)
    requires forall k :: (k in a <==> k in b) && (k in a ==> a[k] == b[k])
    ensures a == b
  {
    assert a.Keys == b.Keys;
  }

  /** Every write of a run names a declared field: only those go through the
      mirroring descriptor. */
  predicate DeclaredWrites(cls: ModelClass, writes: seq<(string, Value)>) {
    forall i :: 0 <= i < |writes| ==> writes[i].0 in cls.fieldNames
  }

  /** A run of field writes in order, stopping at the first that raises. */
  function ApplyWrites(cls: ModelClass, inst: Instance, writes: seq<(string, Value)>): Result<Instance, string>
    requires DeclaredWrites(cls, writes)
    decreases |writes|
  {
    if |writes| == 0 then Success(inst)
    else
      assert DeclaredWrites(cls, writes[1..]) by {
        forall i | 0 <= i < |writes[1..]| ensures writes[1..][i].0 in cls.fieldNames {
          assert writes[1..][i] == writes[i + 1];
        }
      }
      match SetField(cls, inst, writes[0].0, writes[0].1)
      case Failure(e) => Failure(e)
      case Success(next) => ApplyWrites(cls, next, writes[1..])
  }

  /** Any run of successful writes keeps every linked field equal to its
      column. */
  lemma {:induction false} WritesPreserveSync(cls: ModelClass, inst: Instance, writes: seq<(string, Value)>)
    requires Synced(Links(cls), inst)
    requires DeclaredWrites(cls, writes)
    requires ApplyWrites(cls, inst, writes).Success?
    ensures Synced(Links(cls), ApplyWrites(cls, inst, writes).value)
    decreases |writes|
  {
    if |writes| > 0 {
      SetFieldPreservesSync(cls, inst, writes[0].0, writes[0].1);
      WritesPreserveSync(cls, SetField(cls, inst, writes[0].0, writes[0].1).value, writes[1..]);
    }
  }

  /** A constructed instance stays synchronised through any run of
      successful writes. */
  lemma {:induction false} ConstructThenWritesSynced(cls: ModelClass, initial: Store, columns: Store, writes: seq<(string, Value)>)
    requires forall f :: f in Links(cls) ==> f in initial
    requires DeclaredWrites(cls, writes)
    requires ApplyWrites(cls, Construct(cls, initial, columns), writes).Success?
    ensures Synced(Links(cls), ApplyWrites(cls, Construct(cls, initial, columns), writes).value)
  {
    WritesPreserveSync(cls, Construct(cls, initial, columns), writes);
  }

  /** Reference loads from two rows that agree on the linked columns have
      the same field store. */
  lemma LoadedFromAgree(cls: ModelClass, a: Store, b: Store, ia: Instance, ib: Instance)
    requires forall f :: f in Links(cls) ==> Get(a, Links(cls)[f]) == Get(b, Links(cls)[f])
    requires LoadedFrom(cls, a, ia) && LoadedFrom(cls, b, ib)
    ensures ia.fields == ib.fields
  {
    forall f ensures (f in ia.fields <==> f in ib.fields) && (f in ia.fields ==> ia.fields[f] == ib.fields[f]) {
      if f in Links(cls) {
        assert cls.convert(f, Get(a, Links(cls)[f])) == Success(ia.fields[f]);
        assert cls.convert(f, Get(b, Links(cls)[f])) == Success(ib.fields[f]);
      } else {
        assert Get(ia.fields, f) == Get(ib.fields, f);
      }
    }
    StoresAgree(ia.fields, ib.fields);
  }

  /** A load reads nothing of the row but its linked columns: two rows that
      agree on them load to the same outcome and the same field store. In
      particular, loading the same row twice gives equal field stores. */
  lemma ReloadDependsOnlyOnLinkedColumns(cls: ModelClass, a: Store, b: Store)
    requires ValidClass(cls)
    requires forall f :: f in Links(cls) ==> Get(a, Links(cls)[f]) == Get(b, Links(cls)[f])
    ensures Reconstruct(cls, a).Success? <==> Reconstruct(cls, b).Success?
    ensures Reconstruct(cls, a).Success? ==> Reconstruct(cls, a).value.fields == Reconstruct(cls, b).value.fields
  {
    ReconstructOutcome(cls, a);
    ReconstructOutcome(cls, b);
    if Reconstruct(cls, a).Success? {
      ReconstructLoads(cls, a);
      ReconstructLoads(cls, b);
      LoadedFromAgree(cls, a, b, Reconstruct(cls, a).value, Reconstruct(cls, b).value);
    }
  }

  /** Loading the reference result's own instance dict again gives the same
      instance, when Schematics stores the loaded values unchanged. */
  lemma {:induction false} LoadedFromStable(cls: ModelClass, columns: Store, first: Instance, second: Instance)
    requires LoadedFrom(cls, columns, first)
    requires forall f :: f in Links(cls) ==> f in first.fields && cls.convert(f, first.fields[f]) == Success(first.fields[f])
    requires LoadedFrom(cls, first.columns, second)
    ensures second == first
  {
    forall f ensures (f in second.fields <==> f in first.fields) && (f in second.fields ==> second.fields[f] == first.fields[f]) {
      if f in Links(cls) {
        assert Get(first.columns, Links(cls)[f]) == first.fields[f];
      } else {
        assert Get(second.fields, f) == Get(first.fields, f);
      }
    }
    forall c ensures (c in second.columns <==> c in first.columns) && (c in second.columns ==> second.columns[c] == first.columns[c]) {
      if c in Links(cls).Values {
        var f :| f in Links(cls) && Links(cls)[f] == c;
        assert Get(first.columns, c) == first.fields[f];
      } else {
        assert Get(second.columns, c) == Get(first.columns, c);
      }
    }
    StoresAgree(second.fields, first.fields);
    StoresAgree(second.columns, first.columns);
  }

  /** Loading from the row a load left behind gives back the same instance,
      provided Schematics stores the values it produced unchanged. */
  lemma ReloadIsStable(cls: ModelClass, columns: Store)
    requires ValidClass(cls)
    requires Reconstruct(cls, columns).Success?
    requires forall f :: f in Links(cls) ==> (f in Reconstruct(cls, columns).value.fields &&
      cls.convert(f, Reconstruct(cls, columns).value.fields[f]) == Success(Reconstruct(cls, columns).value.fields[f]))
    ensures Reconstruct(cls, Reconstruct(cls, columns).value.columns) == Reconstruct(cls, columns)
  {
    var first := Reconstruct(cls, columns).value;
    ReconstructLoads(cls, columns);
    assert forall f :: f in Links(cls) ==> Get(first.columns, Links(cls)[f]) == first.fields[f];
    ReconstructOutcome(cls, first.columns);
    ReconstructLoads(cls, first.columns);
    LoadedFromStable(cls, columns, first, Reconstruct(cls, first.columns).value);
  }

  /** Loading the instance dict of a synchronised instance, when Schematics
      stores its linked values unchanged, gives back that instance dict and
      those linked field values. */
  lemma LoadedFromSyncedInstance(cls: ModelClass, built: Instance, loaded: Instance)
    requires Synced(Links(cls), built)
    requires forall f :: f in Links(cls) ==> cls.convert(f, built.fields[f]) == Success(built.fields[f])
    requires LoadedFrom(cls, built.columns, loaded)
    ensures loaded.columns == built.columns
    ensures forall f :: f in Links(cls) ==> f in loaded.fields && loaded.fields[f] == built.fields[f]
  {
    forall c ensures (c in loaded.columns <==> c in built.columns) && (c in loaded.columns ==> loaded.columns[c] == built.columns[c]) {
      if c in Links(cls).Values {
        var f :| f in Links(cls) && Links(cls)[f] == c;
        assert cls.convert(f, Get(built.columns, c)) == Success(loaded.fields[f]);
      } else {
        assert Get(loaded.columns, c) == Get(built.columns, c);
      }
    }
    StoresAgree(loaded.columns, built.columns);
    forall f | f in Links(cls) ensures f in loaded.fields && loaded.fields[f] == built.fields[f] {
      assert cls.convert(f, Get(built.columns, Links(cls)[f])) == Success(loaded.fields[f]);
    }
  }

  /** Construct, then load from the resulting instance dict: when Schematics
      stores the constructed values unchanged, the load succeeds, restores
      every linked field to its constructed value and leaves the instance
      dict exactly as construction left it. */
  lemma {:induction false} ConstructReloadRoundTrip(cls: ModelClass, initial: Store, columns: Store)
    requires ValidClass(cls)
    requires forall f :: f in Links(cls) ==> f in initial && cls.convert(f, initial[f]) == Success(initial[f])
    ensures Reconstruct(cls, Construct(cls, initial, columns).columns).Success?
    ensures var loaded := Reconstruct(cls, Construct(cls, initial, columns).columns).value;
      && loaded.columns == Construct(cls, initial, columns).columns
      && forall f :: f in Links(cls) ==> f in loaded.fields && loaded.fields[f] == initial[f]
  {
    var built := Construct(cls, initial, columns);
    assert forall f :: f in Links(cls) ==> Get(built.columns, Links(cls)[f]) == initial[f];
    ReconstructOutcome(cls, built.columns);
    ReconstructLoads(cls, built.columns);
    LoadedFromSyncedInstance(cls, built, Reconstruct(cls, built.columns).value);
  }
}
