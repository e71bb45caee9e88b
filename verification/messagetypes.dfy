/**
 * The recursive walk that turns one JSON object into EIP-712 struct types.
 *
 * A struct is built per JSON object: its entries are visited in ascending
 * key order, each value is typed (nested objects first becoming structs of
 * their own, named by the parent's path followed by the capitalised key),
 * and the resulting field list is registered under the struct's base name.
 */
module MessageTypes {
  import opened Strings
  import opened Outcomes
  import opened JsonValues
  import opened KeySort
  import opened Eip712Schema
  import opened TypeRegistry

  /**
   * The type string of one value: a primitive, `T[]` from the first
   * element of an array, or the registered name of a nested object's struct.
   */
  function TypeOfValue(types: Types, path: string, v: Json, max: nat): (r: Result<(string, Types)>)
    ensures r.Ok? ==> Extends(types, r.value.1)
    decreases v, 2
  {
    match v
    case JNull => Err(UnsupportedShape)
    case JBool(_) => Ok((BoolType, types))
    case JNum(_) => Ok((Int64Type, types))
    case JStr(_) => Ok((StringType, types))
    case JObj(kvs) => BuildStruct(types, path, path, kvs, max)
    case JArr(xs) =>
      if |xs| == 0 then Ok((EmptyArrayType, types))
      else if xs[0].JArr? then Err(UnsupportedShape)
      else
        var elem :- TypeOfValue(types, path, xs[0], max);
        Ok((elem.0 + ArraySuffix, elem.1))
  }

  /**
   * Builds and registers the struct for object `kvs` under `base`; children
   * are named from `path`. Returns the registered name. Children are typed
   * in sorted key order, not declaration order; the two differ only when
   * capitalised child names collide.
   */
  function BuildStruct(types: Types, base: string, path: string, kvs: seq<Entry>, max: nat): (r: Result<(string, Types)>)
    ensures r.Ok? ==> Extends(types, r.value.1)
    decreases JObj(kvs), 1
  {
    var sorted := SortByKey(kvs);
    SortedMembers(kvs);
    var fields :- BuildFields(types, path, sorted, JObj(kvs), max);
    Register(fields.1, base, fields.0, max)
  }

  /** Types the entries in order, threading the table, one field per entry. */
  function BuildFields(types: Types, path: string, entries: seq<Entry>, ghost parent: Json, max: nat)
    : (r: Result<(seq<Field>, Types)>)
    requires parent.JObj? && forall e :: e in entries ==> e in parent.entries
    ensures r.Ok? ==> Extends(types, r.value.1)
    ensures r.Ok? ==> |r.value.0| == |entries|
    ensures r.Ok? ==> forall i :: 0 <= i < |entries| ==> r.value.0[i].name == entries[i].0
    decreases parent, 0, |entries|
  {
    if |entries| == 0 then Ok(([], types))
    else
      var e := entries[0];
      ChildSmaller(e, parent);
      var head :- TypeOfValue(types, path + Capitalize(e.0), e.1, max);
      var tail :- BuildFields(head.1, path, entries[1..], parent, max);
      Ok(([Field(e.0, head.0)] + tail.0, tail.1))
  }

  lemma ChildSmaller(e: Entry, parent: Json)
    requires parent.JObj? && e in parent.entries
    ensures e.1 < parent
  {
    var j :| 0 <= j < |parent.entries| && parent.entries[j] == e;
    assert parent.entries[j].1 < parent;
  }

  lemma SlotNotArray(base: string, k: nat)
    ensures !IsArrayType(Slot(base, k))
  {
    var s := Slot(base, k);
    assert s[|s| - 1] == Dec(k)[|Dec(k)| - 1];
  }

  lemma ArrayOf(t: string)
    ensures IsArrayType(t + ArraySuffix) && ElemType(t + ArraySuffix) == t
  {
    assert (t + ArraySuffix)[|t|..] == ArraySuffix;
    assert (t + ArraySuffix)[..|t|] == t;
  }

  // ---------------------------------------------------------------------
  // Soundness: the generated type describes the value it came from, and
  // the table stays closed and sorted.
  // ---------------------------------------------------------------------

  lemma {:induction false} TypeOfValueSound(types: Types, path: string, v: Json, max: nat)
    requires Valid(v) && Closed(types) && TableSorted(types)
    ensures var r := TypeOfValue(types, path, v, max);
            r.Ok? ==> && Conforms(r.value.1, r.value.0, v)
                      && Resolves(r.value.1, r.value.0)
                      && Closed(r.value.1) && TableSorted(r.value.1)
    decreases v, 2
  {
    match v
    case JObj(kvs) =>
      BuildStructSound(types, path, path, kvs, max);
    case JArr(xs) =>
      if |xs| > 0 && !xs[0].JArr? {
        TypeOfValueSound(types, path, xs[0], max);
        var elem := TypeOfValue(types, path, xs[0], max);
        if elem.Ok? {
          ArrayOf(elem.value.0);
        }
      }
    case _ =>
  }

  lemma {:induction false} BuildStructSound(types: Types, base: string, path: string, kvs: seq<Entry>, max: nat)
    requires Valid(JObj(kvs)) && Closed(types) && TableSorted(types)
    ensures var r := BuildStruct(types, base, path, kvs, max);
            r.Ok? ==> && r.value.0 in r.value.1
                      && ObjectConforms(r.value.1, r.value.1[r.value.0], kvs)
                      && !IsArrayType(r.value.0)
                      && Closed(r.value.1) && TableSorted(r.value.1)
    decreases JObj(kvs), 1
  {
    var sorted := SortByKey(kvs);
    SortedMembers(kvs);
    forall e | e in sorted ensures Valid(e.1) {
      var j :| 0 <= j < |kvs| && kvs[j] == e;
    }
    BuildFieldsSound(types, path, sorted, JObj(kvs), max);
    var fields := BuildFields(types, path, sorted, JObj(kvs), max);
    if fields.Ok? {
      RegisterSound(fields.value.1, base, fields.value.0, max, kvs);
    }
  }

  /** Registering the fields of a well-typed object keeps the table closed and sorted. */
  lemma RegisterSound(tf: Types, base: string, fs: seq<Field>, max: nat, kvs: seq<Entry>)
    requires UniqueKeys(kvs) && Closed(tf) && TableSorted(tf)
    requires |fs| == |SortByKey(kvs)|
    requires forall i :: 0 <= i < |fs| ==> && fs[i].name == SortByKey(kvs)[i].0
                                            && Conforms(tf, fs[i].typ, SortByKey(kvs)[i].1)
                                            && Resolves(tf, fs[i].typ)
    ensures var r := Register(tf, base, fs, max);
            r.Ok? ==> && r.value.0 in r.value.1
                      && ObjectConforms(r.value.1, r.value.1[r.value.0], kvs)
                      && !IsArrayType(r.value.0)
                      && Closed(r.value.1) && TableSorted(r.value.1)
  {
    var sorted := SortByKey(kvs);
    var r := Register(tf, base, fs, max);
    if r.Ok? {
      var (name, after) := r.value;
      var k :| 0 <= k < max && name == Slot(base, k);
      SlotNotArray(base, k);
      assert FieldsSorted(fs);
      StructConforms(tf, after, fs, sorted, kvs);
      forall n, i | n in after && 0 <= i < |after[n]|
        ensures Resolves(after, after[n][i].typ)
      {
        if n in tf {
          ResolvesMonotone(tf, after, tf[n][i].typ);
        } else {
          ResolvesMonotone(tf, after, fs[i].typ);
        }
      }
    }
  }

  /** The field list built from the sorted entries describes the original object. */
  lemma StructConforms(tf: Types, after: Types, fs: seq<Field>, sorted: seq<Entry>, kvs: seq<Entry>)
    requires UniqueKeys(kvs) && sorted == SortByKey(kvs)
    requires Extends(tf, after)
    requires |fs| == |sorted| && FieldsSorted(fs)
    requires forall i :: 0 <= i < |sorted| ==> fs[i].name == sorted[i].0 && Conforms(tf, fs[i].typ, sorted[i].1)
    ensures ObjectConforms(after, fs, kvs)
  {
    assert |sorted| == |multiset(sorted)| == |multiset(kvs)| == |kvs|;
    forall i, j | 0 <= i < j < |fs|
      ensures fs[i].name != fs[j].name
    {
      LexLessIrreflexive(fs[i].name);
    }
    forall i | 0 <= i < |fs|
      ensures match Find(kvs, fs[i].name)
              case None => false
              case Some(j) => Conforms(after, fs[i].typ, kvs[j].1)
    {
      assert sorted[i] in multiset(kvs);
      FindEntry(kvs, sorted[i]);
      ConformsMonotone(tf, after, fs[i].typ, sorted[i].1);
    }
  }

  lemma {:induction false} BuildFieldsSound(types: Types, path: string, entries: seq<Entry>, parent: Json, max: nat)
    requires parent.JObj? && forall e :: e in entries ==> e in parent.entries
    requires forall e :: e in entries ==> Valid(e.1)
    requires Closed(types) && TableSorted(types)
    ensures var r := BuildFields(types, path, entries, parent, max);
            r.Ok? ==> && (forall i :: 0 <= i < |entries| ==>
                            Conforms(r.value.1, r.value.0[i].typ, entries[i].1)
                            && Resolves(r.value.1, r.value.0[i].typ))
                      && Closed(r.value.1) && TableSorted(r.value.1)
    decreases parent, 0, |entries|
  {
    if |entries| > 0 {
      var e := entries[0];
      ChildSmaller(e, parent);
      TypeOfValueSound(types, path + Capitalize(e.0), e.1, max);
      var head := TypeOfValue(types, path + Capitalize(e.0), e.1, max);
      if head.Ok? {
        BuildFieldsSound(head.value.1, path, entries[1..], parent, max);
        var tail := BuildFields(head.value.1, path, entries[1..], parent, max);
        if tail.Ok? {
          ConformsMonotone(head.value.1, tail.value.1, head.value.0, e.1);
          ResolvesMonotone(head.value.1, tail.value.1, head.value.0);
          FieldsConsSound(tail.value.1, Field(e.0, head.value.0), tail.value.0, entries);
        }
      }
    }
  }

  /** A described head field in front of described tail fields describes all the entries. */
  lemma FieldsConsSound(after: Types, f: Field, rest: seq<Field>, entries: seq<Entry>)
    requires |entries| > 0 && |rest| == |entries| - 1
    requires Conforms(after, f.typ, entries[0].1) && Resolves(after, f.typ)
    requires forall i :: 0 <= i < |entries[1..]| ==>
               Conforms(after, rest[i].typ, entries[1..][i].1) && Resolves(after, rest[i].typ)
    ensures forall i :: 0 <= i < |entries| ==>
              Conforms(after, ([f] + rest)[i].typ, entries[i].1) && Resolves(after, ([f] + rest)[i].typ)
  {
    var fs := [f] + rest;
    forall i | 0 <= i < |entries|
      ensures Conforms(after, fs[i].typ, entries[i].1) && Resolves(after, fs[i].typ)
    {
      if i > 0 {
        var j := i - 1;
        assert Conforms(after, rest[j].typ, entries[1..][j].1) && Resolves(after, rest[j].typ);
        assert fs[i] == rest[j] && entries[1..][j] == entries[i];
      }
    }
  }

  // ---------------------------------------------------------------------
  // Shape errors: a value is rejected as unsupported exactly when it holds
  // a null or an array whose first element is an array.
  // ---------------------------------------------------------------------

  predicate Supported(v: Json)
    decreases v
  {
    match v
    case JNull => false
    case JArr(xs) => |xs| == 0 || (!xs[0].JArr? && Supported(xs[0]))
    case JObj(kvs) => forall i :: 0 <= i < |kvs| ==> Supported(kvs[i].1)
    case _ => true
  }

  lemma {:induction false} TypeOfValueShape(types: Types, path: string, v: Json, max: nat)
    ensures var r := TypeOfValue(types, path, v, max);
            && (r.Err? ==> r.error == UnsupportedShape || r.error.DuplicateCapacity?)
            && (r.Err? && r.error == UnsupportedShape ==> !Supported(v))
            && (!Supported(v) ==> r.Err?)
    decreases v, 2
  {
    match v
    case JObj(kvs) =>
      BuildStructShape(types, path, path, kvs, max);
    case JArr(xs) =>
      if |xs| > 0 && !xs[0].JArr? {
        TypeOfValueShape(types, path, xs[0], max);
      }
    case _ =>
  }

  lemma {:induction false} BuildStructShape(types: Types, base: string, path: string, kvs: seq<Entry>, max: nat)
    ensures var r := BuildStruct(types, base, path, kvs, max);
            && (r.Err? ==> r.error == UnsupportedShape || r.error.DuplicateCapacity?)
            && (r.Err? && r.error == UnsupportedShape ==> !Supported(JObj(kvs)))
            && (!Supported(JObj(kvs)) ==> r.Err?)
    decreases JObj(kvs), 1
  {
    var sorted := SortByKey(kvs);
    SortedMembers(kvs);
    BuildFieldsShape(types, path, sorted, JObj(kvs), max);
    UnsupportedEntryPermuted(kvs, sorted);
  }

  /** An object holds an unsupported value exactly when its sorted entries do. */
  lemma UnsupportedEntryPermuted(kvs: seq<Entry>, sorted: seq<Entry>)
    requires multiset(sorted) == multiset(kvs)
    ensures !Supported(JObj(kvs)) <==> exists i :: 0 <= i < |sorted| && !Supported(sorted[i].1)
  {
    if exists i :: 0 <= i < |sorted| && !Supported(sorted[i].1) {
      var i :| 0 <= i < |sorted| && !Supported(sorted[i].1);
      assert sorted[i] in multiset(kvs);
      var j :| 0 <= j < |kvs| && kvs[j] == sorted[i];
    }
    if !Supported(JObj(kvs)) {
      var j :| 0 <= j < |kvs| && !Supported(kvs[j].1);
      assert kvs[j] in multiset(sorted);
      var i :| 0 <= i < |sorted| && sorted[i] == kvs[j];
    }
  }

  lemma {:induction false} BuildFieldsShape(types: Types, path: string, entries: seq<Entry>, parent: Json, max: nat)
    requires parent.JObj? && forall e :: e in entries ==> e in parent.entries
    ensures var r := BuildFields(types, path, entries, parent, max);
            && (r.Err? ==> r.error == UnsupportedShape || r.error.DuplicateCapacity?)
            && (r.Err? && r.error == UnsupportedShape ==>
                  exists i :: 0 <= i < |entries| && !Supported(entries[i].1))
            && ((exists i :: 0 <= i < |entries| && !Supported(entries[i].1)) ==> r.Err?)
    decreases parent, 0, |entries|
  {
    if |entries| > 0 {
      var e := entries[0];
      ChildSmaller(e, parent);
      TypeOfValueShape(types, path + Capitalize(e.0), e.1, max);
      var head := TypeOfValue(types, path + Capitalize(e.0), e.1, max);
      if head.Ok? {
        BuildFieldsShape(head.value.1, path, entries[1..], parent, max);
        var tail := BuildFields(head.value.1, path, entries[1..], parent, max);
        if tail.Err? && tail.error == UnsupportedShape {
          var i :| 0 <= i < |entries[1..]| && !Supported(entries[1..][i].1);
          assert !Supported(entries[i + 1].1);
        }
        if exists i :: 0 <= i < |entries| && !Supported(entries[i].1) {
          var i :| 0 <= i < |entries| && !Supported(entries[i].1);
          assert i > 0;
          assert !Supported(entries[1..][i - 1].1);
        }
      }
    }
  }

  // ---------------------------------------------------------------------
  // Reuse: walking a value again over any table that keeps what its first
  // walk registered yields the same name and registers nothing new.
  // ---------------------------------------------------------------------

  lemma {:induction false} TypeOfValueReuse(types: Types, path: string, v: Json, max: nat, later: Types)
    requires TypeOfValue(types, path, v, max).Ok?
    requires Extends(TypeOfValue(types, path, v, max).value.1, later)
    ensures TypeOfValue(later, path, v, max) == Ok((TypeOfValue(types, path, v, max).value.0, later))
    decreases v, 2
  {
    match v
    case JObj(kvs) =>
      BuildStructReuse(types, path, path, kvs, max, later);
    case JArr(xs) =>
      if |xs| > 0 && !xs[0].JArr? {
        TypeOfValueReuse(types, path, xs[0], max, later);
      }
    case _ =>
  }

  lemma {:induction false} BuildStructReuse(types: Types, base: string, path: string, kvs: seq<Entry>, max: nat, later: Types)
    requires BuildStruct(types, base, path, kvs, max).Ok?
    requires Extends(BuildStruct(types, base, path, kvs, max).value.1, later)
    ensures BuildStruct(later, base, path, kvs, max) == Ok((BuildStruct(types, base, path, kvs, max).value.0, later))
    decreases JObj(kvs), 1
  {
    var sorted := SortByKey(kvs);
    SortedMembers(kvs);
    var (fs, tf) := BuildFields(types, path, sorted, JObj(kvs), max).value;
    BuildFieldsReuse(types, path, sorted, JObj(kvs), max, later);
    RegisterReuse(tf, base, fs, max, later);
  }

  /** Registering again over a table that keeps the first registration finds the same slot. */
  lemma RegisterReuse(tf: Types, base: string, fs: seq<Field>, max: nat, later: Types)
    requires Register(tf, base, fs, max).Ok?
    requires Extends(Register(tf, base, fs, max).value.1, later)
    ensures Register(later, base, fs, max) == Ok((Register(tf, base, fs, max).value.0, later))
  {
    var (name, after) := Register(tf, base, fs, max).value;
    var k :| 0 <= k < max && name == Slot(base, k) && !Taken(tf, base, fs, k)
             && forall j :: 0 <= j < k ==> Taken(tf, base, fs, j);
    forall j | 0 <= j < k
      ensures Taken(later, base, fs, j)
    {
      assert Taken(tf, base, fs, j);
    }
    RegisterAt(later, base, fs, max, k);
    assert later[name := fs] == later;
  }

  lemma {:induction false} BuildFieldsReuse(types: Types, path: string, entries: seq<Entry>, parent: Json, max: nat, later: Types)
    requires parent.JObj? && forall e :: e in entries ==> e in parent.entries
    requires BuildFields(types, path, entries, parent, max).Ok?
    requires Extends(BuildFields(types, path, entries, parent, max).value.1, later)
    ensures BuildFields(later, path, entries, parent, max) == Ok((BuildFields(types, path, entries, parent, max).value.0, later))
    decreases parent, 0, |entries|
  {
    if |entries| > 0 {
      var e := entries[0];
      ChildSmaller(e, parent);
      var head := TypeOfValue(types, path + Capitalize(e.0), e.1, max);
      var tail := BuildFields(head.value.1, path, entries[1..], parent, max);
      ExtendsTransitive(head.value.1, tail.value.1, later);
      TypeOfValueReuse(types, path + Capitalize(e.0), e.1, max, later);
      BuildFieldsReuse(head.value.1, path, entries[1..], parent, max, later);
    }
  }

  // ---------------------------------------------------------------------
  // Key order: the struct built for an object does not depend on the order
  // in which the object declares its keys.
  // ---------------------------------------------------------------------

  lemma {:induction false} BuildFieldsParentIrrelevant(types: Types, path: string, entries: seq<Entry>, p1: Json, p2: Json, max: nat)
    requires p1.JObj? && forall e :: e in entries ==> e in p1.entries
    requires p2.JObj? && forall e :: e in entries ==> e in p2.entries
    ensures BuildFields(types, path, entries, p1, max) == BuildFields(types, path, entries, p2, max)
    decreases |entries|
  {
    if |entries| > 0 {
      var e := entries[0];
      var head := TypeOfValue(types, path + Capitalize(e.0), e.1, max);
      if head.Ok? {
        BuildFieldsParentIrrelevant(head.value.1, path, entries[1..], p1, p2, max);
      }
    }
  }

  lemma BuildStructOrderIndependent(types: Types, base: string, path: string, kvs1: seq<Entry>, kvs2: seq<Entry>, max: nat)
    requires UniqueKeys(kvs1) && multiset(kvs1) == multiset(kvs2)
    ensures BuildStruct(types, base, path, kvs1, max) == BuildStruct(types, base, path, kvs2, max)
  {
    var sorted := SortByKey(kvs1);
    SortByKeyOrderIndependent(kvs1, kvs2);
    forall e | e in sorted ensures e in kvs1 && e in kvs2 {
      assert e in multiset(sorted);
    }
    BuildFieldsParentIrrelevant(types, path, sorted, JObj(kvs1), JObj(kvs2), max);
  }

  // ---------------------------------------------------------------------
  // Naming: every registered name extends the prefix its walk started from.
  // ---------------------------------------------------------------------

  predicate StartsWith(s: string, p: string) {
    |p| <= |s| && s[..|p|] == p
  }

  predicate NamesStartWith(types: Types, p: string) {
    forall n :: n in types ==> StartsWith(n, p)
  }

  lemma {:induction false} TypeOfValueNames(types: Types, path: string, v: Json, max: nat, p: string)
    requires StartsWith(path, p) && NamesStartWith(types, p)
    ensures var r := TypeOfValue(types, path, v, max);
            r.Ok? ==> NamesStartWith(r.value.1, p)
    decreases v, 2
  {
    match v
    case JObj(kvs) =>
      BuildStructNames(types, path, path, kvs, max, p);
    case JArr(xs) =>
      if |xs| > 0 && !xs[0].JArr? {
        TypeOfValueNames(types, path, xs[0], max, p);
      }
    case _ =>
  }

  lemma {:induction false} BuildStructNames(types: Types, base: string, path: string, kvs: seq<Entry>, max: nat, p: string)
    requires StartsWith(base, p) && StartsWith(path, p) && NamesStartWith(types, p)
    ensures var r := BuildStruct(types, base, path, kvs, max);
            r.Ok? ==> NamesStartWith(r.value.1, p)
    decreases JObj(kvs), 1
  {
    var sorted := SortByKey(kvs);
    SortedMembers(kvs);
    BuildFieldsNames(types, path, sorted, JObj(kvs), max, p);
    var fields := BuildFields(types, path, sorted, JObj(kvs), max);
    if fields.Ok? {
      RegisterNames(fields.value.1, base, fields.value.0, max, p);
    }
  }

  /** Every slot of a base extends the base, hence any prefix of it. */
  lemma RegisterNames(tf: Types, base: string, fs: seq<Field>, max: nat, p: string)
    requires StartsWith(base, p) && NamesStartWith(tf, p)
    ensures var r := Register(tf, base, fs, max);
            r.Ok? ==> NamesStartWith(r.value.1, p)
  {
    var r := Register(tf, base, fs, max);
    if r.Ok? {
      var k :| 0 <= k < max && r.value.0 == Slot(base, k);
      assert (base + Dec(k))[..|p|] == base[..|p|];
    }
  }

  lemma {:induction false} BuildFieldsNames(types: Types, path: string, entries: seq<Entry>, parent: Json, max: nat, p: string)
    requires parent.JObj? && forall e :: e in entries ==> e in parent.entries
    requires StartsWith(path, p) && NamesStartWith(types, p)
    ensures var r := BuildFields(types, path, entries, parent, max);
            r.Ok? ==> NamesStartWith(r.value.1, p)
    decreases parent, 0, |entries|
  {
    if |entries| > 0 {
      var e := entries[0];
      ChildSmaller(e, parent);
      assert (path + Capitalize(e.0))[..|p|] == path[..|p|];
      TypeOfValueNames(types, path + Capitalize(e.0), e.1, max, p);
      var head := TypeOfValue(types, path + Capitalize(e.0), e.1, max);
      if head.Ok? {
        BuildFieldsNames(head.value.1, path, entries[1..], parent, max, p);
      }
    }
  }

  /**
   * A struct is registered under its base name followed by a suffix below
   * the ceiling, and the table holds it.
   */
  lemma BuildStructSlot(types: Types, base: string, path: string, kvs: seq<Entry>, max: nat)
    ensures var r := BuildStruct(types, base, path, kvs, max);
            r.Ok? ==> r.value.0 in r.value.1 && IsSlot(r.value.0, base, max)
  {
  }

  /**
   * A struct's field for a key holding an object is typed by that child's
   * struct, named by the parent's path followed by the capitalised key and
   * a suffix below the ceiling.
   */
  lemma BuildStructChildNamed(types: Types, base: string, path: string, kvs: seq<Entry>, max: nat, key: string, child: seq<Entry>)
    requires (key, JObj(child)) in kvs && BuildStruct(types, base, path, kvs, max).Ok?
    ensures var (name, after) := BuildStruct(types, base, path, kvs, max).value;
            name in after && exists k :: 0 <= k < max && Field(key, Slot(path + Capitalize(key), k)) in after[name]
  {
    var sorted := SortByKey(kvs);
    SortedMembers(kvs);
    assert (key, JObj(child)) in multiset(sorted);
    var i :| 0 <= i < |sorted| && sorted[i] == (key, JObj(child));
    BuildFieldsChildNames(types, path, sorted, JObj(kvs), max);
    var fields := BuildFields(types, path, sorted, JObj(kvs), max).value;
    var (name, after) := Register(fields.1, base, fields.0, max).value;
    assert after[name] == fields.0;
    var k :| 0 <= k < max && fields.0[i].typ == Slot(path + Capitalize(key), k);
    assert fields.0[i] == Field(key, Slot(path + Capitalize(key), k));
  }

  /** When entry `i` holds an object, field `i`'s type is a slot of the child struct's base name. */
  lemma {:induction false} BuildFieldsChildNames(types: Types, path: string, entries: seq<Entry>, parent: Json, max: nat)
    requires parent.JObj? && forall e :: e in entries ==> e in parent.entries
    ensures var r := BuildFields(types, path, entries, parent, max);
            r.Ok? ==> forall i :: 0 <= i < |entries| && entries[i].1.JObj? ==>
                        IsSlot(r.value.0[i].typ, path + Capitalize(entries[i].0), max)
    decreases |entries|
  {
    var r := BuildFields(types, path, entries, parent, max);
    if |entries| > 0 && r.Ok? {
      var e := entries[0];
      var head := TypeOfValue(types, path + Capitalize(e.0), e.1, max).value;
      BuildFieldsChildNames(head.1, path, entries[1..], parent, max);
      var tail := BuildFields(head.1, path, entries[1..], parent, max).value;
      assert r.value.0 == [Field(e.0, head.0)] + tail.0;
      ObjectTypeIsSlot(types, path + Capitalize(e.0), e.1, max);
      forall i | 0 < i < |entries| && entries[i].1.JObj?
        ensures IsSlot(r.value.0[i].typ, path + Capitalize(entries[i].0), max)
      {
        assert entries[i] == entries[1..][i - 1] && r.value.0[i] == tail.0[i - 1];
      }
    }
  }

  /** An object is typed by a slot of the name its path gives it. */
  lemma ObjectTypeIsSlot(types: Types, path: string, v: Json, max: nat)
    requires TypeOfValue(types, path, v, max).Ok?
    ensures v.JObj? ==> IsSlot(TypeOfValue(types, path, v, max).value.0, path, max)
  {
    if v.JObj? {
      BuildStructSlot(types, path, path, v.entries, max);
    }
  }
}
