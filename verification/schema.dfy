/**
 * The EIP-712 "types" table the generator produces, and what it means for
 * a JSON value to be described by one of its type strings.
 *
 * A type string is a primitive (`string`, `int64`, `bool`), the name of a
 * struct in the table, or either of those followed by `[]`.
 */
module Eip712Schema {
  import opened Strings
  import opened JsonValues
  import opened Outcomes

  /** One `{name, type}` field descriptor. */
  datatype Field = Field(name: string, typ: string)

  /** Struct-type name to its ordered field list. */
  type Types = map<string, seq<Field>>

  const StringType := "string"
  const Int64Type := "int64"
  const BoolType := "bool"
  const ArraySuffix := "[]"
  /** The element type assumed for an empty array, whose elements cannot be inspected. */
  const EmptyArrayType := "string[]"

  predicate IsPrimitive(t: string) {
    t == StringType || t == Int64Type || t == BoolType
  }

  predicate IsArrayType(t: string) {
    |t| >= 2 && t[|t| - 2..] == ArraySuffix
  }

  function ElemType(t: string): string
    requires IsArrayType(t)
  {
    t[..|t| - 2]
  }

  /** The primitive or struct name a type string ultimately refers to. */
  function Referent(t: string): string {
    if IsArrayType(t) then ElemType(t) else t
  }

  /** The type string names a primitive or a struct present in the table. */
  predicate Resolves(types: Types, t: string) {
    IsPrimitive(Referent(t)) || Referent(t) in types
  }

  /** No field of any struct refers to a struct the table lacks. */
  predicate Closed(types: Types) {
    forall n, i :: n in types && 0 <= i < |types[n]| ==> Resolves(types, types[n][i].typ)
  }

  predicate FieldsSorted(fs: seq<Field>) {
    forall i, j :: 0 <= i < j < |fs| ==> LexLess(fs[i].name, fs[j].name)
  }

  /** Every struct lists its fields in strictly ascending name order. */
  predicate TableSorted(types: Types) {
    forall n :: n in types ==> FieldsSorted(types[n])
  }

  /** `after` keeps every definition of `before` unchanged. */
  predicate Extends(before: Types, after: Types) {
    forall n :: n in before ==> n in after && after[n] == before[n]
  }

  lemma ExtendsTransitive(t1: Types, t2: Types, t3: Types)
    requires Extends(t1, t2) && Extends(t2, t3)
    ensures Extends(t1, t3)
  {
  }

  /**
   * The value `v` is described by type string `t` under `types`. Arrays are
   * described by their first element only, an empty array by `string[]`,
   * and nested arrays and nulls by nothing.
   */
  predicate Conforms(types: Types, t: string, v: Json)
    decreases v, 1
  {
    match v
    case JNull => false
    case JBool(_) => t == BoolType
    case JNum(_) => t == Int64Type
    case JStr(_) => t == StringType
    case JArr(xs) =>
      IsArrayType(t) &&
      if |xs| == 0 then t == EmptyArrayType
      else !xs[0].JArr? && Conforms(types, ElemType(t), xs[0])
    case JObj(kvs) => t in types && ObjectConforms(types, types[t], kvs)
  }

  /**
   * The field list describes the object: one field per key, no name twice,
   * and each field's type describes the value stored under its name.
   */
  predicate ObjectConforms(types: Types, fs: seq<Field>, kvs: seq<Entry>)
    decreases JObj(kvs), 0
  {
    && |fs| == |kvs|
    && (forall i, j :: 0 <= i < j < |fs| ==> fs[i].name != fs[j].name)
    && forall i :: 0 <= i < |fs| ==>
         match Find(kvs, fs[i].name)
         case None => false
         case Some(j) => Conforms(types, fs[i].typ, kvs[j].1)
  }

  /** Growing the table never breaks a description that already holds. */
  lemma {:induction false} ConformsMonotone(t1: Types, t2: Types, t: string, v: Json)
    requires Extends(t1, t2) && Conforms(t1, t, v)
    ensures Conforms(t2, t, v)
    decreases v, 1
  {
    match v
    case JArr(xs) =>
      if |xs| > 0 {
        ConformsMonotone(t1, t2, ElemType(t), xs[0]);
      }
    case JObj(kvs) =>
      ObjectConformsMonotone(t1, t2, t1[t], kvs);
    case _ =>
  }

  lemma {:induction false} ObjectConformsMonotone(t1: Types, t2: Types, fs: seq<Field>, kvs: seq<Entry>)
    requires Extends(t1, t2) && ObjectConforms(t1, fs, kvs)
    ensures ObjectConforms(t2, fs, kvs)
    decreases JObj(kvs), 0
  {
    forall i | 0 <= i < |fs|
      ensures match Find(kvs, fs[i].name)
              case None => false
              case Some(j) => Conforms(t2, fs[i].typ, kvs[j].1)
    {
      var j := Find(kvs, fs[i].name).value;
      ConformsMonotone(t1, t2, fs[i].typ, kvs[j].1);
    }
  }

  lemma ResolvesMonotone(t1: Types, t2: Types, t: string)
    requires Extends(t1, t2) && Resolves(t1, t)
    ensures Resolves(t2, t)
  {
  }
}
