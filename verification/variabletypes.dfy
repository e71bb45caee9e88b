/**
 * The scenario covering every kind of value a message may hold: a numeric
 * array, an empty array, a number, a boolean and a nested object, written
 * in an order that is not the key order.
 */
module VariableTypesScenario {
  import opened Strings
  import opened Outcomes
  import opened JsonValues
  import opened KeySort
  import opened Eip712Schema
  import opened TypeRegistry
  import opened MessageTypes
  import opened PayloadTypes
  import opened CreateTypesCases

  const Int64ArrayEntry: Entry := ("int64Array", JArr([JNum(0)]))
  const EmptyArrayEntry: Entry := ("emptyArray", JArr([]))
  const NumberEntry: Entry := ("number", JNum(0))
  const BooleanEntry: Entry := ("boolean", JBool(false))
  const ObjectEntry: Entry := ("object", JObj([("string", JStr(""))]))

  /** The `value` object as the message writes it. */
  function TestValueEntries(): seq<Entry> {
    [Int64ArrayEntry, EmptyArrayEntry, NumberEntry, BooleanEntry, ObjectEntry]
  }

  /** The flat entries in key order; the object comes last. */
  function FlatInKeyOrder(): seq<Entry> {
    [BooleanEntry, EmptyArrayEntry, Int64ArrayEntry, NumberEntry]
  }

  function TestMsg(): Json {
    JObj(MessageEntries("TestMsg", JObj(TestValueEntries())))
  }

  const ObjectFields := [Field("string", "string")]
  const TestValueFields := [Field("boolean", "bool"), Field("emptyArray", "string[]"), Field("int64Array", "int64[]"),
                            Field("number", "int64"), Field("object", "TypeValueObject0")]
  const TestMsgFields := [Field("type", "string"), Field("value", "TypeValue0")]

  /** The three types the message registers. */
  function TestMsgTypes(): Types {
    map["TypeTestMsg0" := TestMsgFields, "TypeValue0" := TestValueFields, "TypeValueObject0" := ObjectFields]
  }

  lemma TestValueSorted()
    ensures SortByKey(TestValueEntries()) == FlatInKeyOrder() + [ObjectEntry]
  {
    var sorted := FlatInKeyOrder() + [ObjectEntry];
    KeyOrder(sorted);
    SamePermutation(sorted);
    SortByKeyIs(TestValueEntries(), sorted);
  }

  lemma KeyOrder(sorted: seq<Entry>)
    requires sorted == FlatInKeyOrder() + [ObjectEntry]
    ensures StrictlySorted(sorted)
  {
    assert sorted == [BooleanEntry, EmptyArrayEntry, Int64ArrayEntry, NumberEntry, ObjectEntry];
    assert LexLess("boolean", "emptyArray") && LexLess("emptyArray", "int64Array");
    assert LexLess("int64Array", "number") && LexLess("number", "object");
    forall i, j | 0 <= i < j < |sorted| ensures LexLess(sorted[i].0, sorted[j].0) {
      LexLessChain(sorted, i, j);
    }
  }

  lemma SamePermutation(sorted: seq<Entry>)
    requires sorted == FlatInKeyOrder() + [ObjectEntry]
    ensures multiset(sorted) == multiset(TestValueEntries())
  {
    assert sorted == [BooleanEntry, EmptyArrayEntry, Int64ArrayEntry, NumberEntry, ObjectEntry];
  }

  lemma FlatInKeyOrderFields()
    ensures forall i :: 0 <= i < |FlatInKeyOrder()| ==> Flat(FlatInKeyOrder()[i].1)
    ensures FlatFieldsOf(FlatInKeyOrder()) == TestValueFields[..4]
  {
    var f := FlatInKeyOrder();
    assert Int64Type + ArraySuffix == "int64[]";
    FlatFieldsOne(NumberEntry);
    assert [Int64ArrayEntry, NumberEntry][1..] == [NumberEntry];
    assert FlatFieldsOf([Int64ArrayEntry, NumberEntry]) == [Field("int64Array", "int64[]"), Field("number", "int64")];
    assert [EmptyArrayEntry, Int64ArrayEntry, NumberEntry][1..] == [Int64ArrayEntry, NumberEntry];
    assert f[1..] == [EmptyArrayEntry, Int64ArrayEntry, NumberEntry];
  }

  /**
   * The `value` object: the nested object registers first, then `value`
   * with the four flat fields in key order followed by the object's name.
   */
  lemma TestValueStruct(types: Types, max: nat)
    ensures var obj := Register(types, "TypeValueObject", ObjectFields, max);
            TypeOfValue(types, "TypeValue", JObj(TestValueEntries()), max)
              == if obj.Err? then Err(obj.error)
                 else Register(obj.value.1, "TypeValue", TestValueFields[..4] + [Field("object", obj.value.0)], max)
  {
    TestValueSorted();
    TestValueFieldsOf(types, max);
    ObjectFromSorted(types, "TypeValue", TestValueEntries(), FlatInKeyOrder() + [ObjectEntry], max);
  }

  /** The fields of `value`, over its entries in key order. */
  lemma TestValueFieldsOf(types: Types, max: nat)
    ensures var obj := Register(types, "TypeValueObject", ObjectFields, max);
            BuildFields(types, "TypeValue", FlatInKeyOrder() + [ObjectEntry], JObj(TestValueEntries()), max)
              == if obj.Err? then Err(obj.error) else Ok((TestValueFields[..4] + [Field("object", obj.value.0)], obj.value.1))
  {
    TestValueMembers();
    FlatInKeyOrderFields();
    FlatThenOne(types, "TypeValue", FlatInKeyOrder(), ObjectEntry, JObj(TestValueEntries()), max);
    ObjectChild(types, max);
  }

  lemma TestValueMembers()
    ensures forall e :: e in FlatInKeyOrder() + [ObjectEntry] ==> e in TestValueEntries()
  {
    assert FlatInKeyOrder() + [ObjectEntry] == [BooleanEntry, EmptyArrayEntry, Int64ArrayEntry, NumberEntry, ObjectEntry];
  }

  /** The nested object is the struct `TypeValueObject` of one string field. */
  lemma ObjectChild(types: Types, max: nat)
    ensures TypeOfValue(types, "TypeValue" + Capitalize(ObjectEntry.0), ObjectEntry.1, max)
            == Register(types, "TypeValueObject", ObjectFields, max)
  {
    ChildNames();
    SingleFlatStruct(types, "TypeValueObject", "TypeValueObject", ("string", JStr("")), max);
  }

  lemma TestValueRegisters(max: nat)
    requires max >= 1
    ensures var t1: Types := map["TypeValueObject0" := ObjectFields];
            var t2 := t1["TypeValue0" := TestValueFields];
            && Register(map[], "TypeValueObject", ObjectFields, max) == Ok(("TypeValueObject0", t1))
            && Register(t1, "TypeValue", TestValueFields, max) == Ok(("TypeValue0", t2))
            && Register(t2, "TypeTestMsg", TestMsgFields, max) == Ok(("TypeTestMsg0", TestMsgTypes()))
  {
    SlotNames();
    var t1: Types := map["TypeValueObject0" := ObjectFields];
    var t2 := t1["TypeValue0" := TestValueFields];
    RegisterFirst(map[], "TypeValueObject", ObjectFields, max);
    RegisterFirst(t1, "TypeValue", TestValueFields, max);
    RegisterFirst(t2, "TypeTestMsg", TestMsgFields, max);
    assert t2["TypeTestMsg0" := TestMsgFields] == TestMsgTypes();
  }

  /** The whole message over an empty table. */
  lemma TestMsgStruct(max: nat)
    requires max >= 1
    ensures WellFormedMessage(TestMsg()) && Label(TestMsg()) == "TestMsg"
    ensures BuildStruct(map[], RootTypeName("TestMsg"), TypePrefix, TestMsg().entries, max) == Ok(("TypeTestMsg0", TestMsgTypes()))
  {
    TypeThenValue(TestMsg());
    TestMsgRootName();
    TestMsgRoot(max);
  }

  lemma TestMsgRootName()
    ensures RootTypeName("TestMsg") == "TypeTestMsg"
  {
    LastSegmentWhole("TestMsg");
  }

  /** Over an empty table `value` becomes `TypeValue0`, after `TypeValueObject0`. */
  lemma TestValueFirst(max: nat)
    requires max >= 1
    ensures TypeOfValue(map[], TypePrefix + Capitalize("value"), JObj(TestValueEntries()), max)
            == Ok(("TypeValue0", map["TypeValueObject0" := ObjectFields, "TypeValue0" := TestValueFields]))
  {
    ChildNames();
    TestValueRegisters(max);
    TestValueStruct(map[], max);
    TestValueFieldsSplit();
  }

  lemma TestValueFieldsSplit()
    ensures TestValueFields[..4] + [Field("object", "TypeValueObject0")] == TestValueFields
  {
  }

  lemma TestMsgRoot(max: nat)
    requires max >= 1
    ensures BuildStruct(map[], "TypeTestMsg", TypePrefix, TestMsg().entries, max) == Ok(("TypeTestMsg0", TestMsgTypes()))
  {
    TestValueFirst(max);
    TestValueRegisters(max);
    RootStruct(map[], "TypeTestMsg", TypePrefix, "TestMsg", JObj(TestValueEntries()), max);
  }

  /** The message's root gets `type` and `value`; `value` gets all five kinds in key order. */
  lemma AllVariableTypes(base: Types, max: nat)
    requires TxName in base && max >= 1
    ensures Eip712Types(base, PayloadOf([TestMsg()]), 1, max)
            == Ok(Merge(base, State(TestMsgTypes(), [Field("msg0", "TypeTestMsg0")])))
  {
    var p := PayloadOf([TestMsg()]);
    assert Generate(p, 1, max) == Ok(State(TestMsgTypes(), [Field("msg0", "TypeTestMsg0")])) by {
      SmallNumbers();
      TestMsgStruct(max);
      GenerateNext(p, 0, max, State(map[], []), "TypeTestMsg0", TestMsgTypes());
      assert [] + [Field("msg0", "TypeTestMsg0")] == [Field("msg0", "TypeTestMsg0")];
    }
  }
}
