/**
 * The error scenarios of the type-generation suite: malformed message
 * slots, a nested array, and more distinct definitions under one name
 * than the duplicate ceiling allows.
 */
module ErrorScenarios {
  import opened Strings
  import opened Outcomes
  import opened JsonValues
  import opened KeySort
  import opened Eip712Schema
  import opened TypeRegistry
  import opened MessageTypes
  import opened PayloadTypes
  import opened CreateTypesCases

  // ---------------------------------------------------------------------
  // Malformed slots.
  // ---------------------------------------------------------------------

  /** A single message that fails the shape check is reported under `msg0`. */
  lemma MalformedSingle(base: Types, msg: Json, max: nat)
    requires TxName in base && !WellFormedMessage(msg)
    ensures Eip712Types(base, PayloadOf([msg]), 1, max) == Err(MalformedPayload("msg0"))
  {
    SmallNumbers();
    MalformedStops(PayloadOf([msg]), 0, 1, max);
  }

  const EmptyObject := JObj([])
  const KeyValue := JObj([("key", JStr("value"))])
  const NestedMsgs := JObj([("msgs", KeyValue)])

  /** The empty object, an object without `type`, and one that nests its content one level too deep. */
  lemma MalformedPayloads(base: Types, max: nat)
    requires TxName in base
    ensures Eip712Types(base, PayloadOf([EmptyObject]), 1, max) == Err(MalformedPayload("msg0"))
    ensures Eip712Types(base, PayloadOf([KeyValue]), 1, max) == Err(MalformedPayload("msg0"))
    ensures Eip712Types(base, PayloadOf([NestedMsgs]), 1, max) == Err(MalformedPayload("msg0"))
  {
    assert Get(KeyValue.entries, TypeKey).None?;
    assert Get(NestedMsgs.entries, TypeKey).None?;
    MalformedSingle(base, EmptyObject, max);
    MalformedSingle(base, KeyValue, max);
    MalformedSingle(base, NestedMsgs, max);
  }

  // ---------------------------------------------------------------------
  // Nested arrays.
  // ---------------------------------------------------------------------

  /** An entry whose key sorts before both `type` and `value`, as digits do. */
  lemma SortFront(x: Entry, a: Entry, b: Entry)
    requires LexLess(x.0, a.0) && LexLess(a.0, b.0)
    ensures SortByKey([a, b, x]) == [x, a, b]
  {
    LexLessTransitive(x.0, a.0, b.0);
    var sorted := [x, a, b];
    assert StrictlySorted(sorted);
    assert multiset(sorted) == multiset([a, b, x]);
    SortByKeyIs([a, b, x], sorted);
  }

  const TwoDArrayEntry: Entry := ("2DArray", JArr([JArr([JNum(0)])]))

  /** A MsgSend with an extra two-dimensional array entry. */
  function TwoDArrayMsg(typeUrl: string, addr: string, amount: string, denom: string): Json {
    JObj(MsgSend(typeUrl, addr, amount, denom).entries + [TwoDArrayEntry])
  }

  /** When the entry sorting first cannot be typed, the struct fails with that entry's error. */
  lemma FirstEntryFails(types: Types, base: string, path: string, kvs: seq<Entry>, max: nat)
    requires |SortByKey(kvs)| > 0
    requires var x := SortByKey(kvs)[0]; TypeOfValue(types, path + Capitalize(x.0), x.1, max).Err?
    ensures var x := SortByKey(kvs)[0];
            BuildStruct(types, base, path, kvs, max) == Err(TypeOfValue(types, path + Capitalize(x.0), x.1, max).error)
  {
    BuildStructStep(types, base, path, kvs, max);
    BuildFieldsStep(types, path, SortByKey(kvs), JObj(kvs), max);
  }

  lemma TwoDArraySorted(typeUrl: string, valueObj: Json)
    ensures SortByKey(MessageEntries(typeUrl, valueObj) + [TwoDArrayEntry])
            == [TwoDArrayEntry] + MessageEntries(typeUrl, valueObj)
  {
    var kvs := MessageEntries(typeUrl, valueObj) + [TwoDArrayEntry];
    assert kvs == [kvs[0], kvs[1], TwoDArrayEntry];
    assert LexLess("2DArray", "type") && LexLess("type", "value");
    SortFront(TwoDArrayEntry, kvs[0], kvs[1]);
  }

  /** The array sorts first, and typing it fails before anything is registered. */
  lemma TwoDArrayRoot(types: Types, base: string, path: string, typeUrl: string, valueObj: Json, max: nat)
    ensures BuildStruct(types, base, path, MessageEntries(typeUrl, valueObj) + [TwoDArrayEntry], max) == Err(UnsupportedShape)
  {
    TwoDArraySorted(typeUrl, valueObj);
    assert TypeOfValue(types, path + Capitalize(TwoDArrayEntry.0), TwoDArrayEntry.1, max) == Err(UnsupportedShape);
    FirstEntryFails(types, base, path, MessageEntries(typeUrl, valueObj) + [TwoDArrayEntry], max);
  }

  /** The payload is rejected as an unsupported shape, whatever the ceiling. */
  lemma TwoDArrayRejected(base: Types, typeUrl: string, addr: string, amount: string, denom: string, max: nat)
    requires TxName in base && |typeUrl| > 0
    ensures Eip712Types(base, PayloadOf([TwoDArrayMsg(typeUrl, addr, amount, denom)]), 1, max) == Err(UnsupportedShape)
  {
    var msg := TwoDArrayMsg(typeUrl, addr, amount, denom);
    var p := PayloadOf([msg]);
    var valueObj := MsgSend(typeUrl, addr, amount, denom).entries[1].1;
    assert msg.entries == MessageEntries(typeUrl, valueObj) + [TwoDArrayEntry];
    assert WellFormedMessage(msg) && Label(msg) == typeUrl by {
      TypeThenValue(msg);
    }
    SmallNumbers();
    assert p[MsgField(0)] == msg;
    AddMessageStep(State(map[], []), p, 0, max);
    TwoDArrayRoot(map[], RootTypeName(typeUrl), TypePrefix, typeUrl, valueObj, max);
    assert AddMessage(State(map[], []), p, 0, max) == Err(UnsupportedShape);
    assert Generate(p, 1, max) == Err(UnsupportedShape);
  }
}
