/**
 * The duplicate-ceiling scenario: `max + 1` MsgSend messages that differ
 * only by one extra key, the message's own index, holding the empty
 * string. Every message's root struct is therefore a different definition
 * under the same base name `TypeMsgSend`, so message `k` takes slot `k`,
 * and the message after the last slot cannot be registered.
 */
module CapacityScenario {
  import opened Strings
  import opened Outcomes
  import opened JsonValues
  import opened KeySort
  import opened Eip712Schema
  import opened TypeRegistry
  import opened MessageTypes
  import opened PayloadTypes
  import opened CreateTypesCases
  import opened ErrorScenarios

  const MsgSendBase := "TypeMsgSend"

  /** The extra entry of message `k`: its index as the key, the empty string as the value. */
  function IndexEntry(k: nat): Entry {
    (Dec(k), JStr(""))
  }

  /** The MsgSend fixture with the index entry added. */
  function IndexedMsg(typeUrl: string, addr: string, amount: string, denom: string, k: nat): Json {
    JObj(MsgSend(typeUrl, addr, amount, denom).entries + [IndexEntry(k)])
  }

  /** The `value` object every indexed message shares. */
  function SendValue(addr: string, amount: string, denom: string): Json {
    JObj(ValueEntries(addr, JObj(AmountEntries(JStr(amount), denom))))
  }

  /** The root struct of message `k`: the index field sorts before `type` and `value`. */
  function IndexedFields(k: nat): seq<Field> {
    [Field(Dec(k), StringType), Field("type", StringType), Field("value", "TypeValue0")]
  }

  /** A table with the shared `amount` and `value` structs registered. */
  function WithValueTypes(t: Types): Types {
    t["TypeValueAmount0" := AmountFields]["TypeValue0" := ValueFields]
  }

  /** The table after the first `k` indexed messages. */
  function IndexedTable(k: nat): Types {
    if k == 0 then map[]
    else WithValueTypes(IndexedTable(k - 1))[Slot(MsgSendBase, k - 1) := IndexedFields(k - 1)]
  }

  // ---------------------------------------------------------------------
  // One message.
  // ---------------------------------------------------------------------

  /** Decimal digits sort before the lower-case letters that start `type` and `value`. */
  lemma DigitsFirst(k: nat)
    ensures LexLess(Dec(k), "type") && LexLess("type", "value")
  {
    var d := Dec(k);
    assert d[0] <= '9' < 't' == "type"[0];
  }

  lemma IndexedSorted(typeUrl: string, valueObj: Json, k: nat)
    ensures SortByKey(MessageEntries(typeUrl, valueObj) + [IndexEntry(k)])
            == [IndexEntry(k)] + MessageEntries(typeUrl, valueObj)
  {
    var kvs := MessageEntries(typeUrl, valueObj) + [IndexEntry(k)];
    assert kvs == [kvs[0], kvs[1], IndexEntry(k)];
    DigitsFirst(k);
    SortFront(IndexEntry(k), kvs[0], kvs[1]);
  }

  lemma IndexedFlatFields(typeUrl: string, k: nat)
    ensures var flat := [IndexEntry(k), ("type", JStr(typeUrl))];
            && (forall i :: 0 <= i < |flat| ==> Flat(flat[i].1))
            && FlatFieldsOf(flat) == [Field(Dec(k), StringType), Field("type", StringType)]
  {
    var flat := [IndexEntry(k), ("type", JStr(typeUrl))];
    FlatFieldsOne(("type", JStr(typeUrl)));
    assert flat[1..] == [("type", JStr(typeUrl))];
  }

  /** The index and `type` are strings; `value` is typed as its own struct. */
  lemma IndexedRootFields(types: Types, typeUrl: string, valueObj: Json, k: nat, parent: Json, max: nat)
    requires parent.JObj? && forall e :: e in [IndexEntry(k)] + MessageEntries(typeUrl, valueObj) ==> e in parent.entries
    ensures var child := TypeOfValue(types, "TypeValue", valueObj, max);
            BuildFields(types, TypePrefix, [IndexEntry(k)] + MessageEntries(typeUrl, valueObj), parent, max)
              == if child.Err? then Err(child.error)
                 else Ok(([Field(Dec(k), StringType), Field("type", StringType), Field("value", child.value.0)], child.value.1))
  {
    var flat := [IndexEntry(k), ("type", JStr(typeUrl))];
    assert [IndexEntry(k)] + MessageEntries(typeUrl, valueObj) == flat + [("value", valueObj)];
    IndexedFlatFields(typeUrl, k);
    ChildNames();
    FlatThenOne(types, TypePrefix, flat, ("value", valueObj), parent, max);
    var child := TypeOfValue(types, "TypeValue", valueObj, max);
    if child.Ok? {
      assert [Field(Dec(k), StringType), Field("type", StringType)] + [Field("value", child.value.0)]
             == [Field(Dec(k), StringType), Field("type", StringType), Field("value", child.value.0)];
    }
  }

  lemma IndexedRoot(types: Types, typeUrl: string, valueObj: Json, k: nat, max: nat)
    ensures var child := TypeOfValue(types, "TypeValue", valueObj, max);
            BuildStruct(types, MsgSendBase, TypePrefix, MessageEntries(typeUrl, valueObj) + [IndexEntry(k)], max)
              == if child.Err? then Err(child.error)
                 else Register(child.value.1, MsgSendBase, [Field(Dec(k), StringType), Field("type", StringType), Field("value", child.value.0)], max)
  {
    var kvs := MessageEntries(typeUrl, valueObj) + [IndexEntry(k)];
    IndexedSorted(typeUrl, valueObj, k);
    BuildStructStep(types, MsgSendBase, TypePrefix, kvs, max);
    IndexedRootFields(types, typeUrl, valueObj, k, JObj(kvs), max);
  }

  /** Over a table that holds the shared structs or leaves their slots free, `value` lands in `TypeValue0`. */
  lemma SharedValue(t: Types, addr: string, amount: string, denom: string, max: nat)
    requires max >= 1
    requires "TypeValueAmount0" !in t || t["TypeValueAmount0"] == AmountFields
    requires "TypeValue0" !in t || t["TypeValue0"] == ValueFields
    ensures TypeOfValue(t, "TypeValue", SendValue(addr, amount, denom), max) == Ok(("TypeValue0", WithValueTypes(t)))
  {
    SlotNames();
    MsgSendValue(t, addr, JStr(amount), denom, max);
    assert AmountFieldsOf(JStr(amount)) == AmountFields;
    RegisterFirst(t, "TypeValueAmount", AmountFields, max);
    var t1 := t["TypeValueAmount0" := AmountFields];
    assert [Field("amount", "TypeValueAmount0"), Field("recipient", StringType)] == ValueFields;
    RegisterFirst(t1, "TypeValue", ValueFields, max);
  }

  // ---------------------------------------------------------------------
  // The table of the first `k` messages.
  // ---------------------------------------------------------------------

  /** No root slot collides with the shared struct names. */
  lemma SlotNotShared(j: nat)
    ensures Slot(MsgSendBase, j) != "TypeValueAmount0" && Slot(MsgSendBase, j) != "TypeValue0"
  {
    assert Slot(MsgSendBase, j)[4] == 'M';
  }

  lemma IndexedFieldsDistinct(j: nat, k: nat)
    requires j != k
    ensures IndexedFields(j) != IndexedFields(k)
  {
    if IndexedFields(j) == IndexedFields(k) {
      assert Dec(j) == IndexedFields(j)[0].name;
      DecInjective(j, k);
    }
  }

  /** Slots below `k` hold the earlier messages' roots, slots from `k` on are free, and the shared structs are there. */
  lemma {:induction false} IndexedTableFacts(k: nat)
    ensures k > 0 ==> "TypeValueAmount0" in IndexedTable(k) && IndexedTable(k)["TypeValueAmount0"] == AmountFields
    ensures k > 0 ==> "TypeValue0" in IndexedTable(k) && IndexedTable(k)["TypeValue0"] == ValueFields
    ensures forall j :: 0 <= j < k ==> (Slot(MsgSendBase, j) in IndexedTable(k)
                                       && IndexedTable(k)[Slot(MsgSendBase, j)] == IndexedFields(j))
    ensures forall j: nat :: k <= j ==> Slot(MsgSendBase, j) !in IndexedTable(k)
  {
    if k > 0 {
      IndexedTableFacts(k - 1);
      var prev := WithValueTypes(IndexedTable(k - 1));
      var last := Slot(MsgSendBase, k - 1);
      SlotNotShared(k - 1);
      forall j | 0 <= j < k - 1
        ensures Slot(MsgSendBase, j) in IndexedTable(k) && IndexedTable(k)[Slot(MsgSendBase, j)] == IndexedFields(j)
      {
        SlotNotShared(j);
      }
      forall j: nat | k <= j
        ensures Slot(MsgSendBase, j) !in IndexedTable(k)
      {
        SlotNotShared(j);
        if Slot(MsgSendBase, j) == last {
          SlotInjective(MsgSendBase, j, k - 1);
        }
      }
    }
  }

  /** Message `k`'s root takes slot `k` while slots remain, and hits the ceiling after the last one. */
  lemma IndexedRegister(k: nat, max: nat)
    requires k <= max
    ensures Register(WithValueTypes(IndexedTable(k)), MsgSendBase, IndexedFields(k), max)
            == if k < max then Ok((Slot(MsgSendBase, k), IndexedTable(k + 1)))
               else Err(DuplicateCapacity(MsgSendBase))
  {
    var t := WithValueTypes(IndexedTable(k));
    IndexedTableFacts(k);
    IndexedSlotsTaken(k, IndexedTable(k), t);
    if k < max {
      RegisterAt(t, MsgSendBase, IndexedFields(k), max, k);
    }
  }

  /** Over a table whose slots below `k` hold the earlier roots and whose later slots are free, slot `k` is the first free one. */
  lemma IndexedSlotsTaken(k: nat, before: Types, t: Types)
    requires t == WithValueTypes(before)
    requires forall j :: 0 <= j < k ==> Slot(MsgSendBase, j) in before && before[Slot(MsgSendBase, j)] == IndexedFields(j)
    requires forall j: nat :: k <= j ==> Slot(MsgSendBase, j) !in before
    ensures forall j :: 0 <= j < k ==> Taken(t, MsgSendBase, IndexedFields(k), j)
    ensures !Taken(t, MsgSendBase, IndexedFields(k), k)
  {
    forall j | 0 <= j < k
      ensures Taken(t, MsgSendBase, IndexedFields(k), j)
    {
      SlotHeld(before, t, j, k);
    }
    SlotNotShared(k);
  }

  /** A slot that holds an earlier root still holds it once the shared structs are added, and that root differs from message `k`'s. */
  lemma SlotHeld(before: Types, t: Types, j: nat, k: nat)
    requires t == WithValueTypes(before) && j < k
    requires Slot(MsgSendBase, j) in before && before[Slot(MsgSendBase, j)] == IndexedFields(j)
    ensures Taken(t, MsgSendBase, IndexedFields(k), j)
  {
    SlotNotShared(j);
    IndexedFieldsDistinct(j, k);
  }

  // ---------------------------------------------------------------------
  // The whole payload.
  // ---------------------------------------------------------------------

  lemma IndexedWellFormed(typeUrl: string, addr: string, amount: string, denom: string, k: nat)
    requires LastSegment(typeUrl) == "MsgSend"
    ensures var msg := IndexedMsg(typeUrl, addr, amount, denom, k);
            && msg.entries == MessageEntries(typeUrl, SendValue(addr, amount, denom)) + [IndexEntry(k)]
            && WellFormedMessage(msg) && Label(msg) == typeUrl
  {
    var msg := IndexedMsg(typeUrl, addr, amount, denom, k);
    assert |typeUrl| > 0 by {
      assert |LastSegment(typeUrl)| <= |typeUrl|;
    }
    IndexedEntries(typeUrl, addr, amount, denom, k);
    TypeThenValue(msg);
  }

  lemma IndexedEntries(typeUrl: string, addr: string, amount: string, denom: string, k: nat)
    ensures IndexedMsg(typeUrl, addr, amount, denom, k).entries
            == MessageEntries(typeUrl, SendValue(addr, amount, denom)) + [IndexEntry(k)]
  {
  }

  lemma MsgSendRootName(typeUrl: string)
    requires LastSegment(typeUrl) == "MsgSend"
    ensures RootTypeName(typeUrl) == MsgSendBase
  {
  }

  /** Message `k` over the table the first `k` messages leave. */
  lemma IndexedMessage(typeUrl: string, addr: string, amount: string, denom: string, k: nat, max: nat)
    requires LastSegment(typeUrl) == "MsgSend"
    requires max >= 1 && k <= max
    ensures var msg := IndexedMsg(typeUrl, addr, amount, denom, k);
            && WellFormedMessage(msg) && Label(msg) == typeUrl
            && BuildStruct(IndexedTable(k), RootTypeName(typeUrl), TypePrefix, msg.entries, max)
               == if k < max then Ok((Slot(MsgSendBase, k), IndexedTable(k + 1)))
                  else Err(DuplicateCapacity(MsgSendBase))
  {
    var v := SendValue(addr, amount, denom);
    IndexedWellFormed(typeUrl, addr, amount, denom, k);
    MsgSendRootName(typeUrl);
    IndexedTableFacts(k);
    SharedValue(IndexedTable(k), addr, amount, denom, max);
    IndexedRoot(IndexedTable(k), typeUrl, v, k, max);
    IndexedRegister(k, max);
  }

  /** The payload the test builds: slot `k` holds the MsgSend with index entry `k`. */
  predicate IndexedPayload(msgs: seq<Json>, typeUrl: string, addr: string, amount: string, denom: string) {
    forall k :: 0 <= k < |msgs| ==> msgs[k] == IndexedMsg(typeUrl, addr, amount, denom, k)
  }

  /** A payload whose slots below `count` hold the indexed messages. */
  predicate IndexedSlots(p: map<string, Json>, count: nat, typeUrl: string, addr: string, amount: string, denom: string) {
    forall k :: 0 <= k < count ==> MsgField(k) in p && p[MsgField(k)] == IndexedMsg(typeUrl, addr, amount, denom, k)
  }

  /** Slot `j` holds a well-formed message whose root, over table `before`, takes slot `j` of `TypeMsgSend` and leaves `after`. */
  predicate SlotStep(p: map<string, Json>, j: nat, max: nat, before: Types, after: Types) {
    && MsgField(j) in p && WellFormedMessage(p[MsgField(j)])
    && BuildStruct(before, RootTypeName(Label(p[MsgField(j)])), TypePrefix, p[MsgField(j)].entries, max)
       == Ok((Slot(MsgSendBase, j), after))
  }

  /** Slot `j` holds a well-formed message whose root, over table `before`, finds every slot of `TypeMsgSend` taken. */
  predicate SlotFull(p: map<string, Json>, j: nat, max: nat, before: Types) {
    && MsgField(j) in p && WellFormedMessage(p[MsgField(j)])
    && BuildStruct(before, RootTypeName(Label(p[MsgField(j)])), TypePrefix, p[MsgField(j)].entries, max)
       == Err(DuplicateCapacity(MsgSendBase))
  }

  /** In a payload of indexed messages, slot `j` below the ceiling adds root `TypeMsgSend<j>` and takes `IndexedTable(j)` to `IndexedTable(j + 1)`; slot `max` is full. */
  lemma IndexedSlotSteps(p: map<string, Json>, count: nat, typeUrl: string, addr: string, amount: string, denom: string, max: nat)
    requires LastSegment(typeUrl) == "MsgSend" && max >= 1 && count <= max + 1
    requires IndexedSlots(p, count, typeUrl, addr, amount, denom)
    ensures forall j :: 0 <= j < count && j < max ==> AddsSlot(p, j, max, IndexedTable(j), IndexedTable(j + 1))
    ensures count == max + 1 ==> SlotFull(p, max, max, IndexedTable(max))
  {
    forall j | 0 <= j < count && j < max
      ensures AddsSlot(p, j, max, IndexedTable(j), IndexedTable(j + 1))
    {
      assert p[MsgField(j)] == IndexedMsg(typeUrl, addr, amount, denom, j);
      IndexedMessage(typeUrl, addr, amount, denom, j, max);
      SlotAdds(p, j, max, IndexedTable(j), IndexedTable(j + 1));
    }
    if count == max + 1 {
      assert p[MsgField(max)] == IndexedMsg(typeUrl, addr, amount, denom, max);
      IndexedMessage(typeUrl, addr, amount, denom, max, max);
    }
  }

  /** Adding message `j` to the run's state over table `before` leaves table `after` and appends `msg<j>: TypeMsgSend<j>`. */
  predicate AddsSlot(p: map<string, Json>, j: nat, max: nat, before: Types, after: Types) {
    AddMessage(State(before, RootFields(j)), p, j, max) == Ok(State(after, RootFields(j + 1)))
  }

  /** A slot whose root takes the next slot of `TypeMsgSend` adds that slot to the run. */
  lemma SlotAdds(p: map<string, Json>, j: nat, max: nat, before: Types, after: Types)
    requires SlotStep(p, j, max, before, after)
    ensures AddsSlot(p, j, max, before, after)
  {
    AddMessageStep(State(before, RootFields(j)), p, j, max);
  }

  /**
   * A run over slots each of which adds the next slot of `TypeMsgSend`:
   * after `k` slots the table is `tables(k)` and the transaction fields are
   * `msg0: TypeMsgSend0`, ... in order.
   */
  lemma {:induction false} IndexedRun(p: map<string, Json>, k: nat, max: nat, tables: nat -> Types)
    requires tables(0) == map[]
    requires forall j :: 0 <= j < k ==> AddsSlot(p, j, max, tables(j), tables(j + 1))
    ensures Generate(p, k, max) == Ok(State(tables(k), RootFields(k)))
  {
    if k > 0 {
      var j := k - 1;
      assert AddsSlot(p, j, max, tables(j), tables(j + 1));
      IndexedRun(p, j, max, tables);
    }
  }

  /** A full slot after a successful run fails the run. */
  lemma CeilingSlot(p: map<string, Json>, max: nat, st: State, before: Types)
    requires SlotFull(p, max, max, before) && Generate(p, max, max) == Ok(st) && st.types == before
    ensures Generate(p, max + 1, max) == Err(DuplicateCapacity(MsgSendBase))
  {
    AddMessageStep(st, p, max, max);
  }

  /** The transaction field of message `j`: `msg<j>` typed `TypeMsgSend<j>`. */
  function RootField(j: nat): Field {
    Field(MsgField(j), Slot(MsgSendBase, j))
  }

  /** The transaction fields of the first `k` indexed messages. */
  function RootFields(k: nat): seq<Field> {
    if k == 0 then [] else RootFields(k - 1) + [RootField(k - 1)]
  }

  /**
   * `max + 1` messages whose roots are all different definitions: the
   * first `max` fit, and the last exhausts the ceiling of `TypeMsgSend`.
   */
  lemma CapacityReached(base: Types, msgs: seq<Json>, typeUrl: string, addr: string, amount: string, denom: string, max: nat)
    requires TxName in base && LastSegment(typeUrl) == "MsgSend" && max >= 1
    requires |msgs| == max + 1 && IndexedPayload(msgs, typeUrl, addr, amount, denom)
    ensures Generate(PayloadOf(msgs), max, max).Ok?
    ensures Eip712Types(base, PayloadOf(msgs), max + 1, max) == Err(DuplicateCapacity(MsgSendBase))
  {
    IndexedPayloadSlots(msgs, typeUrl, addr, amount, denom);
    CeilingHit(PayloadOf(msgs), typeUrl, addr, amount, denom, max);
  }

  /** The payload built from the indexed messages holds message `k` in slot `k`. */
  lemma IndexedPayloadSlots(msgs: seq<Json>, typeUrl: string, addr: string, amount: string, denom: string)
    requires IndexedPayload(msgs, typeUrl, addr, amount, denom)
    ensures IndexedSlots(PayloadOf(msgs), |msgs|, typeUrl, addr, amount, denom)
  {
  }

  /** Over any payload holding `max + 1` indexed messages, the first `max` fit and the last one does not. */
  lemma CeilingHit(p: map<string, Json>, typeUrl: string, addr: string, amount: string, denom: string, max: nat)
    requires LastSegment(typeUrl) == "MsgSend" && max >= 1
    requires IndexedSlots(p, max + 1, typeUrl, addr, amount, denom)
    ensures Generate(p, max, max) == Ok(State(IndexedTable(max), RootFields(max)))
    ensures Generate(p, max + 1, max) == Err(DuplicateCapacity(MsgSendBase))
  {
    IndexedSlotSteps(p, max + 1, typeUrl, addr, amount, denom, max);
    IndexedRun(p, max, max, IndexedTable);
    CeilingSlot(p, max, State(IndexedTable(max), RootFields(max)), IndexedTable(max));
  }
}
