/**
 * The payload driver: for every declared message slot `msg<i>`, in index
 * order, build the message's struct types and append `{msg<i>, root}` to
 * the transaction type; finally merge everything into the base table.
 */
module PayloadTypes {
  import opened Strings
  import opened Outcomes
  import opened JsonValues
  import opened Eip712Schema
  import opened TypeRegistry
  import opened MessageTypes

  /** The transaction envelope type of the base table. */
  const TxName := "Tx"
  /** Prefix of every generated type name. */
  const TypePrefix := "Type"
  const TypeKey := "type"
  const ValueKey := "value"

  /** The payload key of message `i`. */
  function MsgField(i: nat): string {
    "msg" + Dec(i)
  }

  lemma MsgFieldInjective(i: nat, j: nat)
    requires MsgField(i) == MsgField(j)
    ensures i == j
  {
    assert Dec(i) == MsgField(i)[3..];
    assert Dec(j) == MsgField(j)[3..];
    DecInjective(i, j);
  }

  /** The base name of a message's root struct: `Type` and the typeUrl after its last '/'. */
  function RootTypeName(typeUrl: string): string {
    TypePrefix + LastSegment(typeUrl)
  }

  /** A message slot the driver accepts: an object with a non-empty `type` string and an object `value`. */
  predicate WellFormedMessage(v: Json) {
    && v.JObj?
    && Get(v.entries, TypeKey).Some? && Get(v.entries, TypeKey).value.JStr?
    && |Get(v.entries, TypeKey).value.s| > 0
    && Get(v.entries, ValueKey).Some? && Get(v.entries, ValueKey).value.JObj?
  }

  /** The `type` typeUrl of a well-formed message. */
  function Label(v: Json): string
    requires WellFormedMessage(v)
  {
    Get(v.entries, TypeKey).value.s
  }

  /** The types registered so far and the transaction's message fields so far. */
  datatype State = State(types: Types, tx: seq<Field>)

  /** Processes message slot `i`. */
  function AddMessage(st: State, payload: map<string, Json>, i: nat, max: nat): (r: Result<State>)
    ensures r.Ok? ==> MsgField(i) in payload && WellFormedMessage(payload[MsgField(i)])
    ensures !(MsgField(i) in payload && WellFormedMessage(payload[MsgField(i)])) ==> r == Err(MalformedPayload(MsgField(i)))
    ensures r.Ok? ==> && Extends(st.types, r.value.types)
                      && |r.value.tx| == |st.tx| + 1 && r.value.tx[..|st.tx|] == st.tx
                      && r.value.tx[|st.tx|].name == MsgField(i)
  {
    var key := MsgField(i);
    if key !in payload then Err(MalformedPayload(key))
    else
      match payload[key]
      case JObj(kvs) =>
        (match Get(kvs, TypeKey)
         case Some(JStr(typeUrl)) =>
           if |typeUrl| == 0 then Err(MalformedPayload(key))
           else if !(Get(kvs, ValueKey).Some? && Get(kvs, ValueKey).value.JObj?) then Err(MalformedPayload(key))
           else
             var root :- BuildStruct(st.types, RootTypeName(typeUrl), TypePrefix, kvs, max);
             Ok(State(root.1, st.tx + [Field(key, root.0)]))
         case _ => Err(MalformedPayload(key)))
      case _ => Err(MalformedPayload(key))
  }

  /** Processes slots `msg0` .. `msg<n-1>` in order, from an empty registry. */
  function Generate(payload: map<string, Json>, n: nat, max: nat): (r: Result<State>)
    ensures r.Ok? ==> |r.value.tx| == n
    ensures r.Ok? ==> forall i :: 0 <= i < n ==> r.value.tx[i].name == MsgField(i)
    ensures r.Ok? ==> forall i :: 0 <= i < n ==> MsgField(i) in payload
  {
    if n == 0 then Ok(State(map[], []))
    else
      var st :- Generate(payload, n - 1, max);
      AddMessage(st, payload, n - 1, max)
  }

  /** The base table with the message fields appended to `Tx`, overlaid with the generated types. */
  function Merge(base: Types, st: State): Types
    requires TxName in base
  {
    base[TxName := base[TxName] + st.tx] + st.types
  }

  /** Generates the complete EIP-712 types for a payload of `n` messages. */
  function Eip712Types(base: Types, payload: map<string, Json>, n: nat, max: nat): (r: Result<Types>)
    requires TxName in base
    ensures r.Ok? <==> Generate(payload, n, max).Ok?
    ensures r.Err? ==> r.error == Generate(payload, n, max).error
    ensures r.Ok? ==> var st := Generate(payload, n, max).value;
                      && r.value.Keys == base.Keys + st.types.Keys
                      && r.value[TxName] == base[TxName] + st.tx
                      && (forall t :: t in st.types ==> r.value[t] == st.types[t])
                      && (forall t :: t in base && t != TxName && t !in st.types ==> r.value[t] == base[t])
  {
    var st :- Generate(payload, n, max);
    GeneratedNames(payload, n, max);
    Ok(Merge(base, st))
  }

  // ---------------------------------------------------------------------
  // Properties of the whole payload.
  // ---------------------------------------------------------------------

  /** Every generated name starts with `Type`, so none of them is `Tx`. */
  lemma {:induction false} GeneratedNames(payload: map<string, Json>, n: nat, max: nat)
    ensures Generate(payload, n, max).Ok? ==> NamesStartWith(Generate(payload, n, max).value.types, TypePrefix)
    ensures Generate(payload, n, max).Ok? ==> TxName !in Generate(payload, n, max).value.types
  {
    var r := Generate(payload, n, max);
    if n > 0 {
      GeneratedNames(payload, n - 1, max);
      if r.Ok? {
        GenerateLast(payload, n, max);
        NamesStep(Generate(payload, n - 1, max).value, payload, n - 1, max, r.value);
      }
    }
    if r.Ok? {
      PrefixedNotTx(r.value.types);
    }
  }

  /** Adding a message to a table of `Type` names leaves only `Type` names. */
  lemma NamesStep(st: State, payload: map<string, Json>, i: nat, max: nat, r: State)
    requires AddMessage(st, payload, i, max) == Ok(r) && NamesStartWith(st.types, TypePrefix)
    ensures NamesStartWith(r.types, TypePrefix)
  {
    AddMessageRoot(st, payload, i, max, r);
    var msg := payload[MsgField(i)];
    RootNames(st.types, Label(msg), msg.entries, max, r.tx[|st.tx|].typ, r.types);
  }

  /** A root struct built over a table of `Type` names leaves only `Type` names. */
  lemma RootNames(before: Types, typeUrl: string, kvs: seq<Entry>, max: nat, root: string, after: Types)
    requires NamesStartWith(before, TypePrefix)
    requires BuildStruct(before, RootTypeName(typeUrl), TypePrefix, kvs, max) == Ok((root, after))
    ensures NamesStartWith(after, TypePrefix)
  {
    PrefixStarts(TypePrefix, LastSegment(typeUrl));
    PrefixStarts(TypePrefix, []);
    assert TypePrefix + [] == TypePrefix;
    BuildStructNames(before, RootTypeName(typeUrl), TypePrefix, kvs, max, TypePrefix);
  }

  lemma PrefixStarts(p: string, s: string)
    ensures StartsWith(p + s, p)
  {
    assert (p + s)[..|p|] == p;
  }

  /** `Tx` is too short to start with `Type`. */
  lemma PrefixedNotTx(types: Types)
    requires NamesStartWith(types, TypePrefix)
    ensures TxName !in types
  {
    assert |TxName| < |TypePrefix|;
  }

  /**
   * The generated table is closed and sorted, and each message is described
   * by the struct its `Tx` field names.
   */
  lemma {:induction false} GenerateSound(payload: map<string, Json>, n: nat, max: nat)
    requires forall i :: 0 <= i < n && MsgField(i) in payload ==> Valid(payload[MsgField(i)])
    ensures var r := Generate(payload, n, max);
            r.Ok? ==> && Closed(r.value.types) && TableSorted(r.value.types)
                      && forall i :: 0 <= i < n ==>
                           r.value.tx[i].typ in r.value.types
                           && Conforms(r.value.types, r.value.tx[i].typ, payload[MsgField(i)])
  {
    if n > 0 {
      var prev := Generate(payload, n - 1, max);
      if prev.Ok? {
        GenerateSound(payload, n - 1, max);
        var r := AddMessage(prev.value, payload, n - 1, max);
        assert Generate(payload, n, max) == r;
        if r.Ok? {
          SoundStep(prev.value, payload, n - 1, max, r.value);
        }
      }
    }
  }

  /** Adding a valid message to a closed, sorted table keeps it so, and every message so far still conforms. */
  lemma SoundStep(st: State, payload: map<string, Json>, i: nat, max: nat, r: State)
    requires |st.tx| == i && forall k :: 0 <= k < i ==> MsgField(k) in payload
    requires forall k :: 0 <= k < i ==> st.tx[k].typ in st.types && Conforms(st.types, st.tx[k].typ, payload[MsgField(k)])
    requires AddMessage(st, payload, i, max) == Ok(r)
    requires MsgField(i) in payload ==> Valid(payload[MsgField(i)])
    requires Closed(st.types) && TableSorted(st.types)
    ensures MsgField(i) in payload && |r.tx| == i + 1
    ensures Closed(r.types) && TableSorted(r.types)
    ensures r.tx[i].typ in r.types && Conforms(r.types, r.tx[i].typ, payload[MsgField(i)])
    ensures forall k :: 0 <= k < i ==> r.tx[k].typ in r.types && Conforms(r.types, r.tx[k].typ, payload[MsgField(k)])
  {
    AddMessageRoot(st, payload, i, max, r);
    var msg := payload[MsgField(i)];
    BuildStructSound(st.types, RootTypeName(Label(msg)), TypePrefix, msg.entries, max);
    forall k | 0 <= k < i
      ensures r.tx[k].typ in r.types && Conforms(r.types, r.tx[k].typ, payload[MsgField(k)])
    {
      assert r.tx[k] == st.tx[k];
      ConformsMonotone(st.types, r.types, st.tx[k].typ, payload[MsgField(k)]);
    }
  }

  /** A successful run also succeeded on every shorter prefix of the slots, with a smaller table. */
  lemma {:induction false} GeneratePrefix(payload: map<string, Json>, m: nat, n: nat, max: nat)
    requires m <= n && Generate(payload, n, max).Ok?
    ensures Generate(payload, m, max).Ok?
    ensures Extends(Generate(payload, m, max).value.types, Generate(payload, n, max).value.types)
    ensures Generate(payload, n, max).value.tx[..m] == Generate(payload, m, max).value.tx
    decreases n
  {
    if m < n {
      GenerateGrows(payload, n, max);
      GeneratePrefix(payload, m, n - 1, max);
      var a, b, c := Generate(payload, m, max).value, Generate(payload, n - 1, max).value, Generate(payload, n, max).value;
      ExtendsTransitive(a.types, b.types, c.types);
      PrefixChain(a.tx, b.tx, c.tx, n - 1, m);
    } else {
      var tx := Generate(payload, n, max).value.tx;
      assert tx[..m] == tx;
    }
  }

  /** A successful run of `n` slots keeps the types and fields of the run of `n - 1`. */
  lemma GenerateGrows(payload: map<string, Json>, n: nat, max: nat)
    requires n > 0 && Generate(payload, n, max).Ok?
    ensures Generate(payload, n - 1, max).Ok?
    ensures var b, c := Generate(payload, n - 1, max).value, Generate(payload, n, max).value;
            Extends(b.types, c.types) && c.tx[..n - 1] == b.tx
  {
    GenerateLast(payload, n, max);
    AddMessageGrows(Generate(payload, n - 1, max).value, payload, n - 1, max, Generate(payload, n, max).value);
  }

  /** A successful run of `n` slots is slot `n - 1` added to the successful run of `n - 1`. */
  lemma GenerateLast(payload: map<string, Json>, n: nat, max: nat)
    requires n > 0 && Generate(payload, n, max).Ok?
    ensures Generate(payload, n - 1, max).Ok?
    ensures AddMessage(Generate(payload, n - 1, max).value, payload, n - 1, max) == Generate(payload, n, max)
  {
  }

  lemma PrefixChain<T>(a: seq<T>, b: seq<T>, c: seq<T>, k: nat, m: nat)
    requires m <= k <= |c| && c[..k] == b && b[..m] == a
    ensures c[..m] == a
  {
    assert c[..k][..m] == c[..m];
  }

  /** An added message keeps every earlier type and earlier field. */
  lemma AddMessageGrows(st: State, payload: map<string, Json>, i: nat, max: nat, r: State)
    requires AddMessage(st, payload, i, max) == Ok(r)
    ensures Extends(st.types, r.types) && |st.tx| <= |r.tx| && r.tx[..|st.tx|] == st.tx
  {
  }

  /** A message that was added was well-formed, and its root struct is the new field's type. */
  lemma AddMessageRoot(st: State, payload: map<string, Json>, i: nat, max: nat, r: State)
    requires AddMessage(st, payload, i, max) == Ok(r)
    ensures MsgField(i) in payload && WellFormedMessage(payload[MsgField(i)])
    ensures var msg := payload[MsgField(i)];
            BuildStruct(st.types, RootTypeName(Label(msg)), TypePrefix, msg.entries, max) == Ok((r.tx[|st.tx|].typ, r.types))
  {
    AddMessageStep(st, payload, i, max);
  }

  /** Once a run fails, every longer run fails with the same error: later slots are never looked at. */
  lemma {:induction false} GenerateStops(payload: map<string, Json>, m: nat, n: nat, max: nat)
    requires m <= n && Generate(payload, m, max).Err?
    ensures Generate(payload, n, max) == Generate(payload, m, max)
    decreases n
  {
    if m < n {
      GenerateStops(payload, m, n - 1, max);
    }
  }

  /** A malformed slot after a successful prefix is the error of every run that reaches it. */
  lemma MalformedStops(payload: map<string, Json>, i: nat, n: nat, max: nat)
    requires i < n && Generate(payload, i, max).Ok?
    requires !(MsgField(i) in payload && WellFormedMessage(payload[MsgField(i)]))
    ensures Generate(payload, n, max) == Err(MalformedPayload(MsgField(i)))
  {
    GenerateStops(payload, i + 1, n, max);
  }

  /** Slot `i` is missing or malformed, every slot before it succeeded, and `e` names it. */
  predicate FirstMalformed(payload: map<string, Json>, max: nat, i: nat, e: Error) {
    && e == MalformedPayload(MsgField(i))
    && !(MsgField(i) in payload && WellFormedMessage(payload[MsgField(i)]))
    && Generate(payload, i, max).Ok?
  }

  /**
   * The converse of `MalformedStops`: a `MalformedPayload` error always
   * names the first slot that is missing or malformed.
   */
  lemma {:induction false} MalformedOnlyFromSlot(payload: map<string, Json>, n: nat, max: nat)
    ensures var r := Generate(payload, n, max);
            r.Err? && r.error.MalformedPayload? ==> exists i :: 0 <= i < n && FirstMalformed(payload, max, i, r.error)
  {
    if n > 0 {
      var prev := Generate(payload, n - 1, max);
      if prev.Err? {
        GenerateStops(payload, n - 1, n, max);
        MalformedOnlyFromSlot(payload, n - 1, max);
      } else {
        MalformedAtLast(payload, n, max);
      }
    }
  }

  /** After a successful prefix, a `MalformedPayload` error of the next slot is that slot's. */
  lemma MalformedAtLast(payload: map<string, Json>, n: nat, max: nat)
    requires n > 0 && Generate(payload, n - 1, max).Ok?
    ensures var r := Generate(payload, n, max);
            r.Err? && r.error.MalformedPayload? ==> FirstMalformed(payload, max, n - 1, r.error)
  {
    AddMessageMalformed(Generate(payload, n - 1, max).value, payload, n - 1, max);
  }

  /** A single slot fails with `MalformedPayload` only when it is missing or malformed, and the error names it. */
  lemma AddMessageMalformed(st: State, payload: map<string, Json>, i: nat, max: nat)
    ensures var r := AddMessage(st, payload, i, max);
            r.Err? && r.error.MalformedPayload? ==>
              r.error == MalformedPayload(MsgField(i)) && !(MsgField(i) in payload && WellFormedMessage(payload[MsgField(i)]))
  {
    if MsgField(i) in payload && WellFormedMessage(payload[MsgField(i)]) {
      var msg := payload[MsgField(i)];
      AddMessageStep(st, payload, i, max);
      BuildStructShape(st.types, RootTypeName(Label(msg)), TypePrefix, msg.entries, max);
    }
  }

  /** A well-formed slot fails exactly when its root struct fails, and otherwise appends that struct. */
  lemma AddMessageStep(st: State, payload: map<string, Json>, i: nat, max: nat)
    requires MsgField(i) in payload && WellFormedMessage(payload[MsgField(i)])
    ensures var msg := payload[MsgField(i)];
            var root := BuildStruct(st.types, RootTypeName(Label(msg)), TypePrefix, msg.entries, max);
            AddMessage(st, payload, i, max)
              == if root.Err? then Err(root.error)
                 else Ok(State(root.value.1, st.tx + [Field(MsgField(i), root.value.0)]))
  {
    var msg := payload[MsgField(i)];
    assert Get(msg.entries, TypeKey) == Some(JStr(Label(msg)));
  }

  /** A run extends by one slot exactly when that slot is well-formed and its root struct builds. */
  lemma GenerateNext(payload: map<string, Json>, n: nat, max: nat, st: State, root: string, types: Types)
    requires Generate(payload, n, max) == Ok(st)
    requires MsgField(n) in payload && WellFormedMessage(payload[MsgField(n)])
    requires var msg := payload[MsgField(n)];
             BuildStruct(st.types, RootTypeName(Label(msg)), TypePrefix, msg.entries, max) == Ok((root, types))
    ensures Generate(payload, n + 1, max) == Ok(State(types, st.tx + [Field(MsgField(n), root)]))
  {
    AddMessageStep(st, payload, n, max);
  }

  /**
   * The naming scheme for message `i` of a successful run. Its `Tx` field
   * names `Type` followed by the last segment of the message's typeUrl and a
   * suffix below the ceiling, and that struct's `value` field names
   * `TypeValue` with such a suffix.
   */
  lemma MessageTypeNamed(payload: map<string, Json>, n: nat, max: nat, i: nat)
    requires i < n && Generate(payload, n, max).Ok?
    ensures MsgField(i) in payload && WellFormedMessage(payload[MsgField(i)])
    ensures var msg := payload[MsgField(i)];
            var out := Generate(payload, n, max).value;
            && out.tx[i].typ in out.types
            && IsSlot(out.tx[i].typ, RootTypeName(Label(msg)), max)
            && (exists k :: 0 <= k < max && Field(ValueKey, Slot("TypeValue", k)) in out.types[out.tx[i].typ])
  {
    var st, r := SlotOf(payload, n, max, i);
    StepNamed(st, payload, i, max, r);
    GrowsBetween(payload, i + 1, n, max, r, Generate(payload, n, max).value);
  }

  /** `MessageTypeNamed` for the step that adds message `i`. */
  lemma StepNamed(st: State, payload: map<string, Json>, i: nat, max: nat, r: State)
    requires AddMessage(st, payload, i, max) == Ok(r)
    ensures MsgField(i) in payload && WellFormedMessage(payload[MsgField(i)])
    ensures var msg := payload[MsgField(i)];
            var root := r.tx[|st.tx|].typ;
            && root in r.types
            && IsSlot(root, RootTypeName(Label(msg)), max)
            && (exists k :: 0 <= k < max && Field(ValueKey, Slot("TypeValue", k)) in r.types[root])
  {
    AddMessageRoot(st, payload, i, max, r);
    var msg := payload[MsgField(i)];
    RootStructNamed(st.types, Label(msg), msg.entries, max);
  }

  /** A message root struct whose `value` is an object: the root's slot and its `value` field's slot. */
  lemma RootStructNamed(types: Types, typeUrl: string, kvs: seq<Entry>, max: nat)
    requires Get(kvs, ValueKey).Some? && Get(kvs, ValueKey).value.JObj?
    requires BuildStruct(types, RootTypeName(typeUrl), TypePrefix, kvs, max).Ok?
    ensures var (root, after) := BuildStruct(types, RootTypeName(typeUrl), TypePrefix, kvs, max).value;
            && root in after
            && IsSlot(root, RootTypeName(typeUrl), max)
            && (exists k :: 0 <= k < max && Field(ValueKey, Slot("TypeValue", k)) in after[root])
  {
    var j := Find(kvs, ValueKey).value;
    var child := Get(kvs, ValueKey).value.entries;
    assert kvs[j] == (ValueKey, JObj(child)) && kvs[j] in kvs;
    BuildStructSlot(types, RootTypeName(typeUrl), TypePrefix, kvs, max);
    ValueChildNamed(types, RootTypeName(typeUrl), kvs, max, child);
  }

  /** A root struct's field for an object `value` is typed by a slot of `TypeValue`. */
  lemma ValueChildNamed(types: Types, base: string, kvs: seq<Entry>, max: nat, child: seq<Entry>)
    requires (ValueKey, JObj(child)) in kvs && BuildStruct(types, base, TypePrefix, kvs, max).Ok?
    ensures var (root, after) := BuildStruct(types, base, TypePrefix, kvs, max).value;
            exists k :: 0 <= k < max && Field(ValueKey, Slot("TypeValue", k)) in after[root]
  {
    ValueStructName();
    ChildNamedAs(types, base, TypePrefix, kvs, max, ValueKey, child, "TypeValue");
  }

  /** The `value` object of a message is named `TypeValue`. */
  lemma ValueStructName()
    ensures TypePrefix + Capitalize(ValueKey) == "TypeValue"
  {
  }

  /** `BuildStructChildNamed` with the child's path given by name. */
  lemma ChildNamedAs(types: Types, base: string, path: string, kvs: seq<Entry>, max: nat, key: string, child: seq<Entry>, childPath: string)
    requires childPath == path + Capitalize(key)
    requires (key, JObj(child)) in kvs && BuildStruct(types, base, path, kvs, max).Ok?
    ensures var (root, after) := BuildStruct(types, base, path, kvs, max).value;
            exists k :: 0 <= k < max && Field(key, Slot(childPath, k)) in after[root]
  {
    BuildStructChildNamed(types, base, path, kvs, max, key, child);
  }

  /** Two identical messages get the same root type. */
  lemma IdenticalMessagesShareType(payload: map<string, Json>, n: nat, max: nat, i: nat, j: nat)
    requires i < j < n && Generate(payload, n, max).Ok?
    requires MsgField(i) in payload && MsgField(j) in payload
    requires payload[MsgField(i)] == payload[MsgField(j)]
    ensures Generate(payload, n, max).value.tx[i].typ == Generate(payload, n, max).value.tx[j].typ
  {
    var si, first := SlotOf(payload, n, max, i);
    var sj, again := SlotFrom(payload, n, max, i + 1, j, first);
    SameRoot(si, first, sj, again, payload, i, j, max);
  }

  /** A message identical to an earlier one registers nothing new. */
  lemma IdenticalMessageAddsNoType(payload: map<string, Json>, n: nat, max: nat, i: nat, j: nat)
    requires i < j < n && Generate(payload, n, max).Ok?
    requires MsgField(i) in payload && MsgField(j) in payload
    requires payload[MsgField(i)] == payload[MsgField(j)]
    ensures Generate(payload, j + 1, max).Ok? && Generate(payload, j, max).Ok?
    ensures Generate(payload, j + 1, max).value.types == Generate(payload, j, max).value.types
  {
    var si, first := SlotOf(payload, n, max, i);
    var sj, again := SlotFrom(payload, n, max, i + 1, j, first);
    SameRoot(si, first, sj, again, payload, i, j, max);
  }

  /** Slot `k` of a successful run: the step that adds it and the field it leaves in the run. */
  lemma SlotOf(payload: map<string, Json>, n: nat, max: nat, k: nat) returns (st: State, r: State)
    requires k < n && Generate(payload, n, max).Ok?
    ensures Generate(payload, k + 1, max) == Ok(r) && AddMessage(st, payload, k, max) == Ok(r)
    ensures |st.tx| == k && Generate(payload, n, max).value.tx[k] == r.tx[k]
  {
    st, r := RunAt(payload, k, n, max);
    TxAt(payload, k + 1, n, max, k, Generate(payload, n, max).value, r);
  }

  /** As `SlotOf`, over a table that extends the one an earlier run of `a` slots left. */
  lemma SlotFrom(payload: map<string, Json>, n: nat, max: nat, a: nat, k: nat, sa: State) returns (st: State, r: State)
    requires a <= k < n && Generate(payload, n, max).Ok? && Generate(payload, a, max) == Ok(sa)
    ensures Extends(sa.types, st.types)
    ensures Generate(payload, k, max) == Ok(st) && Generate(payload, k + 1, max) == Ok(r)
    ensures AddMessage(st, payload, k, max) == Ok(r)
    ensures |st.tx| == k && Generate(payload, n, max).value.tx[k] == r.tx[k]
  {
    st, r := RunAt(payload, k, n, max);
    GrowsBetween(payload, a, k, max, sa, st);
    TxAt(payload, k + 1, n, max, k, Generate(payload, n, max).value, r);
  }

  /** A shorter successful run's table is kept by a longer one. */
  lemma GrowsBetween(payload: map<string, Json>, a: nat, b: nat, max: nat, sa: State, sb: State)
    requires a <= b && Generate(payload, a, max) == Ok(sa) && Generate(payload, b, max) == Ok(sb)
    ensures Extends(sa.types, sb.types)
  {
    GeneratePrefix(payload, a, b, max);
  }

  /** The runs of `k` and `k + 1` slots inside a successful longer run, and the step between them. */
  lemma RunAt(payload: map<string, Json>, k: nat, n: nat, max: nat) returns (st: State, r: State)
    requires k < n && Generate(payload, n, max).Ok?
    ensures Generate(payload, k, max) == Ok(st) && Generate(payload, k + 1, max) == Ok(r)
    ensures AddMessage(st, payload, k, max) == Ok(r)
  {
    GeneratePrefix(payload, k + 1, n, max);
    GenerateLast(payload, k + 1, max);
    st, r := Generate(payload, k, max).value, Generate(payload, k + 1, max).value;
  }

  /** Field `i` of a successful run is field `i` of every shorter run that includes it. */
  lemma TxAt(payload: map<string, Json>, m: nat, n: nat, max: nat, i: nat, all: State, part: State)
    requires i < m <= n && Generate(payload, n, max) == Ok(all) && Generate(payload, m, max) == Ok(part)
    ensures |part.tx| == m && all.tx[i] == part.tx[i]
  {
    GeneratePrefix(payload, m, n, max);
    PrefixIndex(all.tx, part.tx, m, i);
  }

  /** The same message added again over a table that extends the first result reuses its root and adds nothing. */
  lemma SameRoot(st: State, first: State, before: State, again: State, payload: map<string, Json>, i: nat, j: nat, max: nat)
    requires AddMessage(st, payload, i, max) == Ok(first) && AddMessage(before, payload, j, max) == Ok(again)
    requires MsgField(i) in payload && MsgField(j) in payload && payload[MsgField(i)] == payload[MsgField(j)]
    requires Extends(first.types, before.types)
    ensures again.tx[|before.tx|].typ == first.tx[|st.tx|].typ && again.types == before.types
  {
    AddMessageRoot(st, payload, i, max, first);
    AddMessageRoot(before, payload, j, max, again);
    var msg := payload[MsgField(i)];
    BuildStructReuse(st.types, RootTypeName(Label(msg)), TypePrefix, msg.entries, max, before.types);
  }

  lemma PrefixIndex<T>(s: seq<T>, t: seq<T>, k: nat, i: nat)
    requires i < k <= |s| && s[..k] == t
    ensures s[i] == t[i]
  {
    assert s[..k][i] == s[i];
  }
}
