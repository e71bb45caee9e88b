/**
 * The dedup registry. A struct definition requested under a base name is
 * stored as `<base><n>` for the first suffix `n` whose slot is free, or
 * reuses `<base><n>` when that slot already holds an identical definition.
 * Reaching the duplicate ceiling without either is an error.
 */
module TypeRegistry {
  import opened Strings
  import opened Outcomes
  import opened Eip712Schema

  /** The name a definition gets at suffix index `k`. */
  function Slot(base: string, k: nat): string {
    base + Dec(k)
  }

  /** `name` is `base` followed by a suffix below the ceiling. */
  predicate IsSlot(name: string, base: string, max: nat) {
    exists k :: 0 <= k < max && name == Slot(base, k)
  }

  /** Slot `k` holds a different definition, so the search must move on. */
  predicate Taken(types: Types, base: string, fs: seq<Field>, k: nat) {
    Slot(base, k) in types && types[Slot(base, k)] != fs
  }

  /** Distinct suffix indices give distinct names. */
  lemma SlotInjective(base: string, j: nat, k: nat)
    requires Slot(base, j) == Slot(base, k)
    ensures j == k
  {
    assert Dec(j) == Slot(base, j)[|base|..];
    assert Dec(k) == Slot(base, k)[|base|..];
    DecInjective(j, k);
  }

  /** Searches suffixes `from`, `from + 1`, ... below `max` for a free or matching slot. */
  function FindSlot(types: Types, base: string, fs: seq<Field>, max: nat, from: nat): (r: Option<nat>)
    ensures r.Some? ==> from <= r.value < max && !Taken(types, base, fs, r.value)
    ensures r.Some? ==> forall k :: from <= k < r.value ==> Taken(types, base, fs, k)
    ensures r.None? ==> forall k :: from <= k < max ==> Taken(types, base, fs, k)
    decreases max - from
  {
    if from >= max then None
    else
      var name := Slot(base, from);
      if name !in types then Some(from)
      else if types[name] == fs then Some(from)
      else FindSlot(types, base, fs, max, from + 1)
  }

  /**
   * Registers `fs` under `base`, returning the suffixed name that now holds
   * it and the resulting table.
   */
  function Register(types: Types, base: string, fs: seq<Field>, max: nat): (r: Result<(string, Types)>)
    ensures r.Err? <==> forall k :: 0 <= k < max ==> Taken(types, base, fs, k)
    ensures r.Err? ==> r.error == DuplicateCapacity(base)
    ensures r.Ok? ==> r.value.1 == types[r.value.0 := fs] && Extends(types, r.value.1)
    ensures r.Ok? ==> exists k :: 0 <= k < max && r.value.0 == Slot(base, k)
                        && !Taken(types, base, fs, k)
                        && forall j :: 0 <= j < k ==> Taken(types, base, fs, j)
  {
    match FindSlot(types, base, fs, max, 0)
    case None => Err(DuplicateCapacity(base))
    case Some(k) =>
      var name := Slot(base, k);
      if name in types then
        assert types[name := fs] == types;
        Ok((name, types))
      else
        Ok((name, types[name := fs]))
  }

  /** When slot `k` is the first one free or matching, registration lands exactly there. */
  lemma RegisterAt(types: Types, base: string, fs: seq<Field>, max: nat, k: nat)
    requires k < max && !Taken(types, base, fs, k)
    requires forall j :: 0 <= j < k ==> Taken(types, base, fs, j)
    ensures Register(types, base, fs, max) == Ok((Slot(base, k), types[Slot(base, k) := fs]))
  {
    var r := FindSlot(types, base, fs, max, 0);
    assert r.Some?;
    assert r.value == k;
  }

  /** Registering a definition that is already stored changes nothing and returns its name. */
  lemma RegisterIdempotent(types: Types, base: string, fs: seq<Field>, max: nat)
    requires Register(types, base, fs, max).Ok?
    ensures var (name, after) := Register(types, base, fs, max).value;
            Register(after, base, fs, max) == Ok((name, after))
  {
    var (name, after) := Register(types, base, fs, max).value;
    var k :| 0 <= k < max && name == Slot(base, k) && !Taken(types, base, fs, k)
             && forall j :: 0 <= j < k ==> Taken(types, base, fs, j);
    forall j | 0 <= j < k
      ensures Taken(after, base, fs, j)
    {
      assert Taken(types, base, fs, j);
    }
    RegisterAt(after, base, fs, max, k);
    assert after[Slot(base, k) := fs] == after;
  }
}
