/**
  The bucket every other module coordinates through: objects under string keys, each
  carrying a version drawn from one counter shared by all keys. Conditional writes and
  deletes compare versions, never contents.

  Protocols contend on one key at a time, so they are stated over a `Register`: the slot
  of one key together with the shared counter. `MemoryStore` is the whole bucket, and its
  methods are specified by the register functions.
 */
module VersionedStore {
  import opened Prelude

  datatype Object<+V> = Object(version: nat, value: V)

  datatype Register<+V> = Register(slot: Option<Object<V>>, counter: nat)

  datatype PutMode = Overwrite | Create | Update(version: nat)

  datatype StoreError = NotFound | PreconditionFailed | Retryable

  /** What the network does to one mutation: nothing, an error before it reaches the store,
      an invented precondition failure, or an error after the store applied it. */
  datatype Fault = Proceed | ErrBefore | CasFail | ErrAfter

  datatype PutOutcome<+V> = PutOutcome(register: Register<V>, result: Result<nat, StoreError>)

  datatype DeleteOutcome<+V> = DeleteOutcome(register: Register<V>, result: Result<(), StoreError>)

  predicate Holds<V>(register: Register<V>, version: nat) {
    register.slot.Some? && register.slot.value.version == version
  }

  predicate Admits<V>(register: Register<V>, mode: PutMode) {
    match mode
    case Overwrite => true
    case Create => register.slot.None?
    case Update(version) => Holds(register, version)
  }

  predicate Sound<V>(register: Register<V>) {
    register.slot.Some? ==> register.slot.value.version <= register.counter
  }

  function PutAt<V>(register: Register<V>, mode: PutMode, value: V): PutOutcome<V> {
    if Admits(register, mode) then
      var version := register.counter + 1;
      PutOutcome(Register(Some(Object(version, value)), version), Ok(version))
    else
      PutOutcome(register, Err(PreconditionFailed))
  }

  function DeleteAt<V>(register: Register<V>, ifVersion: Option<nat>): DeleteOutcome<V> {
    if register.slot.None? then
      DeleteOutcome(register, if ifVersion.None? then Ok(()) else Err(NotFound))
    else if ifVersion.Some? && ifVersion.value != register.slot.value.version then
      DeleteOutcome(register, Err(PreconditionFailed))
    else
      DeleteOutcome(Register(None, register.counter), Ok(()))
  }

  function FaultyPut<V>(register: Register<V>, mode: PutMode, value: V, fault: Fault): PutOutcome<V> {
    match fault
    case Proceed => PutAt(register, mode, value)
    case ErrBefore => PutOutcome(register, Err(Retryable))
    case CasFail => PutOutcome(register, Err(if mode.Overwrite? then Retryable else PreconditionFailed))
    case ErrAfter =>
      var inner := PutAt(register, mode, value);
      PutOutcome(inner.register, if inner.result.Err? then inner.result else Err(Retryable))
  }

  function FaultyDelete<V>(register: Register<V>, ifVersion: Option<nat>, fault: Fault): DeleteOutcome<V> {
    match fault
    case Proceed => DeleteAt(register, ifVersion)
    case ErrBefore => DeleteOutcome(register, Err(Retryable))
    case CasFail => DeleteOutcome(register, Err(if ifVersion.None? then Retryable else PreconditionFailed))
    case ErrAfter =>
      var inner := DeleteAt(register, ifVersion);
      DeleteOutcome(inner.register, if inner.result.Err? then inner.result else Err(Retryable))
  }

  // ---------------------------------------------------------------------------
  // Whole histories of one key
  // ---------------------------------------------------------------------------

  /** One mutation by any client; `OtherKeys` is a burst of writes to the rest of the bucket. */
  datatype Mutation<+V> =
    | DoPut(mode: PutMode, value: V, fault: Fault)
    | DoDelete(ifVersion: Option<nat>, fault: Fault)
    | OtherKeys(writes: nat)

  function Mutate<V>(register: Register<V>, m: Mutation<V>): Register<V> {
    match m
    case DoPut(mode, value, fault) => FaultyPut(register, mode, value, fault).register
    case DoDelete(ifVersion, fault) => FaultyDelete(register, ifVersion, fault).register
    case OtherKeys(writes) => register.(counter := register.counter + writes)
  }

  function MutateAll<V>(register: Register<V>, history: seq<Mutation<V>>): Register<V>
    decreases |history|
  {
    if history == [] then register
    else MutateAll(Mutate(register, history[0]), history[1..])
  }

  /** A version that has been issued and is no longer stored never comes back, so a client
      holding it can neither update nor delete the object again. */
  lemma {:induction false} StaleVersionIsDead<V>(register: Register<V>, history: seq<Mutation<V>>, version: nat)
    requires Sound(register) && version <= register.counter && !Holds(register, version)
    ensures Sound(MutateAll(register, history))
    ensures !Holds(MutateAll(register, history), version)
    ensures !Admits(MutateAll(register, history), Update(version))
    ensures DeleteAt(MutateAll(register, history), Some(version)).register == MutateAll(register, history)
    decreases |history|
  {
    if history != [] {
      StaleVersionIsDead(Mutate(register, history[0]), history[1..], version);
    }
  }

  /** Seeing the same version twice means nothing happened in between: the contents agree. */
  lemma {:induction false} NoAba<V>(register: Register<V>, history: seq<Mutation<V>>)
    requires Sound(register) && register.slot.Some?
    ensures var later := MutateAll(register, history);
            Holds(later, register.slot.value.version) ==> later.slot == register.slot
    decreases |history|
  {
    if history != [] {
      var next := Mutate(register, history[0]);
      if next.slot == register.slot {
        NoAba(next, history[1..]);
      } else {
        StaleVersionIsDead(next, history[1..], register.slot.value.version);
      }
    }
  }

  // ---------------------------------------------------------------------------
  // The bucket
  // ---------------------------------------------------------------------------

  datatype GetResult<+V> = NotModified(version: nat) | Found(found: Object<V>)

  class MemoryStore<K(==, !new), V> {
    var objects: map<K, Object<V>>
    var counter: nat

    /** Versions come from the counter and are unique across the bucket. */
    ghost predicate Valid()
      reads this
    {
      && (forall key | key in objects :: objects[key].version <= counter)
      && (forall key, other | key in objects && other in objects && key != other ::
            objects[key].version != objects[other].version)
    }

    function At(key: K): Register<V>
      reads this
    {
      Register(if key in objects then Some(objects[key]) else None, counter)
    }

    ghost predicate Deletable(before: map<K, Object<V>>, key: K, ifVersion: Option<nat>) {
      key in before && (ifVersion.Some? ==> before[key].version == ifVersion.value)
    }

    ghost predicate SameElsewhere(before: map<K, Object<V>>, key: K)
      reads this
    {
      forall other | other != key ::
        && (other in objects <==> other in before)
        && (other in objects ==> objects[other] == before[other])
    }

    constructor ()
      ensures Valid()
      ensures objects == map[] && counter == 0
    {
      objects, counter := map[], 0;
    }

    method Get(key: K, ifMatch: Option<nat>, ifNoneMatch: Option<nat>)
      returns (r: Result<GetResult<V>, StoreError>)
      ensures r.Err? ==> r.error != Retryable
      ensures r == Err(NotFound) <==> key !in objects
      ensures r == Err(PreconditionFailed) <==>
              key in objects && ifMatch.Some? && ifMatch.value != objects[key].version
      ensures r.Ok? && r.value.Found? ==>
                key in objects && r.value.found == objects[key] && ifNoneMatch != Some(objects[key].version)
      ensures r.Ok? && r.value.NotModified? ==>
                key in objects && ifNoneMatch == Some(objects[key].version) == Some(r.value.version)
    {
      if key !in objects {
        return Err(NotFound);
      }
      var stored := objects[key];
      if ifMatch.Some? && ifMatch.value != stored.version {
        return Err(PreconditionFailed);
      }
      if ifNoneMatch == Some(stored.version) {
        return Ok(NotModified(stored.version));
      }
      r := Ok(Found(stored));
    }

    method Put(key: K, mode: PutMode, value: V) returns (r: Result<nat, StoreError>)
      requires Valid()
      modifies this
      ensures Valid()
      ensures PutOutcome(At(key), r) == PutAt(old(At(key)), mode, value)
      ensures SameElsewhere(old(objects), key)
      ensures r.Ok? <==> match mode {
                           case Overwrite => true
                           case Create => key !in old(objects)
                           case Update(version) => key in old(objects) && old(objects[key]).version == version
                         }
      ensures r.Ok? ==> old(counter) < r.value == counter && objects == old(objects)[key := Object(r.value, value)]
      ensures r.Err? ==> r.error == PreconditionFailed && objects == old(objects) && counter == old(counter)
    {
      var current := if key in objects then Some(objects[key].version) else None;
      match mode {
        case Overwrite =>
        case Create =>
          if current.Some? {
            return Err(PreconditionFailed);
          }
        case Update(want) =>
          if current != Some(want) {
            return Err(PreconditionFailed);
          }
      }
      counter := counter + 1;
      objects := objects[key := Object(counter, value)];
      r := Ok(counter);
    }

    method Delete(key: K, ifVersion: Option<nat>) returns (r: Result<(), StoreError>)
      requires Valid()
      modifies this`objects
      ensures Valid()
      ensures DeleteOutcome(At(key), r) == DeleteAt(old(At(key)), ifVersion)
      ensures SameElsewhere(old(objects), key)
      ensures objects == if r.Ok? then old(objects) - {key} else old(objects)
      ensures r == Err(NotFound) <==> key !in old(objects) && ifVersion.Some?
      ensures r == Err(PreconditionFailed) <==>
              key in old(objects) && ifVersion.Some? && ifVersion.value != old(objects[key]).version
      ensures r.Err? ==> r.error != Retryable
    {
      if key !in objects {
        return if ifVersion.None? then Ok(()) else Err(NotFound);
      }
      if ifVersion.Some? && ifVersion.value != objects[key].version {
        return Err(PreconditionFailed);
      }
      objects := objects - {key};
      r := Ok(());
    }

    /** The same mutations seen through the network. */
    method PutThrough(key: K, mode: PutMode, value: V, fault: Fault) returns (r: Result<nat, StoreError>)
      requires Valid()
      modifies this
      ensures Valid()
      ensures PutOutcome(At(key), r) == FaultyPut(old(At(key)), mode, value, fault)
      ensures SameElsewhere(old(objects), key)
      ensures objects == if fault in {Proceed, ErrAfter} && Admits(old(At(key)), mode) then
                           old(objects)[key := Object(old(counter) + 1, value)]
                         else old(objects)
      ensures r.Ok? <==> fault == Proceed && Admits(old(At(key)), mode)
      ensures r == Err(PreconditionFailed) <==>
              if fault == CasFail then mode != Overwrite else fault != ErrBefore && !Admits(old(At(key)), mode)
      ensures r.Err? ==> r.error != NotFound
    {
      match fault
      case Proceed =>
        r := Put(key, mode, value);
      case ErrBefore =>
        r := Err(Retryable);
      case CasFail =>
        r := Err(if mode.Overwrite? then Retryable else PreconditionFailed);
      case ErrAfter =>
        r := Put(key, mode, value);
        if r.Ok? {
          r := Err(Retryable);
        }
    }

    method DeleteThrough(key: K, ifVersion: Option<nat>, fault: Fault) returns (r: Result<(), StoreError>)
      requires Valid()
      modifies this`objects
      ensures Valid()
      ensures DeleteOutcome(At(key), r) == FaultyDelete(old(At(key)), ifVersion, fault)
      ensures SameElsewhere(old(objects), key)
      ensures objects == if fault in {Proceed, ErrAfter} && Deletable(old(objects), key, ifVersion) then old(objects) - {key}
                         else old(objects)
      ensures r.Ok? <==> fault == Proceed && (Deletable(old(objects), key, ifVersion) || (key !in old(objects) && ifVersion.None?))
    {
      match fault
      case Proceed =>
        r := Delete(key, ifVersion);
      case ErrBefore =>
        r := Err(Retryable);
      case CasFail =>
        r := Err(if ifVersion.None? then Retryable else PreconditionFailed);
      case ErrAfter =>
        r := Delete(key, ifVersion);
        if r.Ok? {
          r := Err(Retryable);
        }
    }

    /** Other clients run. Callers learn only what the contract says: versions are still drawn
        from the counter, so whatever carries an old version is the old object, in place. */
    method OtherClients()
      requires Valid()
      modifies this
      ensures Valid()
      ensures old(counter) <= counter
      ensures forall key | key in objects && objects[key].version <= old(counter) ::
                key in old(objects) && objects[key] == old(objects[key])
    {
    }
  }
}
