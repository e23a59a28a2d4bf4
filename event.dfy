/**
 * Events and listener registration of engine/core/HEvent.cpp.  An event
 * type is the `std::hash` of its name; `std::hash` is not modelled and is a
 * parameter.  Entity handles are `uint32_t` values; the scene lookup and the
 * entities' `OnEvent` are foreign, so sending an event yields the handles
 * whose `OnEvent` runs, in call order.
 */
module Event {

  /** An `HEvent`: its arguments (`HEventArguments`, name hash to value), its type hash, and its handled flag. */
  class HEvent<Arg> {
    var args: map<nat, Arg>
    var typeHash: nat
    var isHandled: bool

    /** A new event copies its arguments, hashes its type name and is not handled. */
    constructor(arg: map<nat, Arg>, eventType: string, hash: string -> nat)
      ensures args == arg && typeHash == hash(eventType) && !isHandled
    {
      args := arg;
      typeHash := hash(eventType);
      isHandled := false;
    }
  }

  /** The listener list of a type hash; a type nobody listens to has none. */
  function Listeners(m: map<nat, seq<nat>>, typeHash: nat): seq<nat> {
    if typeHash in m then m[typeHash] else []
  }

  /** The listener map after appending `entity` to the list of `typeHash`, creating the list if needed. */
  function Registered(m: map<nat, seq<nat>>, typeHash: nat, entity: nat): (r: map<nat, seq<nat>>)
    ensures r.Keys == m.Keys + {typeHash}
    ensures Listeners(r, typeHash) == Listeners(m, typeHash) + [entity]
    ensures forall t :: t != typeHash ==> Listeners(r, t) == Listeners(m, t)
  {
    m[typeHash := Listeners(m, typeHash) + [entity]]
  }

  /** `HEventManager`: the map from event type hash to the list of listening entity handles. */
  class HEventManager {
    var eventListenerMap: map<nat, seq<nat>>

    constructor()
      ensures eventListenerMap == map[]
    {
      eventListenerMap := map[];
    }

    /** `RegisterListener`: appends `entity` to the list of the type's hash, creating a one-element list if none exists. */
    method RegisterListener(eventType: string, entity: nat, hash: string -> nat)
      modifies this
      ensures eventListenerMap == Registered(old(eventListenerMap), hash(eventType), entity)
    {
      var typeHash := hash(eventType);
      if typeHash in eventListenerMap {
        eventListenerMap := eventListenerMap[typeHash := eventListenerMap[typeHash] + [entity]];
      } else {
        eventListenerMap := eventListenerMap[typeHash := []];
        eventListenerMap := eventListenerMap[typeHash := eventListenerMap[typeHash] + [entity]];
      }
    }

    /**
     * `SendEvent`: the handles whose `OnEvent` is called, one call per entry
     * of the type's list, in list order; nothing for a type without a list.
     */
    method SendEvent<Arg>(hEvent: HEvent<Arg>) returns (notified: seq<nat>)
      ensures notified == Listeners(eventListenerMap, hEvent.typeHash)
    {
      notified := [];
      if hEvent.typeHash in eventListenerMap {
        var list := eventListenerMap[hEvent.typeHash];
        for i := 0 to |list|
          invariant notified == list[..i]
        {
          notified := notified + [list[i]];
        }
        assert list[..|list|] == list;
      }
    }
  }

  /** The map after registering `entities` for one type, one after the other. */
  function RegisteredAll(m: map<nat, seq<nat>>, typeHash: nat, entities: seq<nat>): map<nat, seq<nat>>
  {
    if entities == [] then m
    else Registered(RegisteredAll(m, typeHash, entities[..|entities| - 1]), typeHash, entities[|entities| - 1])
  }

  // ---------------------------------------------------------------------------
  // Properties
  // ---------------------------------------------------------------------------

  /** Listeners are notified in registration order, after those already listening. */
  lemma {:induction false} NotifiedInRegistrationOrder(m: map<nat, seq<nat>>, typeHash: nat, entities: seq<nat>)
    ensures Listeners(RegisteredAll(m, typeHash, entities), typeHash) == Listeners(m, typeHash) + entities
  {
    if entities != [] {
      var init := entities[..|entities| - 1];
      NotifiedInRegistrationOrder(m, typeHash, init);
      assert init + [entities[|entities| - 1]] == entities;
    }
  }

  /** Registering the same entity again is kept: it is notified once more. */
  lemma DuplicatesAreKept(m: map<nat, seq<nat>>, typeHash: nat, entity: nat)
    ensures var twice := Registered(Registered(m, typeHash, entity), typeHash, entity);
      multiset(Listeners(twice, typeHash))[entity] == multiset(Listeners(m, typeHash))[entity] + 2
  {
    var l := Listeners(m, typeHash);
    assert Listeners(Registered(Registered(m, typeHash, entity), typeHash, entity), typeHash) == l + [entity] + [entity];
    assert multiset(l + [entity] + [entity]) == multiset(l) + multiset{entity, entity};
  }

  /** Registrations for other types never change a type's listeners. */
  lemma {:induction false} OtherTypesUnaffected(m: map<nat, seq<nat>>, typeHash: nat, entities: seq<nat>, other: nat)
    requires other != typeHash
    ensures Listeners(RegisteredAll(m, typeHash, entities), other) == Listeners(m, other)
  {
    if entities != [] {
      OtherTypesUnaffected(m, typeHash, entities[..|entities| - 1], other);
    }
  }
}
