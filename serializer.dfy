/**
 * The class registry of engine/core/HSerializer.cpp: a dictionary from a
 * class name hash to the function that registers instances of that class.
 * The function pointers are opaque values of type `Fn`; scene
 * serialisation has empty bodies in the source and changes nothing.
 */
module Serializer {

  /** The dictionary after `unordered_map::insert({nameHash, pFunc})`: a new key is added, an existing one keeps its function. */
  function Inserted<Fn>(dict: map<nat, Fn>, nameHash: nat, pFunc: Fn): (r: map<nat, Fn>)
    ensures r.Keys == dict.Keys + {nameHash}
    ensures nameHash in dict ==> r[nameHash] == dict[nameHash]
    ensures nameHash !in dict ==> r[nameHash] == pFunc
    ensures forall h :: h in dict && h != nameHash ==> r[h] == dict[h]
  {
    if nameHash in dict then dict else dict[nameHash := pFunc]
  }

  /** The dictionary after a sequence of registrations, in order. */
  function InsertedAll<Fn>(dict: map<nat, Fn>, regs: seq<(nat, Fn)>): map<nat, Fn>
    decreases |regs|
  {
    if regs == [] then dict
    else InsertedAll(Inserted(dict, regs[0].0, regs[0].1), regs[1..])
  }

  /** `HSerializer`: the dictionary `m_dict`. */
  class HSerializer<Fn> {
    var dict: map<nat, Fn>

    constructor()
      ensures dict == map[]
    {
      dict := map[];
    }

    /** `RegisterAClass`: the first function registered for a hash is the one kept. */
    method RegisterAClass(nameHash: nat, pFunc: Fn)
      modifies this
      ensures dict == Inserted(old(dict), nameHash, pFunc)
    {
      if nameHash !in dict {
        dict := dict[nameHash := pFunc];
      }
    }

    /** `SerializeScene`: an empty body; the registry is unchanged. */
    method SerializeScene(yamlNamePath: string)
      modifies this
      ensures dict == old(dict)
    {
    }

    /** `DeserializeYamlToScene`: an empty body; the registry is unchanged. */
    method DeserializeYamlToScene(yamlNamePath: string)
      modifies this
      ensures dict == old(dict)
    {
    }
  }

  // ---------------------------------------------------------------------------
  // Properties
  // ---------------------------------------------------------------------------

  /** Registering a hash twice keeps the first function, whatever the second. */
  lemma FirstRegistrationWins<Fn>(dict: map<nat, Fn>, nameHash: nat, first: Fn, second: Fn)
    requires nameHash !in dict
    ensures Inserted(Inserted(dict, nameHash, first), nameHash, second) == dict[nameHash := first]
  {
  }

  /**
   * After any sequence of registrations, a hash maps to the function it had
   * before, or else to the first function registered for it; a hash never
   * registered is absent.
   */
  lemma {:induction false} EarliestRegistrationKept<Fn>(dict: map<nat, Fn>, regs: seq<(nat, Fn)>, h: nat)
    ensures h in InsertedAll(dict, regs) <==> h in dict || exists i :: 0 <= i < |regs| && regs[i].0 == h
    ensures h in dict ==> InsertedAll(dict, regs)[h] == dict[h]
    ensures h !in dict ==> forall i :: 0 <= i < |regs| && regs[i].0 == h && (forall j :: 0 <= j < i ==> regs[j].0 != h) ==>
      InsertedAll(dict, regs)[h] == regs[i].1
    decreases |regs|
  {
    if regs != [] {
      var next := Inserted(dict, regs[0].0, regs[0].1);
      EarliestRegistrationKept(next, regs[1..], h);
      if h !in dict {
        forall i | 0 <= i < |regs| && regs[i].0 == h && (forall j :: 0 <= j < i ==> regs[j].0 != h)
          ensures InsertedAll(dict, regs)[h] == regs[i].1
        {
          if i > 0 {
            assert regs[1..][i - 1] == regs[i];
            forall j | 0 <= j < i - 1 ensures regs[1..][j].0 != h {
              assert regs[1..][j] == regs[j + 1];
            }
          }
        }
      }
      if exists i :: 0 <= i < |regs| && regs[i].0 == h {
        var i :| 0 <= i < |regs| && regs[i].0 == h;
        if i > 0 {
          assert regs[1..][i - 1] == regs[i];
        }
      }
      if exists i :: 0 <= i < |regs[1..]| && regs[1..][i].0 == h {
        var i :| 0 <= i < |regs[1..]| && regs[1..][i].0 == h;
        assert regs[i + 1].0 == h;
      }
    }
  }
}
