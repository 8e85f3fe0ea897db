/** Enumeration-like singletons: Values identified by an Id and a Name, looked
    up by either among the instances a type registers (Core/Abstract/Enumeration.cs). */
module Enumerations {
  import opened Domain
  import opened Values
  import opened Sequences

  /** An Enumeration instance: reference, runtime type, Id and Name, neither null. */
  datatype Enumeration = Enumeration(ref: object, runtimeType: TypeTag, id: Atom, name: string)

  /** Distinct references denote distinct instances. */
  ghost predicate Coherent(x: Enumeration, y: Enumeration)
  {
    x.ref == y.ref ==> x == y
  }

  /** The constructor: a null id is rejected first, then a null name. */
  function Create(ref: object, runtimeType: TypeTag, id: Component, name: Option<string>): (r: Result<Enumeration>)
    ensures r.Success? <==> id.Present? && name.Some?
    ensures id.Null? ==> r == Failure(DomainException("Id is required for entity " + runtimeType.name))
    ensures id.Present? && name.None? ==> r == Failure(DomainException("Name is required for entity " + runtimeType.name))
    ensures r.Success? ==> r.value.id == id.atom && r.value.name == name.value && r.value.runtimeType == runtimeType
  {
    if id.Null? then Failure(DomainException("Id is required for entity " + runtimeType.name))
    else if name.None? then Failure(DomainException("Name is required for entity " + runtimeType.name))
    else Success(Enumeration(ref, runtimeType, id.atom, name.value))
  }

  /** ToString returns the Name. */
  function ToString(e: Enumeration): string
  {
    e.name
  }

  /** GetComponentValues: the Id (never null after construction), then the Name. */
  function ComponentValues(e: Enumeration): seq<Component>
  {
    [Present(e.id), Present(Text(e.name))]
  }

  function AsValue(e: Enumeration): ValueView
  {
    ValueView(e.ref, e.runtimeType, ComponentValues(e))
  }

  /** Two instances are Equals-true exactly when they have the same runtime
      type, Id and Name; the Value length check cannot misfire on them. */
  lemma EnumerationEquality(x: Enumeration, y: Enumeration)
    requires Coherent(x, y)
    ensures EqualsAsWritten(AsValue(x), AValue(AsValue(y)))
        <==> x.runtimeType == y.runtimeType && x.id == y.id && x.name == y.name
    ensures EqualsAsWritten(AsValue(x), AValue(AsValue(y))) == ValueEquals(AsValue(x), AValue(AsValue(y)))
  {
    var a, b := ComponentValues(x), ComponentValues(y);
    assert a == b ==> a[0] == b[0] && a[1] == b[1];
    AsWrittenAgreesOnEqualLengths(AsValue(x), AValue(AsValue(y)));
  }

  /** All instances of the collections, in order (SelectMany). */
  function Flatten(collections: seq<seq<Enumeration>>): seq<Enumeration>
  {
    if collections == [] then [] else collections[0] + Flatten(collections[1..])
  }

  lemma {:induction false} FlattenMembership(collections: seq<seq<Enumeration>>, e: Enumeration)
    ensures e in Flatten(collections) <==> exists i :: 0 <= i < |collections| && e in collections[i]
  {
    if collections != [] {
      FlattenMembership(collections[1..], e);
      if e in Flatten(collections[1..]) {
        var i :| 0 <= i < |collections[1..]| && e in collections[1..][i];
        assert e in collections[i + 1];
      }
      if exists i :: 0 <= i < |collections| && e in collections[i] {
        var i :| 0 <= i < |collections| && e in collections[i];
        if i > 0 {
          assert e in collections[1..][i - 1];
        }
      }
    }
  }

  /** GetAll: the singly declared instances, then the members of the declared
      instance collections. Reflection over the type's fields is replaced by
      the two lists it would find. */
  function GetAll(singles: seq<Enumeration>, collections: seq<seq<Enumeration>>): seq<Enumeration>
  {
    singles + Flatten(collections)
  }

  lemma GetAllListsSinglesFirst(singles: seq<Enumeration>, collections: seq<seq<Enumeration>>, e: Enumeration)
    ensures GetAll(singles, collections)[..|singles|] == singles
    ensures e in GetAll(singles, collections)
        <==> e in singles || exists i :: 0 <= i < |collections| && e in collections[i]
  {
    FlattenMembership(collections, e);
  }

  /** Parse: SingleOrDefault over the registry, then a null check. No match
      and several matches both end in InvalidOperationException. */
  function Parse(all: seq<Enumeration>, t: TypeTag, p: Enumeration -> bool): (r: Result<Enumeration>)
    ensures r.Success? <==> |Filter(all, p)| == 1
    ensures r.Success? ==> r.value in all && p(r.value)
    ensures r.Failure? ==> r.error.InvalidOperation?
  {
    var matches := Filter(all, p);
    if |matches| > 1 then Failure(InvalidOperation("Sequence contains more than one matching element"))
    else if matches == [] then Failure(InvalidOperation("No matching enumeration of " + t.name))
    else Success(matches[0])
  }

  /** The predicate of FromId: Equals(e.Id, id), false for a null id. */
  function IdMatches(id: Component): Enumeration -> bool
  {
    (e: Enumeration) => Present(e.id) == id
  }

  /** The predicate of FromName: lower-cased names are equal. */
  function NameMatches(lowered: string, lower: string -> string): Enumeration -> bool
  {
    (e: Enumeration) => lower(e.name) == lowered
  }

  function FromId(all: seq<Enumeration>, t: TypeTag, id: Component): Result<Enumeration>
  {
    Parse(all, t, IdMatches(id))
  }

  /** FromName: ToLowerInvariant is culture-dependent and passed in as lower. A
      null name is only dereferenced when the predicate first runs, so an empty
      registry reports no match instead. */
  function FromName(all: seq<Enumeration>, t: TypeTag, name: Option<string>, lower: string -> string): Result<Enumeration>
  {
    if name.None? then
      if all == [] then Failure(InvalidOperation("No matching enumeration of " + t.name)) else Failure(NullReference)
    else Parse(all, t, NameMatches(lower(name.value), lower))
  }

  /** No two registered instances share an Id. */
  ghost predicate UniqueIds(all: seq<Enumeration>)
  {
    forall i, j :: 0 <= i < |all| && 0 <= j < |all| && i != j ==> all[i].id != all[j].id
  }

  /** No two registered instances share a lower-cased Name. */
  ghost predicate UniqueNames(all: seq<Enumeration>, lower: string -> string)
  {
    forall i, j :: 0 <= i < |all| && 0 <= j < |all| && i != j ==> lower(all[i].name) != lower(all[j].name)
  }

  /** FromId finds every registered instance by its own Id. */
  lemma FromIdFindsRegistered(all: seq<Enumeration>, t: TypeTag, k: nat)
    requires UniqueIds(all) && k < |all|
    ensures FromId(all, t, Present(all[k].id)) == Success(all[k])
  {
    FilterSingle(all, IdMatches(Present(all[k].id)), k);
  }

  /** FromId fails exactly when no registered instance or several have that Id. */
  lemma FromIdFailsWithoutSingleMatch(all: seq<Enumeration>, t: TypeTag, id: Component)
    ensures (forall i :: 0 <= i < |all| ==> Present(all[i].id) != id) ==> FromId(all, t, id) == Failure(InvalidOperation("No matching enumeration of " + t.name))
    ensures (exists i, j :: 0 <= i < j < |all| && Present(all[i].id) == id && Present(all[j].id) == id) ==> FromId(all, t, id).Failure?
    ensures id.Null? ==> FromId(all, t, id).Failure?
  {
    if forall i :: 0 <= i < |all| ==> Present(all[i].id) != id {
      FilterNone(all, IdMatches(id));
    }
    if exists i, j :: 0 <= i < j < |all| && Present(all[i].id) == id && Present(all[j].id) == id {
      var i, j :| 0 <= i < j < |all| && Present(all[i].id) == id && Present(all[j].id) == id;
      FilterTwo(all, IdMatches(id), i, j);
    }
    if id.Null? {
      FilterNone(all, IdMatches(id));
    }
  }

  /** FromName(ToString(e)) finds e, and so does any name that lower-cases alike. */
  lemma FromNameFindsToString(all: seq<Enumeration>, t: TypeTag, k: nat, name: string, lower: string -> string)
    requires UniqueNames(all, lower) && k < |all|
    requires lower(name) == lower(ToString(all[k]))
    ensures FromName(all, t, Some(ToString(all[k])), lower) == Success(all[k])
    ensures FromName(all, t, Some(name), lower) == Success(all[k])
  {
    FilterSingle(all, NameMatches(lower(all[k].name), lower), k);
  }
}
