/** The structural-equality kernel: a Value is identified by its runtime type
    and the ordered sequence of its component values (Core/Value.cs). */
module Values {
  import opened Domain

  /** A non-null component value. Its own Equals is taken to be structural. */
  datatype Atom = Int(i: int) | Text(s: string) | Bool(b: bool) | Guid(g: nat)

  /** A component value as GetComponentValues yields it: null or an atom. */
  datatype Component = Null | Present(atom: Atom)

  /** Runtime type identity (GetType()), as a tag. */
  datatype TypeTag = TypeTag(name: string)

  /** A Value instance: its reference, its runtime type and its components. */
  datatype ValueView = ValueView(ref: object, runtimeType: TypeTag, components: seq<Component>)

  /** The argument of Equals(object): null, a Value, or an object that is not a Value. */
  datatype Obj = NullObj | AValue(view: ValueView) | Other(other: object)

  /** A reference of static type Value, as the operators take it. */
  datatype NullableValue = NullValue | ValueOf(view: ValueView)

  function AsObj(v: NullableValue): Obj
  {
    if v.NullValue? then NullObj else AValue(v.view)
  }

  /** ReferenceEquals(this, obj). */
  predicate ReferenceEquals(self: ValueView, obj: Obj)
  {
    match obj
    case NullObj => false
    case AValue(v) => v.ref == self.ref
    case Other(r) => r == self.ref
  }

  /** Distinct references denote distinct objects, and one object has one view. */
  ghost predicate Coherent(x: ValueView, y: ValueView)
  {
    x.ref == y.ref ==> x == y
  }

  /** What the enumerator loop decides about two component sequences: the
      shared prefix is equal, and `this` has as many components as `other` or
      exactly one more, because the loop condition has already consumed it. */
  predicate ComponentsEqualAsWritten(a: seq<Component>, b: seq<Component>)
  {
    (|a| == |b| || |a| == |b| + 1) && a[..|b|] == b
  }

  /** Equals(object) as the code decides it. */
  predicate EqualsAsWritten(self: ValueView, obj: Obj)
  {
    if ReferenceEquals(self, obj) then true
    else if !obj.AValue? then false
    else if obj.view.runtimeType != self.runtimeType then false
    else ComponentsEqualAsWritten(self.components, obj.view.components)
  }

  /** Equals(object) as intended: the same reference, or a Value of the same
      runtime type whose component sequence is equal, length included. */
  predicate ValueEquals(self: ValueView, obj: Obj)
  {
    ReferenceEquals(self, obj)
    || (obj.AValue? && obj.view.runtimeType == self.runtimeType && obj.view.components == self.components)
  }

  /** Equals(object): reference check, type checks, then two enumerators
      advanced together. Equals(Value) only upcasts and calls this. */
  method Equals(self: ValueView, obj: Obj) returns (r: bool)
    ensures r == EqualsAsWritten(self, obj)
  {
    if ReferenceEquals(self, obj) {
      return true;
    }
    if !obj.AValue? {
      return false;
    }
    var other := obj.view;
    if other.runtimeType != self.runtimeType {
      return false;
    }
    var a, b := self.components, other.components;
    // i components have been yielded by both enumerators and matched
    var i := 0;
    while i < |a| && i < |b|
      invariant 0 <= i <= |a| && i <= |b|
      invariant a[..i] == b[..i]
    {
      var x, y := a[i], b[i];
      if !(x.Null? && y.Null?) {
        if x.Null? != y.Null? {
          assert |b| <= |a| ==> a[..|b|][i] != b[i];
          return false;
        }
        if x.Present? && x.atom != y.atom {
          assert |b| <= |a| ==> a[..|b|][i] != b[i];
          return false;
        }
      }
      assert a[..i + 1] == a[..i] + [x] && b[..i + 1] == b[..i] + [y];
      i := i + 1;
    }
    // The loop condition moved `this` one step further whenever it still had
    // an element, and only then asked `other`, which had none left.
    var thisPosition := if i < |a| then i + 1 else i;
    var otherPosition := i;
    var thisValuesEnd := thisPosition >= |a|;
    var otherValuesEnd := otherPosition >= |b|;
    r := thisValuesEnd && otherValuesEnd;
    assert i == |b| ==> a[..|b|] == b[..i];
  }

  /** The code and the intent agree whenever a same-typed argument has as many
      components as `this`. */
  lemma AsWrittenAgreesOnEqualLengths(self: ValueView, obj: Obj)
    requires obj.AValue? && obj.view.runtimeType == self.runtimeType ==> |obj.view.components| == |self.components|
    ensures EqualsAsWritten(self, obj) <==> ValueEquals(self, obj)
  {
  }

  /** A Value with one component equals a Value of the same type with none. */
  lemma LengthCheckMissesOneExtra(r1: object, r2: object, t: TypeTag, x: Atom)
    requires r1 != r2
    ensures EqualsAsWritten(ValueView(r1, t, [Present(x)]), AValue(ValueView(r2, t, [])))
    ensures !EqualsAsWritten(ValueView(r2, t, []), AValue(ValueView(r1, t, [Present(x)])))
    ensures !ValueEquals(ValueView(r1, t, [Present(x)]), AValue(ValueView(r2, t, [])))
  {
  }

  /** Intended equality is an equivalence over coherent views. */
  lemma ValueEqualsIsEquivalence(x: ValueView, y: ValueView, z: ValueView)
    requires Coherent(x, y) && Coherent(y, z) && Coherent(x, z)
    ensures ValueEquals(x, AValue(x))
    ensures ValueEquals(x, AValue(y)) ==> ValueEquals(y, AValue(x))
    ensures ValueEquals(x, AValue(y)) && ValueEquals(y, AValue(z)) ==> ValueEquals(x, AValue(z))
  {
  }

  /** The hash of one component: its own hash code, or 0 for null. */
  function ComponentHash(c: Component, hash: Atom -> bv32): bv32
  {
    if c.Null? then 0 else hash(c.atom)
  }

  /** The XOR of all component hashes. */
  function XorFold(cs: seq<Component>, hash: Atom -> bv32): bv32
  {
    if cs == [] then 0 else ComponentHash(cs[0], hash) ^ XorFold(cs[1..], hash)
  }

  /** Aggregate((acc, h) => acc ^ h) over the hashes of cs, from acc. */
  function Aggregate(acc: bv32, cs: seq<Component>, hash: Atom -> bv32): bv32
    decreases cs
  {
    if cs == [] then acc else Aggregate(acc ^ ComponentHash(cs[0], hash), cs[1..], hash)
  }

  lemma {:induction false} AggregateIsXorFold(acc: bv32, cs: seq<Component>, hash: Atom -> bv32)
    ensures Aggregate(acc, cs, hash) == acc ^ XorFold(cs, hash)
    decreases cs
  {
    if cs != [] {
      AggregateIsXorFold(acc ^ ComponentHash(cs[0], hash), cs[1..], hash);
    }
  }

  /** GetHashCode: the unseeded Aggregate starts from the first component's
      hash and throws when there are no components. */
  function HashCode(cs: seq<Component>, hash: Atom -> bv32): (r: Result<bv32>)
    ensures r.Failure? <==> cs == []
    ensures r.Failure? ==> r.error.InvalidOperation?
    ensures r.Success? ==> r.value == XorFold(cs, hash)
  {
    if cs == [] then Failure(InvalidOperation("Sequence contains no elements"))
    else
      AggregateIsXorFold(ComponentHash(cs[0], hash), cs[1..], hash);
      Success(Aggregate(ComponentHash(cs[0], hash), cs[1..], hash))
  }

  /** Intended equality keeps the hash contract: equal values hash alike. */
  lemma EqualValuesHashAlike(x: ValueView, y: ValueView, hash: Atom -> bv32)
    requires Coherent(x, y)
    requires ValueEquals(x, AValue(y))
    ensures HashCode(x.components, hash) == HashCode(y.components, hash)
  {
  }

  /** As written, two Values can be Equals-true while one hash differs from
      the other's: [1, 2] against [1], with 2 hashing to 1 and 1 to 0. */
  lemma AsWrittenBreaksHashContract(r1: object, r2: object, t: TypeTag)
    requires r1 != r2
    ensures var x := ValueView(r1, t, [Present(Int(1)), Present(Int(2))]);
            var y := ValueView(r2, t, [Present(Int(1))]);
            var hash := (a: Atom) => if a == Int(2) then 1 as bv32 else 0;
            EqualsAsWritten(x, AValue(y)) && HashCode(x.components, hash) != HashCode(y.components, hash)
  {
    var hash := (a: Atom) => if a == Int(2) then 1 as bv32 else 0;
    var cs := [Present(Int(1)), Present(Int(2))];
    assert XorFold(cs[1..][1..], hash) == 0;
    assert XorFold(cs, hash) == 1;
    assert XorFold([Present(Int(1))], hash) == 0;
  }

  /** operator ==: two nulls are equal, a null left side equals only null,
      otherwise the left side's Equals decides. */
  function OpEquals(left: NullableValue, right: NullableValue): bool
  {
    if left.NullValue? then right.NullValue? else EqualsAsWritten(left.view, AsObj(right))
  }

  /** operator !=. */
  function OpNotEquals(left: NullableValue, right: NullableValue): bool
  {
    !OpEquals(left, right)
  }

  lemma OperatorsAreNullSafe(v: ValueView, w: NullableValue)
    ensures OpEquals(NullValue, NullValue) && !OpNotEquals(NullValue, NullValue)
    ensures !OpEquals(NullValue, ValueOf(v)) && OpNotEquals(NullValue, ValueOf(v))
    ensures !OpEquals(ValueOf(v), NullValue) && OpNotEquals(ValueOf(v), NullValue)
    ensures OpEquals(ValueOf(v), w) == EqualsAsWritten(v, AsObj(w))
  {
  }
}
