/** The nine capability protocols of the package, each a set of required
    method names, and the inheritance graph that composes them.

    A protocol is checked structurally: a type satisfies it when it
    provides every method in the protocol's closure (its own declarations
    plus everything its bases require). */
module Protocols {

  /** One constructor per capability.  The same names label the protocols
      and the mixins that implement them. */
  datatype Capability =
    | Orderable
    | Comparable
    | Additive
    | Multiplicative
    | Algebraic
    | Complex
    | Real
    | Value
    | Sequence

  /** The abstract methods each protocol declares in its own class body. */
  function Declared(c: Capability): set<string>
  {
    match c
    case Orderable => {"__lt__", "__le__", "__gt__", "__ge__"}
    case Comparable => {"__eq__", "__ne__"}
    case Additive => {"__add__", "__radd__", "__sub__", "__rsub__"}
    case Multiplicative => {"__mul__", "__rmul__", "__truediv__", "__rtruediv__"}
    case Algebraic => {"__pow__"}
    case Complex => {"__abs__", "__pos__", "__neg__"}
    case Real => {"__rpow__", "__floordiv__", "__rfloordiv__", "__mod__", "__rmod__"}
    case Value => {"__complex__", "__float__", "__int__", "__round__"}
    case Sequence => {"__contains__", "__len__", "__iter__", "__getitem__", "__array__"}
  }

  /** Height in the inheritance graph.  `Bases` promises that every base
      sits strictly lower, so the graph is acyclic and the closures below
      are well defined. */
  function Depth(c: Capability): nat
  {
    match c
    case Orderable => 0
    case Additive => 0
    case Multiplicative => 0
    case Comparable => 1
    case Algebraic => 1
    case Complex => 2
    case Real => 3
    case Value => 3
    case Sequence => 3
  }

  /** The capability protocols each protocol class lists as bases, in
      declaration order (the typing `Protocol` marker is not one). */
  function Bases(c: Capability): (bs: seq<Capability>)
    ensures forall b :: b in bs ==> Depth(b) < Depth(c)
  {
    match c
    case Comparable => [Orderable]
    case Algebraic => [Additive, Multiplicative]
    case Complex => [Algebraic]
    case Real => [Comparable, Complex]
    case Value => [Comparable, Complex]
    case Sequence => [Comparable, Complex]
    case _ => []
  }

  /** The closure: the protocol's own declarations and, through
      inheritance, everything its bases require. */
  function Required(c: Capability): set<string>
    decreases Depth(c), 1, 0
  {
    Declared(c) + RequiredByAll(Bases(c), Depth(c))
  }

  /** Union of the closures of `bs`, all of which sit below `bound`. */
  function RequiredByAll(bs: seq<Capability>, bound: nat): set<string>
    requires forall b :: b in bs ==> Depth(b) < bound
    decreases bound, 0, |bs|
  {
    if bs == [] then {} else Required(bs[0]) + RequiredByAll(bs[1..], bound)
  }

  /** A name is in the union exactly when one of the listed protocols
      requires it. */
  lemma {:induction false} RequiredByAllMembers(bs: seq<Capability>, bound: nat, m: string)
    requires forall b :: b in bs ==> Depth(b) < bound
    ensures m in RequiredByAll(bs, bound) <==> exists b :: b in bs && m in Required(b)
    decreases |bs|
  {
    if bs != [] {
      RequiredByAllMembers(bs[1..], bound, m);
      if m in RequiredByAll(bs, bound) {
        if m in Required(bs[0]) {
          assert bs[0] in bs;
        } else {
          var b :| b in bs[1..] && m in Required(b);
          assert b in bs;
        }
      }
      if b :| b in bs && m in Required(b) {
        if b != bs[0] {
          assert b in bs[1..];
        }
      }
    }
  }

  /** `p` is `q` or inherits from it, directly or transitively. */
  predicate Extends(p: Capability, q: Capability)
    decreases Depth(p)
  {
    p == q || exists b :: b in Bases(p) && Extends(b, q)
  }

  /** Inheritance only ever leads strictly down the graph; protocols of
      equal height (Real, Value, Sequence) never extend one another. */
  lemma {:induction false} ExtendsDescends(p: Capability, q: Capability)
    ensures Extends(p, q) && p != q ==> Depth(q) < Depth(p)
    decreases Depth(p)
  {
    if Extends(p, q) && p != q {
      var b :| b in Bases(p) && Extends(b, q);
      ExtendsDescends(b, q);
    }
  }

  /** The structural check: a type whose methods are `methods` satisfies
      protocol `c` exactly when it has every method `c` requires. */
  predicate Satisfies(methods: set<string>, c: Capability)
  {
    Required(c) <= methods
  }

  /** One method each protocol declares itself. */
  function Signature(c: Capability): (m: string)
    ensures m in Declared(c)
  {
    match c
    case Orderable => "__lt__"
    case Comparable => "__eq__"
    case Additive => "__add__"
    case Multiplicative => "__mul__"
    case Algebraic => "__pow__"
    case Complex => "__abs__"
    case Real => "__rpow__"
    case Value => "__complex__"
    case Sequence => "__contains__"
  }

  /** Each protocol's signature method is declared by that protocol and
      by no other. */
  lemma SignatureDeclaredOnce(a: Capability, q: Capability)
    requires Signature(q) in Declared(a)
    ensures a == q
  {
  }

  /** A method is required by `p` exactly when some protocol that `p`
      extends declares it. */
  lemma {:induction false} RequiredFromAncestors(p: Capability, m: string)
    ensures m in Required(p) <==> exists a :: Extends(p, a) && m in Declared(a)
    decreases Depth(p)
  {
    RequiredByAllMembers(Bases(p), Depth(p), m);
    if m in Required(p) {
      if m !in Declared(p) {
        var b :| b in Bases(p) && m in Required(b);
        RequiredFromAncestors(b, m);
        var a :| Extends(b, a) && m in Declared(a);
        assert Extends(p, a);
      } else {
        assert Extends(p, p);
      }
    }
    if a :| Extends(p, a) && m in Declared(a) {
      if p != a {
        var b :| b in Bases(p) && Extends(b, a);
        RequiredFromAncestors(b, m);
        assert m in Required(b);
      }
    }
  }

  /** A direct base's requirements are part of the closure. */
  lemma BaseRequiredIncluded(p: Capability, b: Capability)
    requires b in Bases(p)
    ensures Required(b) <= Required(p)
  {
    forall m | m in Required(b)
      ensures m in Required(p)
    {
      RequiredByAllMembers(Bases(p), Depth(p), m);
    }
  }

  /** Inheriting from a protocol inherits all of its requirements. */
  lemma {:induction false} RequiredGrowsAlongBases(p: Capability, q: Capability)
    requires Extends(p, q)
    ensures Required(q) <= Required(p)
    decreases Depth(p)
  {
    if p != q {
      var b :| b in Bases(p) && Extends(b, q);
      RequiredGrowsAlongBases(b, q);
      BaseRequiredIncluded(p, b);
    }
  }

  /** Requirements are contained only along inheritance: each protocol
      declares a method no unrelated protocol requires. */
  lemma RequiredSubsetImpliesExtends(p: Capability, q: Capability)
    requires Required(q) <= Required(p)
    ensures Extends(p, q)
  {
    var m := Signature(q);
    assert m in Required(q);
    RequiredFromAncestors(p, m);
    var a :| Extends(p, a) && m in Declared(a);
    SignatureDeclaredOnce(a, q);
  }

  /** The requirement sets order the protocols exactly as inheritance
      does: `q`'s requirements are contained in `p`'s if and only if `p`
      extends `q`. */
  lemma ExtendsIffRequiredSubset(p: Capability, q: Capability)
    ensures Extends(p, q) <==> Required(q) <= Required(p)
  {
    if Extends(p, q) {
      RequiredGrowsAlongBases(p, q);
    }
    if Required(q) <= Required(p) {
      RequiredSubsetImpliesExtends(p, q);
    }
  }

  /** Whatever satisfies a protocol satisfies every protocol it extends;
      in particular everything Comparable is Orderable. */
  lemma SatisfiesInherited(methods: set<string>, p: Capability, q: Capability)
    requires Extends(p, q) && Satisfies(methods, p)
    ensures Satisfies(methods, q)
  {
    RequiredGrowsAlongBases(p, q);
  }

  lemma OrderableRequiresExactly()
    ensures Required(Orderable) == {"__lt__", "__le__", "__gt__", "__ge__"}
  {
  }

  lemma ComparableComposition()
    ensures Required(Comparable) == Required(Orderable) + {"__eq__", "__ne__"}
    ensures forall methods :: Satisfies(methods, Comparable) ==> Satisfies(methods, Orderable)
  {
    assert Extends(Comparable, Orderable) by { assert Orderable in Bases(Comparable); }
    forall methods | Satisfies(methods, Comparable)
      ensures Satisfies(methods, Orderable)
    {
      SatisfiesInherited(methods, Comparable, Orderable);
    }
  }

  lemma MultiplicativeExcludesFloorAndMod()
    ensures Required(Multiplicative) == {"__mul__", "__rmul__", "__truediv__", "__rtruediv__"}
    ensures "__floordiv__" !in Required(Multiplicative) && "__mod__" !in Required(Multiplicative)
    ensures Required(Additive) == {"__add__", "__radd__", "__sub__", "__rsub__"}
  {
  }

  lemma AlgebraicComposition()
    ensures Required(Algebraic) == Required(Additive) + Required(Multiplicative) + {"__pow__"}
    ensures "__rpow__" !in Required(Algebraic)
    ensures "__rpow__" !in Required(Complex)
  {
  }

  lemma ComplexAndRealComposition()
    ensures Required(Complex) == Required(Algebraic) + {"__abs__", "__pos__", "__neg__"}
    ensures Required(Real) == Required(Comparable) + Required(Complex)
      + {"__rpow__", "__floordiv__", "__rfloordiv__", "__mod__", "__rmod__"}
    ensures "__rpow__" in Required(Real)
  {
  }

  lemma ValueAndSequenceComposition()
    ensures Required(Value) == Required(Comparable) + Required(Complex)
      + {"__complex__", "__float__", "__int__", "__round__"}
    ensures Required(Sequence) == Required(Comparable) + Required(Complex)
      + {"__contains__", "__len__", "__iter__", "__getitem__", "__array__"}
  {
  }

  /** Everything a complex-valued quantity needs: the arithmetic, `pow`
      and the signed unary operators, but no floor division, modulus or
      reflected `pow`. */
  lemma ComplexRequiresExactly()
    ensures Required(Complex) == {"__add__", "__radd__", "__sub__", "__rsub__",
      "__mul__", "__rmul__", "__truediv__", "__rtruediv__", "__pow__", "__abs__", "__pos__", "__neg__"}
  {
    AlgebraicComposition();
    ComplexAndRealComposition();
    MultiplicativeExcludesFloorAndMod();
  }

  /** None of the methods the Real protocol declares is needed to be
      complex-valued. */
  lemma RealAddsToComplex(name: string)
    requires name in Declared(Real)
    ensures name !in Required(Complex)
  {
    ComplexRequiresExactly();
  }

  /** Extending a base means extending whatever the base extends. */
  lemma ExtendsThrough(p: Capability, b: Capability, q: Capability)
    requires b in Bases(p) && Extends(b, q)
    ensures Extends(p, q)
  {
  }

  /** Real extends, directly or through Comparable and Complex, every
      protocol but Value and Sequence. */
  lemma RealExtendsItsAncestors()
    ensures Extends(Real, Real) && Extends(Real, Comparable) && Extends(Real, Orderable)
    ensures Extends(Real, Complex) && Extends(Real, Algebraic)
    ensures Extends(Real, Additive) && Extends(Real, Multiplicative)
  {
    ExtendsThrough(Comparable, Orderable, Orderable);
    ExtendsThrough(Algebraic, Additive, Additive);
    ExtendsThrough(Algebraic, Multiplicative, Multiplicative);
    ExtendsThrough(Complex, Algebraic, Algebraic);
    ExtendsThrough(Complex, Algebraic, Additive);
    ExtendsThrough(Complex, Algebraic, Multiplicative);
    ExtendsThrough(Real, Comparable, Comparable);
    ExtendsThrough(Real, Comparable, Orderable);
    ExtendsThrough(Real, Complex, Complex);
    ExtendsThrough(Real, Complex, Algebraic);
    ExtendsThrough(Real, Complex, Additive);
    ExtendsThrough(Real, Complex, Multiplicative);
  }

  /** Real extends exactly the protocols other than Value and Sequence. */
  lemma RealExtendsExactly(p: Capability)
    ensures Extends(Real, p) <==> p != Value && p != Sequence
  {
    RealExtendsItsAncestors();
    ExtendsDescends(Real, p);
  }
}
