/** The capability mixins: for each capability, the operator methods the
    mixin defines, how each one dispatches (which primitive, in which
    operand order, rewrapped or not), the method lookup through mixin
    inheritance, and what calling a method on an instance returns. */
module Mixins {

  import opened Optional
  import opened Protocols
  import opened Operators
  import opened Types
  import Operations

  /** The single-argument primitives a method may apply: a catalog
      operator, or one of the conversions `complex`, `float`, `int` and
      `numpy.array`. */
  datatype UnaryPrim = Registered(op: OpName) | ToComplex | ToFloat | ToInt | ToArray

  /** How a mixin method is implemented.
      - `BinaryMethod`: `binary(op, self, other)`, or `binary(op, other,
        self)` when `reflected`, rewrapped in `type(self)` when `rewrap`;
      - `PowerMethod`: the same with the `pow` primitive, forwarding the
        optional `mod` argument as a keyword, always rewrapped;
      - `UnaryMethod`: `unary(prim, self)`, rewrapped when `rewrap`. */
  datatype Method =
    | BinaryMethod(op: OpName, reflected: bool, rewrap: bool)
    | PowerMethod(reflected: bool)
    | UnaryMethod(prim: UnaryPrim, rewrap: bool)
  {
    predicate Rewraps()
    {
      match this
      case BinaryMethod(_, _, rewrap) => rewrap
      case PowerMethod(_) => true
      case UnaryMethod(_, rewrap) => rewrap
    }
  }

  /** The methods each mixin class defines in its own body. */
  function Defines(c: Capability): map<string, Method>
  {
    match c
    case Orderable => map[
      "__lt__" := BinaryMethod(Lt, false, false),
      "__le__" := BinaryMethod(Le, false, false),
      "__gt__" := BinaryMethod(Gt, false, false),
      "__ge__" := BinaryMethod(Ge, false, false)]
    case Comparable => map[
      "__eq__" := BinaryMethod(Eq, false, false),
      "__ne__" := BinaryMethod(Ne, false, false)]
    case Additive => map[
      "__add__" := BinaryMethod(Add, false, true),
      "__radd__" := BinaryMethod(Add, true, true),
      "__sub__" := BinaryMethod(Sub, false, true),
      "__rsub__" := BinaryMethod(Sub, true, true)]
    case Multiplicative => map[
      "__mul__" := BinaryMethod(Mul, false, true),
      "__rmul__" := BinaryMethod(Mul, true, true),
      "__truediv__" := BinaryMethod(TrueDiv, false, true),
      "__rtruediv__" := BinaryMethod(TrueDiv, true, true)]
    case Algebraic => map[
      "__pow__" := PowerMethod(false)]
    case Complex => map[
      "__abs__" := UnaryMethod(Registered(Abs), true),
      "__pos__" := UnaryMethod(Registered(Pos), true),
      "__neg__" := UnaryMethod(Registered(Neg), true)]
    case Real => map[
      "__rpow__" := PowerMethod(true),
      "__floordiv__" := BinaryMethod(FloorDiv, false, true),
      "__rfloordiv__" := BinaryMethod(FloorDiv, true, true),
      "__mod__" := BinaryMethod(Mod, false, true),
      "__rmod__" := BinaryMethod(Mod, true, true)]
    case Value => map[
      "__complex__" := UnaryMethod(ToComplex, false),
      "__float__" := UnaryMethod(ToFloat, false),
      "__int__" := UnaryMethod(ToInt, false),
      "__round__" := UnaryMethod(Registered(Round), true)]
    case Sequence => map[
      "__contains__" := BinaryMethod(Contains, false, false),
      "__len__" := UnaryMethod(Registered(Len), false),
      "__iter__" := UnaryMethod(Registered(Iter), false),
      "__getitem__" := BinaryMethod(GetItem, false, false),
      "__array__" := UnaryMethod(ToArray, false)]
  }

  /** The mixin classes each mixin lists as bases, in declaration order. */
  function MixinBases(c: Capability): (bs: seq<Capability>)
    ensures forall b :: b in bs ==> Depth(b) < Depth(c)
  {
    match c
    case Comparable => [Orderable]
    case Algebraic => [Additive, Multiplicative]
    case Complex => [Algebraic]
    case Real => [Comparable, Complex]
    case Value => [Comparable, Complex]
    case Sequence => [Comparable, Complex]
    case _ => []
  }

  /** Every method a mixin makes available: its own and its bases'. */
  function Provides(c: Capability): set<string>
    decreases Depth(c), 1, 0
  {
    Defines(c).Keys + ProvidedByAll(MixinBases(c), Depth(c))
  }

  function ProvidedByAll(bs: seq<Capability>, bound: nat): set<string>
    requires forall b :: b in bs ==> Depth(b) < bound
    decreases bound, 0, |bs|
  {
    if bs == [] then {} else Provides(bs[0]) + ProvidedByAll(bs[1..], bound)
  }

  /** Attribute lookup on a mixin: its own body first, then its bases
      depth-first from the left.  Python searches the C3 order instead;
      the two orders agree on the method found because every definition
      of a name follows the same policy (`LookupFollowsPolicy`). */
  function Lookup(c: Capability, name: string): Option<Method>
    decreases Depth(c), 1, 0
  {
    if name in Defines(c) then Some(Defines(c)[name])
    else LookupIn(MixinBases(c), name, Depth(c))
  }

  function LookupIn(bs: seq<Capability>, name: string, bound: nat): Option<Method>
    requires forall b :: b in bs ==> Depth(b) < bound
    decreases bound, 0, |bs|
  {
    if bs == [] then None
    else
      match Lookup(bs[0], name)
      case Some(m) => Some(m)
      case None => LookupIn(bs[1..], name, bound)
  }

  // ---------------------------------------------------------------------
  // The dispatch policy, stated per method name independently of which
  // mixin defines the method.

  /** Comparisons and the primitive each applies; never rewrapped. */
  const Comparisons: map<string, OpName> := map[
    "__lt__" := Lt, "__le__" := Le, "__gt__" := Gt, "__ge__" := Ge,
    "__eq__" := Eq, "__ne__" := Ne]

  /** Forward arithmetic and the primitive each applies; rewrapped.  Each
      has a reflected twin, named by `Reflected`. */
  const Arithmetic: map<string, OpName> := map[
    "__add__" := Add, "__sub__" := Sub, "__mul__" := Mul,
    "__truediv__" := TrueDiv, "__floordiv__" := FloorDiv, "__mod__" := Mod]

  /** Sequence queries taking an argument; never rewrapped. */
  const Queries: map<string, OpName> := map[
    "__contains__" := Contains, "__getitem__" := GetItem]

  /** Single-operand methods that are rewrapped. */
  const RewrappedUnary: map<string, OpName> := map[
    "__abs__" := Abs, "__pos__" := Pos, "__neg__" := Neg, "__round__" := Round]

  /** Single-operand methods that return the raw result: conversions and
      sequence views. */
  const RawUnary: map<string, UnaryPrim> := map[
    "__complex__" := ToComplex, "__float__" := ToFloat, "__int__" := ToInt,
    "__len__" := Registered(Len), "__iter__" := Registered(Iter), "__array__" := ToArray]

  /** The reflected twins of the arithmetic methods; rewrapped, with the
      operands reversed. */
  const ReflectedArithmetic: map<string, OpName> := map[
    "__radd__" := Add, "__rsub__" := Sub, "__rmul__" := Mul,
    "__rtruediv__" := TrueDiv, "__rfloordiv__" := FloorDiv, "__rmod__" := Mod]

  /** `__op__` becomes `__rop__`. */
  function Reflected(name: string): string
    requires |name| >= 2
  {
    "__r" + name[2..]
  }

  /** The reflected twin of forward method `__op__` is the one named
      `__rop__`, and it applies the same primitive. */
  lemma ReflectedNaming(n: string)
    requires n in Arithmetic
    ensures Reflected(n) in ReflectedArithmetic && ReflectedArithmetic[Reflected(n)] == Arithmetic[n]
  {
    if n == "__add__" || n == "__sub__" {
      AdditiveReflectedNaming(n);
    } else if n == "__mul__" || n == "__truediv__" {
      MultiplicativeReflectedNaming(n);
    } else {
      RealReflectedNaming(n);
    }
  }

  /** The case split of `ReflectedNaming`, one mixin at a time, which
      keeps each proof small. */
  lemma AdditiveReflectedNaming(n: string)
    requires n == "__add__" || n == "__sub__"
    ensures Reflected(n) in ReflectedArithmetic && ReflectedArithmetic[Reflected(n)] == Arithmetic[n]
  {
    if n == "__add__" {
      assert Reflected(n) == "__radd__";
    } else {
      assert Reflected(n) == "__rsub__";
    }
  }

  lemma MultiplicativeReflectedNaming(n: string)
    requires n == "__mul__" || n == "__truediv__"
    ensures Reflected(n) in ReflectedArithmetic && ReflectedArithmetic[Reflected(n)] == Arithmetic[n]
  {
    if n == "__mul__" {
      assert Reflected(n) == "__rmul__";
    } else {
      assert Reflected(n) == "__rtruediv__";
    }
  }

  lemma RealReflectedNaming(n: string)
    requires n == "__floordiv__" || n == "__mod__"
    ensures Reflected(n) in ReflectedArithmetic && ReflectedArithmetic[Reflected(n)] == Arithmetic[n]
  {
    if n == "__floordiv__" {
      assert Reflected(n) == "__rfloordiv__";
    } else {
      assert Reflected(n) == "__rmod__";
    }
  }

  /** How the method called `name` behaves, when any mixin defines it. */
  function Policy(name: string): Option<Method>
  {
    if name == "__pow__" then Some(PowerMethod(false))
    else if name == "__rpow__" then Some(PowerMethod(true))
    else if name in Comparisons then Some(BinaryMethod(Comparisons[name], false, false))
    else if name in Queries then Some(BinaryMethod(Queries[name], false, false))
    else if name in Arithmetic then Some(BinaryMethod(Arithmetic[name], false, true))
    else if name in ReflectedArithmetic then Some(BinaryMethod(ReflectedArithmetic[name], true, true))
    else if name in RewrappedUnary then Some(UnaryMethod(Registered(RewrappedUnary[name]), true))
    else if name in RawUnary then Some(UnaryMethod(RawUnary[name], false))
    else None
  }

  /** Every method every mixin defines follows the policy. */
  lemma DefinesFollowPolicy(c: Capability, name: string)
    requires name in Defines(c)
    ensures Policy(name) == Some(Defines(c)[name])
  {
    match c
    case Orderable => OrderableFollowsPolicy(name);
    case Comparable => ComparableFollowsPolicy(name);
    case Additive => AdditiveFollowsPolicy(name);
    case Multiplicative => MultiplicativeFollowsPolicy(name);
    case Algebraic => AlgebraicFollowsPolicy(name);
    case Complex => ComplexFollowsPolicy(name);
    case Real => RealFollowsPolicy(name);
    case Value => ValueFollowsPolicy(name);
    case Sequence => SequenceFollowsPolicy(name);
  }

  lemma OrderableFollowsPolicy(name: string)
    requires name in Defines(Orderable)
    ensures Policy(name) == Some(Defines(Orderable)[name])
  {
  }

  lemma ComparableFollowsPolicy(name: string)
    requires name in Defines(Comparable)
    ensures Policy(name) == Some(Defines(Comparable)[name])
  {
  }

  lemma AdditiveFollowsPolicy(name: string)
    requires name in Defines(Additive)
    ensures Policy(name) == Some(Defines(Additive)[name])
  {
  }

  lemma MultiplicativeFollowsPolicy(name: string)
    requires name in Defines(Multiplicative)
    ensures Policy(name) == Some(Defines(Multiplicative)[name])
  {
  }

  lemma AlgebraicFollowsPolicy(name: string)
    requires name in Defines(Algebraic)
    ensures Policy(name) == Some(Defines(Algebraic)[name])
  {
  }

  lemma ComplexFollowsPolicy(name: string)
    requires name in Defines(Complex)
    ensures Policy(name) == Some(Defines(Complex)[name])
  {
  }

  lemma RealFollowsPolicy(name: string)
    requires name in Defines(Real)
    ensures Policy(name) == Some(Defines(Real)[name])
  {
  }

  lemma ValueFollowsPolicy(name: string)
    requires name in Defines(Value)
    ensures Policy(name) == Some(Defines(Value)[name])
  {
    if name == "__round__" {
      assert Policy(name) == Some(UnaryMethod(Registered(Round), true));
    } else {
      PolicyOfRawUnary(name);
    }
  }

  lemma SequenceFollowsPolicy(name: string)
    requires name in Defines(Sequence)
    ensures Policy(name) == Some(Defines(Sequence)[name])
  {
  }

  /** Lookup on a mixin finds a method exactly when the mixin provides
      that name. */
  lemma {:induction false} LookupFindsProvided(c: Capability, name: string)
    ensures Lookup(c, name).Some? <==> name in Provides(c)
    decreases Depth(c), 1, 0
  {
    LookupInFindsProvided(MixinBases(c), name, Depth(c));
  }

  lemma {:induction false} LookupInFindsProvided(bs: seq<Capability>, name: string, bound: nat)
    requires forall b :: b in bs ==> Depth(b) < bound
    ensures LookupIn(bs, name, bound).Some? <==> name in ProvidedByAll(bs, bound)
    decreases bound, 0, |bs|
  {
    if bs != [] {
      LookupFindsProvided(bs[0], name);
      LookupInFindsProvided(bs[1..], name, bound);
    }
  }

  /** Whatever definition lookup finds, inherited or not, follows the
      policy for its name. */
  lemma {:induction false} LookupFollowsPolicy(c: Capability, name: string)
    ensures Lookup(c, name).Some? ==> Lookup(c, name) == Policy(name)
    decreases Depth(c), 1, 0
  {
    if name in Defines(c) {
      DefinesFollowPolicy(c, name);
    } else {
      LookupInFollowsPolicy(MixinBases(c), name, Depth(c));
    }
  }

  lemma {:induction false} LookupInFollowsPolicy(bs: seq<Capability>, name: string, bound: nat)
    requires forall b :: b in bs ==> Depth(b) < bound
    ensures LookupIn(bs, name, bound).Some? ==> LookupIn(bs, name, bound) == Policy(name)
    decreases bound, 0, |bs|
  {
    if bs != [] {
      LookupFollowsPolicy(bs[0], name);
      LookupInFollowsPolicy(bs[1..], name, bound);
    }
  }

  /** Each mixin's own body defines exactly what the protocol of the same
      name declares. */
  lemma DefinesMatchDeclared(c: Capability)
    ensures Defines(c).Keys == Declared(c)
    ensures MixinBases(c) == Bases(c)
  {
  }

  /** Each mixin provides exactly the methods the protocol of the same name
      requires, inherited ones included, so composing a mixin is enough
      to satisfy its protocol. */
  lemma {:induction false} MixinCoversProtocol(c: Capability)
    ensures Provides(c) == Required(c)
    decreases Depth(c), 1, 0
  {
    DefinesMatchDeclared(c);
    ProvidedByAllCoversRequired(Bases(c), Depth(c));
  }

  lemma {:induction false} ProvidedByAllCoversRequired(bs: seq<Capability>, bound: nat)
    requires forall b :: b in bs ==> Depth(b) < bound
    ensures ProvidedByAll(bs, bound) == RequiredByAll(bs, bound)
    decreases bound, 0, |bs|
  {
    if bs != [] {
      MixinCoversProtocol(bs[0]);
      ProvidedByAllCoversRequired(bs[1..], bound);
    }
  }

  // ---------------------------------------------------------------------
  // Concrete classes: `Object` plus any number of mixins.

  /** Lookup through a class's mixins, in base-class order. */
  function LookupAmong(ms: seq<Capability>, name: string): Option<Method>
  {
    if ms == [] then None
    else
      match Lookup(ms[0], name)
      case Some(m) => Some(m)
      case None => LookupAmong(ms[1..], name)
  }

  /** The operator methods a class gets from its mixins. */
  function MixinMethods(ms: seq<Capability>): set<string>
  {
    if ms == [] then {} else Provides(ms[0]) + MixinMethods(ms[1..])
  }

  /** All methods of a class: `Object`'s, when it derives from it, and its
      mixins'. */
  function ClassMethods(cls: Class): set<string>
  {
    (if cls.derivesObject then ObjectMethods else {}) + MixinMethods(cls.mixins)
  }

  /** The runtime protocol check on instances of `cls`. */
  predicate Conforms(cls: Class, p: Capability)
  {
    Satisfies(ClassMethods(cls), p)
  }

  /** A class finds an operator method exactly when one of its mixins
      provides it, and the method found follows the policy. */
  lemma {:induction false} LookupAmongFollowsPolicy(ms: seq<Capability>, name: string)
    ensures LookupAmong(ms, name).Some? <==> name in MixinMethods(ms)
    ensures LookupAmong(ms, name).Some? ==> LookupAmong(ms, name) == Policy(name)
  {
    if ms != [] {
      LookupFindsProvided(ms[0], name);
      LookupFollowsPolicy(ms[0], name);
      LookupAmongFollowsPolicy(ms[1..], name);
    }
  }

  /** The methods of a class composed of mixins `ms` are exactly those the
      same-named protocols require. */
  lemma {:induction false} MixinMethodsAreRequired(ms: seq<Capability>, m: string)
    ensures m in MixinMethods(ms) <==> exists c :: c in ms && m in Required(c)
  {
    if ms != [] {
      MixinCoversProtocol(ms[0]);
      MixinMethodsAreRequired(ms[1..], m);
      assert forall c :: c in ms <==> c == ms[0] || c in ms[1..];
    }
  }

  /** A class conforms to every protocol whose mixin it composes, and to
      every protocol those extend. */
  lemma ComposedClassConforms(cls: Class, c: Capability, p: Capability)
    requires c in cls.mixins && Extends(c, p)
    ensures Conforms(cls, p)
  {
    RequiredGrowsAlongBases(c, p);
    forall m | m in Required(p)
      ensures m in ClassMethods(cls)
    {
      MixinMethodsAreRequired(cls.mixins, m);
    }
  }

  /** For a class built from one mixin, conforming to a protocol is the
      same as that mixin's protocol extending it: `Object`'s own methods
      never make a class conform to anything more. */
  lemma SingleMixinConformsIff(cls: Class, c: Capability, p: Capability)
    requires cls.mixins == [c]
    ensures Conforms(cls, p) <==> Extends(c, p)
  {
    if Extends(c, p) {
      ComposedClassConforms(cls, c, p);
    }
    if Conforms(cls, p) {
      forall m | m in Required(p)
        ensures m in Required(c)
      {
        ObjectDefinesNoOperators(p);
        MixinMethodsAreRequired(cls.mixins, m);
      }
      RequiredSubsetImpliesExtends(c, p);
    }
  }

  /** A class composed of the Real mixin passes the instance checks for
      Orderable, Comparable, Additive, Multiplicative, Algebraic, Complex
      and Real. */
  lemma RealClassConformance(cls: Class)
    requires Real in cls.mixins
    ensures Conforms(cls, Orderable) && Conforms(cls, Comparable)
    ensures Conforms(cls, Additive) && Conforms(cls, Multiplicative)
    ensures Conforms(cls, Algebraic) && Conforms(cls, Complex) && Conforms(cls, Real)
  {
    RealExtendsItsAncestors();
    ComposedClassConforms(cls, Real, Orderable);
    ComposedClassConforms(cls, Real, Comparable);
    ComposedClassConforms(cls, Real, Additive);
    ComposedClassConforms(cls, Real, Multiplicative);
    ComposedClassConforms(cls, Real, Algebraic);
    ComposedClassConforms(cls, Real, Complex);
    ComposedClassConforms(cls, Real, Real);
  }

  /** A class composed of the Real mixin alone passes exactly the
      instance checks the test suite expects of it: every protocol but
      Value and Sequence. */
  lemma RealClassConformsExactly(cls: Class, p: Capability)
    requires cls.mixins == [Real]
    ensures Conforms(cls, p) <==> p != Value && p != Sequence
  {
    SingleMixinConformsIff(cls, Real, p);
    RealExtendsExactly(p);
  }

  // ---------------------------------------------------------------------
  // Calling a method on an instance.

  /** The primitives the catalog operators and conversions stand for, on
      payloads of type `P`: two-operand operators, `pow` with its optional
      modulus (handed over as given, not unwrapped), and the one-operand
      primitives with any extra positional arguments. */
  datatype Prims<!P> = Prims(
    binop: (OpName, P, P) -> P,
    power: (P, P, Option<Operand<P>>) -> P,
    unop: (UnaryPrim, P, seq<Operand<P>>) -> P)

  /** What a method call gives back: a value, or the `AttributeError`
      for a method the class does not have, or the `TypeError` for a call
      with the wrong number of arguments. */
  datatype Outcome<P> = Returned(value: Operand<P>) | NoSuchMethod | WrongArity

  /** The two-operand primitive `op`, in the engine's calling convention. */
  function BinaryPrim<P>(prims: Prims<P>, op: OpName): (P, P, ()) -> P
  {
    (x: P, y: P, u: ()) => prims.binop(op, x, y)
  }

  /** The one-operand primitive `prim`, in the engine's calling convention. */
  function UnaryPrimitive<P>(prims: Prims<P>, prim: UnaryPrim): (P, seq<Operand<P>>) -> P
  {
    (x: P, extra: seq<Operand<P>>) => prims.unop(prim, x, extra)
  }

  /** The undecorated body of a two-operand method: `binary(op, self,
      other)`, or `binary(op, other, self)` for a reflected one. */
  function BinaryBody<P>(prims: Prims<P>, op: OpName, reflected: bool): (Instance<P>, Operand<P>) -> P
  {
    (self: Instance<P>, other: Operand<P>) =>
      if reflected then Operations.Binary(BinaryPrim(prims, op), other, Wrapped(self), ())
      else Operations.Binary(BinaryPrim(prims, op), Wrapped(self), other, ())
  }

  /** The undecorated body of `__pow__` / `__rpow__`: `binary(pow, self,
      other, mod=mod)`, operands reversed for the reflected one. */
  function PowerBody<P>(prims: Prims<P>, reflected: bool): (Instance<P>, (Operand<P>, Option<Operand<P>>)) -> P
  {
    (self: Instance<P>, args: (Operand<P>, Option<Operand<P>>)) =>
      if reflected then Operations.Binary(prims.power, args.0, Wrapped(self), args.1)
      else Operations.Binary(prims.power, Wrapped(self), args.0, args.1)
  }

  /** The undecorated body of a one-operand method: `unary(prim, self,
      *args)`. */
  function UnaryBody<P>(prims: Prims<P>, prim: UnaryPrim): (Instance<P>, seq<Operand<P>>) -> P
  {
    (self: Instance<P>, extra: seq<Operand<P>>) => Operations.Unary(UnaryPrimitive(prims, prim), Wrapped(self), extra)
  }

  /** A method body run as defined: decorated with `mytype` when the method
      rewraps, returning the primitive's raw result otherwise. */
  function Finish<P, A>(body: (Instance<P>, A) -> P, rewrap: bool, self: Instance<P>, args: A): Operand<P>
  {
    if rewrap then Wrapped(Operations.MyType(body)(self, args)) else Raw(body(self, args))
  }

  /** Running method `m` on receiver `self` with positional arguments
      `args`.  Two-operand methods take exactly one argument; `__pow__` and
      `__rpow__` take the other operand and an optional modulus; `__array__`
      takes any number of extra arguments; the other one-operand methods
      take none. */
  function Apply<P>(prims: Prims<P>, m: Method, self: Instance<P>, args: seq<Operand<P>>): Outcome<P>
  {
    match m
    case BinaryMethod(op, reflected, rewrap) =>
      if |args| != 1 then WrongArity
      else Returned(Finish(BinaryBody(prims, op, reflected), rewrap, self, args[0]))
    case PowerMethod(reflected) =>
      if |args| == 0 || |args| > 2 then WrongArity
      else
        var mod := if |args| == 2 then Some(args[1]) else None;
        Returned(Finish(PowerBody(prims, reflected), true, self, (args[0], mod)))
    case UnaryMethod(prim, rewrap) =>
      if prim != ToArray && |args| != 0 then WrongArity
      else Returned(Finish(UnaryBody(prims, prim), rewrap, self, args))
  }

  /** `self.<name>(*args)`: look the method up through the receiver's
      mixins and run it. */
  function Call<P>(prims: Prims<P>, self: Instance<P>, name: string, args: seq<Operand<P>>): Outcome<P>
  {
    match LookupAmong(self.cls.mixins, name)
    case None => NoSuchMethod
    case Some(m) => Apply(prims, m, self, args)
  }

  /** A call reaches a method exactly when one of the receiver's mixins
      provides the name, and then runs the method the policy assigns to
      that name, whichever mixin supplies it. */
  lemma CallFollowsPolicy<P>(prims: Prims<P>, self: Instance<P>, name: string, args: seq<Operand<P>>)
    ensures Call(prims, self, name, args) == NoSuchMethod <==> name !in MixinMethods(self.cls.mixins)
    ensures name in MixinMethods(self.cls.mixins) ==>
      Policy(name).Some? && Call(prims, self, name, args) == Apply(prims, Policy(name).value, self, args)
  {
    LookupAmongFollowsPolicy(self.cls.mixins, name);
  }

  /** What running each kind of method computes, stated on the payloads. */
  lemma ApplyBinaryMethod<P>(prims: Prims<P>, op: OpName, reflected: bool, rewrap: bool, self: Instance<P>, other: Operand<P>)
    ensures Apply(prims, BinaryMethod(op, reflected, rewrap), self, [other]) == Returned(
      var r := if reflected then prims.binop(op, Unwrap(other), self.data) else prims.binop(op, self.data, Unwrap(other));
      if rewrap then Wrapped(Instance(self.cls, r)) else Raw(r))
  {
    assert BinaryBody(prims, op, reflected)(self, other)
      == if reflected then prims.binop(op, Unwrap(other), self.data) else prims.binop(op, self.data, Unwrap(other));
    Operations.MyTypeRebuildsInReceiverClass(BinaryBody(prims, op, reflected), self, other);
  }

  lemma ApplyPowerMethod<P>(prims: Prims<P>, reflected: bool, self: Instance<P>, other: Operand<P>, mod: Option<Operand<P>>)
    ensures Apply(prims, PowerMethod(reflected), self, if mod.Some? then [other, mod.value] else [other]) == Returned(
      var r := if reflected then prims.power(Unwrap(other), self.data, mod) else prims.power(self.data, Unwrap(other), mod);
      Wrapped(Instance(self.cls, r)))
  {
    assert PowerBody(prims, reflected)(self, (other, mod))
      == if reflected then prims.power(Unwrap(other), self.data, mod) else prims.power(self.data, Unwrap(other), mod);
    Operations.MyTypeRebuildsInReceiverClass(PowerBody(prims, reflected), self, (other, mod));
  }

  lemma ApplyUnaryMethod<P>(prims: Prims<P>, prim: UnaryPrim, rewrap: bool, self: Instance<P>, extra: seq<Operand<P>>)
    ensures Apply(prims, UnaryMethod(prim, rewrap), self, extra) ==
      if prim != ToArray && extra != [] then WrongArity
      else if rewrap then Returned(Wrapped(Instance(self.cls, prims.unop(prim, self.data, extra))))
      else Returned(Raw(prims.unop(prim, self.data, extra)))
  {
    assert UnaryBody(prims, prim)(self, extra) == prims.unop(prim, self.data, extra);
    Operations.MyTypeRebuildsInReceiverClass(UnaryBody(prims, prim), self, extra);
  }

  /** The policy for each group of names. */
  lemma PolicyOfComparison(name: string)
    requires name in Comparisons
    ensures Policy(name) == Some(BinaryMethod(Comparisons[name], false, false))
  {
  }

  lemma PolicyOfQuery(name: string)
    requires name in Queries
    ensures Policy(name) == Some(BinaryMethod(Queries[name], false, false))
  {
  }

  lemma PolicyOfArithmetic(name: string)
    requires name in Arithmetic
    ensures Policy(name) == Some(BinaryMethod(Arithmetic[name], false, true))
  {
  }

  lemma PolicyOfReflectedArithmetic(name: string)
    requires name in ReflectedArithmetic
    ensures Policy(name) == Some(BinaryMethod(ReflectedArithmetic[name], true, true))
  {
  }

  lemma PolicyOfRewrappedUnary(name: string)
    requires name in RewrappedUnary
    ensures Policy(name) == Some(UnaryMethod(Registered(RewrappedUnary[name]), true))
  {
  }

  lemma PolicyOfRawUnary(name: string)
    requires name in RawUnary
    ensures Policy(name) == Some(UnaryMethod(RawUnary[name], false))
  {
    if name == "__complex__" || name == "__float__" || name == "__int__" {
      PolicyOfConversion(name);
    } else {
      PolicyOfSequenceView(name);
    }
  }

  lemma PolicyOfConversion(name: string)
    requires name == "__complex__" || name == "__float__" || name == "__int__"
    ensures Policy(name) == Some(UnaryMethod(RawUnary[name], false))
  {
  }

  lemma PolicyOfSequenceView(name: string)
    requires name == "__len__" || name == "__iter__" || name == "__array__"
    ensures Policy(name) == Some(UnaryMethod(RawUnary[name], false))
  {
  }

  /** `__array__` is the only raw method whose primitive is `numpy.array`. */
  lemma RawUnaryArray(name: string)
    requires name in RawUnary
    ensures RawUnary[name] == ToArray <==> name == "__array__"
  {
  }

  /** Comparisons apply their primitive to the receiver's payload and the
      other operand's, in that order, and return the result raw. */
  lemma ComparisonsReturnRaw<P>(prims: Prims<P>, self: Instance<P>, name: string, other: Operand<P>)
    requires name in Comparisons && name in MixinMethods(self.cls.mixins)
    ensures Call(prims, self, name, [other]) == Returned(Raw(prims.binop(Comparisons[name], self.data, Unwrap(other))))
  {
    CallFollowsPolicy(prims, self, name, [other]);
    PolicyOfComparison(name);
    ApplyBinaryMethod(prims, Comparisons[name], false, false, self, other);
  }

  /** `__contains__` and `__getitem__` apply their primitive to the
      receiver's payload and the argument, and return the result raw. */
  lemma QueriesReturnRaw<P>(prims: Prims<P>, self: Instance<P>, name: string, arg: Operand<P>)
    requires name in Queries && name in MixinMethods(self.cls.mixins)
    ensures Call(prims, self, name, [arg]) == Returned(Raw(prims.binop(Queries[name], self.data, Unwrap(arg))))
  {
    CallFollowsPolicy(prims, self, name, [arg]);
    PolicyOfQuery(name);
    ApplyBinaryMethod(prims, Queries[name], false, false, self, arg);
  }

  /** Forward arithmetic rebuilds the primitive's result on the two
      payloads as an instance of the receiver's class. */
  lemma ForwardArithmeticRewraps<P>(prims: Prims<P>, self: Instance<P>, name: string, other: Operand<P>)
    requires name in Arithmetic && name in MixinMethods(self.cls.mixins)
    ensures Call(prims, self, name, [other])
         == Returned(Wrapped(Instance(self.cls, prims.binop(Arithmetic[name], self.data, Unwrap(other)))))
  {
    CallFollowsPolicy(prims, self, name, [other]);
    PolicyOfArithmetic(name);
    ApplyBinaryMethod(prims, Arithmetic[name], false, true, self, other);
  }

  /** Reflected arithmetic puts the other operand first and still rebuilds
      the result in the receiver's class. */
  lemma ReflectedArithmeticReverses<P>(prims: Prims<P>, self: Instance<P>, name: string, other: Operand<P>)
    requires name in ReflectedArithmetic && name in MixinMethods(self.cls.mixins)
    ensures Call(prims, self, name, [other])
         == Returned(Wrapped(Instance(self.cls, prims.binop(ReflectedArithmetic[name], Unwrap(other), self.data))))
  {
    CallFollowsPolicy(prims, self, name, [other]);
    PolicyOfReflectedArithmetic(name);
    ApplyBinaryMethod(prims, ReflectedArithmetic[name], true, true, self, other);
  }

  /** `a.__op__(b)` and `b.__rop__(a)` compute the same payload, the
      primitive applied to `a`'s payload then `b`'s; each result takes
      the class of the instance whose method ran. */
  lemma ForwardAndReflectedAgree<P>(prims: Prims<P>, a: Instance<P>, b: Instance<P>, name: string)
    requires name in Arithmetic
    requires name in MixinMethods(a.cls.mixins) && Reflected(name) in MixinMethods(b.cls.mixins)
    ensures var v := prims.binop(Arithmetic[name], a.data, b.data);
      && Call(prims, a, name, [Wrapped(b)]) == Returned(Wrapped(Instance(a.cls, v)))
      && Call(prims, b, Reflected(name), [Wrapped(a)]) == Returned(Wrapped(Instance(b.cls, v)))
  {
    ReflectedNaming(name);
    ForwardArithmeticRewraps(prims, a, name, Wrapped(b));
    ReflectedArithmeticReverses(prims, b, Reflected(name), Wrapped(a));
  }

  /** `__pow__` and `__rpow__` hand the modulus to `pow` untouched (a
      missing one as `None`) and rebuild the result in the receiver's
      class; `__rpow__` puts the other operand first. */
  lemma PowerForwardsMod<P>(prims: Prims<P>, self: Instance<P>, other: Operand<P>, mod: Option<Operand<P>>)
    ensures "__pow__" in MixinMethods(self.cls.mixins) ==>
      Call(prims, self, "__pow__", if mod.Some? then [other, mod.value] else [other])
        == Returned(Wrapped(Instance(self.cls, prims.power(self.data, Unwrap(other), mod))))
    ensures "__rpow__" in MixinMethods(self.cls.mixins) ==>
      Call(prims, self, "__rpow__", if mod.Some? then [other, mod.value] else [other])
        == Returned(Wrapped(Instance(self.cls, prims.power(Unwrap(other), self.data, mod))))
  {
    var args := if mod.Some? then [other, mod.value] else [other];
    CallFollowsPolicy(prims, self, "__pow__", args);
    CallFollowsPolicy(prims, self, "__rpow__", args);
    ApplyPowerMethod(prims, false, self, other, mod);
    ApplyPowerMethod(prims, true, self, other, mod);
  }

  /** `abs`, `+`, `-` and `round` rebuild the primitive's result in the
      receiver's class, and accept no argument. */
  lemma UnaryRewrapped<P>(prims: Prims<P>, self: Instance<P>, name: string, extra: seq<Operand<P>>)
    requires name in RewrappedUnary && name in MixinMethods(self.cls.mixins)
    ensures Call(prims, self, name, extra) ==
      if extra == [] then Returned(Wrapped(Instance(self.cls, prims.unop(Registered(RewrappedUnary[name]), self.data, []))))
      else WrongArity
  {
    CallFollowsPolicy(prims, self, name, extra);
    PolicyOfRewrappedUnary(name);
    ApplyUnaryMethod(prims, Registered(RewrappedUnary[name]), true, self, extra);
  }

  /** Conversions, `len`, `iter` and `__array__` return the primitive's
      raw result; only `__array__` forwards extra arguments. */
  lemma RawUnaryResults<P>(prims: Prims<P>, self: Instance<P>, name: string, extra: seq<Operand<P>>)
    requires name in RawUnary && name in MixinMethods(self.cls.mixins)
    ensures name == "__array__" ==>
      Call(prims, self, name, extra) == Returned(Raw(prims.unop(ToArray, self.data, extra)))
    ensures name != "__array__" ==>
      Call(prims, self, name, extra)
        == if extra == [] then Returned(Raw(prims.unop(RawUnary[name], self.data, []))) else WrongArity
  {
    CallFollowsPolicy(prims, self, name, extra);
    PolicyOfRawUnary(name);
    RawUnaryArray(name);
    ApplyUnaryMethod(prims, RawUnary[name], false, self, extra);
  }

  /** A returned value is an instance exactly when the method rewraps,
      and then it is an instance of the receiver's class. */
  lemma ResultClassIsReceiver<P>(prims: Prims<P>, self: Instance<P>, name: string, args: seq<Operand<P>>)
    requires Call(prims, self, name, args).Returned?
    ensures Policy(name).Some?
    ensures Call(prims, self, name, args).value.Wrapped? <==> Policy(name).value.Rewraps()
    ensures Call(prims, self, name, args).value.Wrapped? ==> Call(prims, self, name, args).value.inst.cls == self.cls
  {
    CallFollowsPolicy(prims, self, name, args);
    match Policy(name).value
    case BinaryMethod(op, reflected, rewrap) =>
      assert args == [args[0]];
      ApplyBinaryMethod(prims, op, reflected, rewrap, self, args[0]);
    case PowerMethod(reflected) =>
      var mod := if |args| == 2 then Some(args[1]) else None;
      assert args == if mod.Some? then [args[0], mod.value] else [args[0]];
      ApplyPowerMethod(prims, reflected, self, args[0], mod);
    case UnaryMethod(prim, rewrap) =>
      ApplyUnaryMethod(prims, prim, rewrap, self, args);
  }

  /** A class built from one mixin has exactly the methods that mixin's
      protocol requires. */
  lemma SingleMixinMethods(ms: seq<Capability>, c: Capability)
    requires ms == [c]
    ensures MixinMethods(ms) == Required(c)
  {
    MixinCoversProtocol(c);
    assert MixinMethods(ms) == Provides(c) + MixinMethods(ms[1..]);
  }

  /** A name none of the receiver's mixins provides is never dispatched,
      whatever the arguments. */
  lemma MissingMethodIsNotDispatched<P>(prims: Prims<P>, self: Instance<P>, name: string, args: seq<Operand<P>>)
    requires name !in MixinMethods(self.cls.mixins)
    ensures Call(prims, self, name, args) == NoSuchMethod
  {
    LookupAmongFollowsPolicy(self.cls.mixins, name);
  }

  /** A complex-valued class lacks every method the Real mixin adds:
      `__rpow__`, floor division and modulus, forward and reflected. */
  lemma ComplexClassLacksRealMethods(ms: seq<Capability>, name: string)
    requires ms == [Complex] && name in Declared(Real)
    ensures name !in MixinMethods(ms)
  {
    RealAddsToComplex(name);
    SingleMixinMethods(ms, Complex);
  }

  /** Calling one of those methods on a complex-valued instance fails
      with no method to dispatch to. */
  lemma ComplexLacksRealOperators<P>(prims: Prims<P>, self: Instance<P>, name: string, args: seq<Operand<P>>)
    requires self.cls.mixins == [Complex] && name in Declared(Real)
    ensures Call(prims, self, name, args) == NoSuchMethod
  {
    ComplexClassLacksRealMethods(self.cls.mixins, name);
    MissingMethodIsNotDispatched(prims, self, name, args);
  }
}
