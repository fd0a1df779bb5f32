/** Numerical objects: the structural `Quantity` check (anything with a
    `_data` attribute) and the concrete `Object` base, which stores its
    payload and renders it as text but defines no operators. */
module Types {

  import opened Optional
  import Protocols

  /** A Python class as far as dispatch cares: its qualified name, whether
      it derives from the package's `Object` base, and the capability
      mixins it composes, in base-class order. */
  datatype Class = Class(qualname: string, derivesObject: bool, mixins: seq<Protocols.Capability>)

  /** An instance carrying a `_data` payload. */
  datatype Instance<P> = Instance(cls: Class, data: P)

  /** An operand as the dispatch engine sees it: a raw payload value, or
      an instance that carries one. */
  datatype Operand<P> = Raw(value: P) | Wrapped(inst: Instance<P>)

  /** The runtime `Quantity` check: structural, so every instance with a
      `_data` attribute qualifies, whatever its class. */
  predicate IsQuantity<P>(o: Operand<P>)
  {
    o.Wrapped?
  }

  /** `a._data if isinstance(a, Quantity) else a`: the payload of a
      quantity, or a raw operand unchanged. */
  function Unwrap<P>(o: Operand<P>): (x: P)
    ensures IsQuantity(o) ==> x == o.inst.data
    ensures !IsQuantity(o) ==> o == Raw(x)
  {
    match o
    case Raw(v) => v
    case Wrapped(i) => i.data
  }

  /** Being a quantity depends on carrying a payload, never on the class:
      instances of classes that do not derive from `Object` qualify too,
      and unwrapping them yields their payload.  These facts follow
      directly from the definitions of `IsQuantity` and `Unwrap`; the
      engine's use of the check is stated by `Operations.UnaryIsTransparent`
      and `Operations.BinaryUnwrapsEachSide`. */
  lemma QuantityIsStructural<P>(c: Class, d: P)
    ensures IsQuantity(Wrapped(Instance(c, d)))
    ensures IsQuantity(Wrapped(Instance(c.(derivesObject := false), d)))
    ensures Unwrap(Wrapped(Instance(c, d))) == Unwrap(Wrapped(Instance(c.(derivesObject := false), d)))
    ensures !IsQuantity(Raw(d))
  {
  }

  /** `Object.__init__`: an instance of `cls` storing `data` unchanged. */
  function Construct<P>(cls: Class, data: P): (o: Instance<P>)
    ensures Unwrap(Wrapped(o)) == data
    ensures o.cls == cls
  {
    Instance(cls, data)
  }

  /** `str(obj)`: the payload's own text, given the payload's `str`. */
  function Str<P>(show: P -> string, o: Instance<P>): string
  {
    show(o.data)
  }

  /** `repr(obj)`: the dynamic class's qualified name, then the object's
      `str` in parentheses. */
  function Repr<P>(show: P -> string, o: Instance<P>): string
  {
    o.cls.qualname + "(" + Str(show, o) + ")"
  }

  /** `str` of an object is the payload's `str`, so two objects with the
      same payload print alike whatever their classes. */
  lemma StrIsPayloadStr<P>(show: P -> string, c1: Class, c2: Class, d: P)
    ensures Str(show, Construct(c1, d)) == show(d)
    ensures Str(show, Construct(c1, d)) == Str(show, Construct(c2, d))
  {
  }

  /** Position of the first `c` in `s`, or `|s|` when there is none. */
  function IndexOf(s: string, c: char): (i: nat)
    ensures i <= |s|
    ensures i < |s| ==> s[i] == c
    ensures forall j :: 0 <= j < i ==> s[j] != c
  {
    if |s| == 0 then 0
    else if s[0] == c then 0
    else 1 + IndexOf(s[1..], c)
  }

  /** Reads a constructor-style text `Name(text)` back into the name and
      the text between the first `(` and the final `)`. */
  function ParseRepr(s: string): Option<(string, string)>
  {
    var i := IndexOf(s, '(');
    if i < |s| && |s| >= i + 2 && s[|s| - 1] == ')' then Some((s[..i], s[i + 1..|s| - 1]))
    else None
  }

  /** `repr` reads back to the dynamic class's name and the object's
      `str`: it names the receiver's own class, not the base `Object`,
      and embeds the payload text verbatim. */
  lemma ReprRoundTrip<P>(show: P -> string, o: Instance<P>)
    requires '(' !in o.cls.qualname
    ensures ParseRepr(Repr(show, o)) == Some((o.cls.qualname, Str(show, o)))
  {
    var q, t := o.cls.qualname, Str(show, o);
    var s := Repr(show, o);
    assert s == q + ['('] + t + [')'];
    assert s[|q|] == '(';
    var i := IndexOf(s, '(');
    assert i == |q|;
    assert s[..i] == q;
    assert s[i + 1..|s| - 1] == t;
  }

  /** The methods `Object` itself defines. */
  const ObjectMethods: set<string> := {"__init__", "__repr__", "__str__"}

  /** No protocol declares a method of `Object`. */
  lemma ObjectMethodsUndeclared(a: Protocols.Capability)
    ensures ObjectMethods !! Protocols.Declared(a)
  {
  }

  /** `Object` defines construction and text only: none of its methods is
      required by any capability protocol. */
  lemma ObjectDefinesNoOperators(c: Protocols.Capability)
    ensures ObjectMethods !! Protocols.Required(c)
  {
    forall m | m in ObjectMethods
      ensures m !in Protocols.Required(c)
    {
      Protocols.RequiredFromAncestors(c, m);
      forall a | Protocols.Extends(c, a)
        ensures m !in Protocols.Declared(a)
      {
        ObjectMethodsUndeclared(a);
      }
    }
  }
}
