/** The dispatch engine: unwrap whichever operands are quantities, apply
    a primitive to the payloads, and optionally rebuild the result as an
    instance of the receiver's own class.

    A primitive's extra positional and keyword arguments are one value of
    type `A`, handed to the primitive as they were given. */
module Operations {

  import opened Types

  /** `unary(f, a, *args, **kwargs)`. */
  function Unary<P, A, R>(f: (P, A) -> R, a: Operand<P>, extra: A): (r: R)
    ensures a.Wrapped? ==> r == f(a.inst.data, extra)
    ensures a.Raw? ==> r == f(a.value, extra)
  {
    f(Unwrap(a), extra)
  }

  /** `binary(f, a, b, *args, **kwargs)`. */
  function Binary<P, A, R>(f: (P, P, A) -> R, a: Operand<P>, b: Operand<P>, extra: A): (r: R)
    ensures a.Wrapped? && b.Wrapped? ==> r == f(a.inst.data, b.inst.data, extra)
    ensures a.Wrapped? && b.Raw? ==> r == f(a.inst.data, b.value, extra)
    ensures a.Raw? && b.Wrapped? ==> r == f(a.value, b.inst.data, extra)
    ensures a.Raw? && b.Raw? ==> r == f(a.value, b.value, extra)
  {
    f(Unwrap(a), Unwrap(b), extra)
  }

  /** `mytype(m)`: method `m` with its result rebuilt as
      `type(self)(result)`. */
  function MyType<P, A>(m: (Instance<P>, A) -> P): (Instance<P>, A) -> Instance<P>
  {
    (self: Instance<P>, args: A) => Construct(self.cls, m(self, args))
  }

  /** A rewrapped method returns an instance of the receiver's dynamic
      class whose payload is exactly the undecorated method's result. */
  lemma MyTypeRebuildsInReceiverClass<P, A>(m: (Instance<P>, A) -> P, self: Instance<P>, args: A)
    ensures MyType(m)(self, args).cls == self.cls
    ensures Unwrap(Wrapped(MyType(m)(self, args))) == m(self, args)
  {
  }

  /** The primitive with its two operands exchanged. */
  function Flip<P, A, R>(f: (P, P, A) -> R): (P, P, A) -> R
  {
    (x: P, y: P, extra: A) => f(y, x, extra)
  }

  /** Unwrapping is transparent: a quantity and its bare payload give the
      primitive the same input, whatever the quantity's class. */
  lemma UnaryIsTransparent<P, A, R>(f: (P, A) -> R, c: Class, x: P, extra: A)
    ensures Unary(f, Wrapped(Instance(c, x)), extra) == Unary(f, Raw(x), extra) == f(x, extra)
  {
  }

  /** Each side is unwrapped on its own: a wrapped left, a wrapped right,
      or two instances of unrelated classes all reach the primitive as
      their payloads, with the raw side untouched. */
  lemma BinaryUnwrapsEachSide<P, A, R>(f: (P, P, A) -> R, c1: Class, c2: Class, x: P, y: P, extra: A)
    ensures Binary(f, Wrapped(Instance(c1, x)), Raw(y), extra) == f(x, y, extra)
    ensures Binary(f, Raw(x), Wrapped(Instance(c2, y)), extra) == f(x, y, extra)
    ensures Binary(f, Wrapped(Instance(c1, x)), Wrapped(Instance(c2, y)), extra) == f(x, y, extra)
    ensures Binary(f, Raw(x), Raw(y), extra) == f(x, y, extra)
  {
  }

  /** The engine never reorders operands: exchanging them is the same as
      exchanging the primitive's arguments, so the first operand always
      becomes the primitive's first argument. */
  lemma BinaryNeverSwaps<P, A, R>(f: (P, P, A) -> R, a: Operand<P>, b: Operand<P>, extra: A)
    ensures Binary(f, a, b, extra) == Binary(Flip(f), b, a, extra)
    ensures Binary(f, a, b, extra) == f(Unwrap(a), Unwrap(b), extra)
  {
  }

  /** A forward binary method before decoration: the primitive applied to
      the receiver and the other operand, in that order. */
  function ForwardMethod<P, A>(f: (P, P, A) -> P, extra: A): (Instance<P>, Operand<P>) -> P
  {
    (self: Instance<P>, other: Operand<P>) => Binary(f, Wrapped(self), other, extra)
  }

  /** Rewrapping keeps the receiver's class and only that: the class of
      any other operand has no say, and the payload is the primitive's
      raw result on the two payloads. */
  lemma RewrapFollowsReceiver<P, A>(
    f: (P, P, A) -> P, extra: A, self: Instance<P>, other: Instance<P>, c: Class)
    ensures MyType(ForwardMethod(f, extra))(self, Wrapped(other)).cls == self.cls
    ensures MyType(ForwardMethod(f, extra))(self, Wrapped(other)).data == f(self.data, other.data, extra)
    ensures MyType(ForwardMethod(f, extra))(self, Wrapped(other))
         == MyType(ForwardMethod(f, extra))(self, Wrapped(other.(cls := c)))
  {
    MyTypeRebuildsInReceiverClass(ForwardMethod(f, extra), self, Wrapped(other));
    MyTypeRebuildsInReceiverClass(ForwardMethod(f, extra), self, Wrapped(other.(cls := c)));
  }
}
