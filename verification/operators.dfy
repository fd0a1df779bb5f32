/** The namespace of standard operators: a catalog of 21 named
    primitives, and the memo table that makes constructing an operator
    with the same arguments return the same instance. */
module Operators {

  import opened Optional

  /** The operators of the catalog, in the order the namespace defines
      them. */
  datatype OpName =
    | Abs | Pos | Neg | Round
    | Eq | Ne | Lt | Le | Gt | Ge
    | Add | Sub | Mul | TrueDiv | FloorDiv | Mod | Pow
    | Contains | Len | Iter | GetItem

  /** Identity of the Python callable an operator wraps: a function of
      the `builtins` module or of the `operator` module, by name. */
  datatype Primitive = Builtin(name: string) | OperatorModule(name: string)

  /** The symbolic string each catalog entry is constructed with (and
      which its `repr` shows). */
  function Symbol(op: OpName): string
  {
    match op
    case Abs => "abs(a)"
    case Pos => "+a"
    case Neg => "-a"
    case Round => "round(a)"
    case Eq => "a == b"
    case Ne => "a != b"
    case Lt => "a < b"
    case Le => "a <= b"
    case Gt => "a > b"
    case Ge => "a >= b"
    case Add => "a + b"
    case Sub => "a - b"
    case Mul => "a * b"
    case TrueDiv => "a / b"
    case FloorDiv => "a // b"
    case Mod => "a % b"
    case Pow => "a ** b"
    case Contains => "x in a"
    case Len => "len(a)"
    case Iter => "iter(a)"
    case GetItem => "a[i]"
  }

  /** The callable each catalog entry wraps. */
  function Implementation(op: OpName): Primitive
  {
    match op
    case Abs => Builtin("abs")
    case Pos => OperatorModule("pos")
    case Neg => OperatorModule("neg")
    case Round => Builtin("round")
    case Eq => OperatorModule("eq")
    case Ne => OperatorModule("ne")
    case Lt => OperatorModule("lt")
    case Le => OperatorModule("le")
    case Gt => OperatorModule("gt")
    case Ge => OperatorModule("ge")
    case Add => OperatorModule("add")
    case Sub => OperatorModule("sub")
    case Mul => OperatorModule("mul")
    case TrueDiv => OperatorModule("truediv")
    case FloorDiv => OperatorModule("floordiv")
    case Mod => OperatorModule("mod")
    case Pow => Builtin("pow")
    case Contains => OperatorModule("contains")
    case Len => Builtin("len")
    case Iter => Builtin("iter")
    case GetItem => OperatorModule("getitem")
  }

  /** Reads a symbolic string back to the catalog entry that renders as
      it, if any. */
  function ParseSymbol(s: string): Option<OpName>
  {
    if s == "abs(a)" then Some(Abs)
    else if s == "+a" then Some(Pos)
    else if s == "-a" then Some(Neg)
    else if s == "round(a)" then Some(Round)
    else if s == "a == b" then Some(Eq)
    else if s == "a != b" then Some(Ne)
    else if s == "a < b" then Some(Lt)
    else if s == "a <= b" then Some(Le)
    else if s == "a > b" then Some(Gt)
    else if s == "a >= b" then Some(Ge)
    else if s == "a + b" then Some(Add)
    else if s == "a - b" then Some(Sub)
    else if s == "a * b" then Some(Mul)
    else if s == "a / b" then Some(TrueDiv)
    else if s == "a // b" then Some(FloorDiv)
    else if s == "a % b" then Some(Mod)
    else if s == "a ** b" then Some(Pow)
    else if s == "x in a" then Some(Contains)
    else if s == "len(a)" then Some(Len)
    else if s == "iter(a)" then Some(Iter)
    else if s == "a[i]" then Some(GetItem)
    else None
  }

  /** Reading a symbol back recovers the operator. */
  lemma ParseSymbolInvertsSymbol(op: OpName)
    ensures ParseSymbol(Symbol(op)) == Some(op)
  {
    match op
    case Abs => case Pos => case Neg => case Round =>
    case Eq => case Ne => case Lt => case Le => case Gt => case Ge =>
    case Add => case Sub => case Mul => case TrueDiv => case FloorDiv => case Mod => case Pow =>
    case Contains => case Len => case Iter => case GetItem =>
  }

  /** Only the catalog's symbols read back at all, each to the operator
      that renders as it. */
  lemma ParseSymbolIsSound(s: string, op: OpName)
    requires ParseSymbol(s) == Some(op)
    ensures Symbol(op) == s
  {
    match op
    case Abs => case Pos => case Neg => case Round =>
    case Eq => case Ne => case Lt => case Le => case Gt => case Ge =>
    case Add => case Sub => case Mul => case TrueDiv => case FloorDiv => case Mod => case Pow =>
    case Contains => case Len => case Iter => case GetItem =>
  }

  /** The 21 symbols are pairwise distinct. */
  lemma SymbolInjective(a: OpName, b: OpName)
    requires Symbol(a) == Symbol(b)
    ensures a == b
  {
    ParseSymbolInvertsSymbol(a);
    ParseSymbolInvertsSymbol(b);
  }

  /** The catalog, in definition order. */
  const Catalog: seq<OpName> :=
    [Abs, Pos, Neg, Round, Eq, Ne, Lt, Le, Gt, Ge,
     Add, Sub, Mul, TrueDiv, FloorDiv, Mod, Pow,
     Contains, Len, Iter, GetItem]

  /** Where each operator sits in the catalog. */
  function Position(op: OpName): (i: nat)
    ensures i < |Catalog| && Catalog[i] == op
  {
    match op
    case Abs => 0 case Pos => 1 case Neg => 2 case Round => 3
    case Eq => 4 case Ne => 5 case Lt => 6 case Le => 7 case Gt => 8 case Ge => 9
    case Add => 10 case Sub => 11 case Mul => 12 case TrueDiv => 13
    case FloorDiv => 14 case Mod => 15 case Pow => 16
    case Contains => 17 case Len => 18 case Iter => 19 case GetItem => 20
  }

  lemma CatalogListsEveryOperatorOnce()
    ensures |Catalog| == 21
    ensures forall op: OpName :: op in Catalog
    ensures forall i, j :: 0 <= i < j < |Catalog| ==> Catalog[i] != Catalog[j]
  {
    forall op: OpName
      ensures op in Catalog
    {
      assert Catalog[Position(op)] == op;
    }
  }

  /** An operator instance: the wrapped callable and its symbolic string. */
  datatype Operator = Operator(f: Primitive, operation: string)

  /** The constructor arguments an instance is memoised under. */
  type Key = (Primitive, string)

  /** The class-level memo table `_DEFINED` together with the heap of
      instances ever created; a handle is an index into `instances`, so
      two handles are the same instance exactly when they are equal. */
  datatype Registry = Registry(defined: map<Key, nat>, instances: seq<Operator>)

  /** The registry's invariant: each memoised key names a live instance
      whose fields are that key, and no two keys share an instance. */
  ghost predicate Valid(r: Registry)
  {
    && (forall k :: k in r.defined ==>
          r.defined[k] < |r.instances| && r.instances[r.defined[k]] == Operator(k.0, k.1))
    && (forall k1, k2 :: k1 in r.defined && k2 in r.defined && k1 != k2 ==>
          r.defined[k1] != r.defined[k2])
  }

  const Empty: Registry := Registry(map[], [])

  lemma EmptyIsValid()
    ensures Valid(Empty)
  {
  }

  /** `__new__`: the memoised instance for the argument tuple, or a
      freshly allocated one, memoised under that tuple before it is
      returned.  A fresh instance starts with the fields `__init__` is
      about to assign. */
  function New(r: Registry, key: Key): (res: (Registry, nat))
    requires Valid(r)
    ensures key in r.defined ==> res == (r, r.defined[key])
    ensures key !in r.defined ==>
      && res.1 == |r.instances| && res.0.defined == r.defined[key := res.1]
      && res.0.instances == r.instances + [Operator(key.0, key.1)]
  {
    if key in r.defined then (r, r.defined[key])
    else (Registry(r.defined[key := |r.instances|], r.instances + [Operator(key.0, key.1)]), |r.instances|)
  }

  /** `__init__`: assigns `_f` and `_operation` of instance `h`. */
  function Init(r: Registry, h: nat, f: Primitive, operation: string): (r': Registry)
    requires h < |r.instances|
    ensures r'.defined == r.defined && |r'.instances| == |r.instances|
    ensures r'.instances[h] == Operator(f, operation)
    ensures forall j :: 0 <= j < |r.instances| && j != h ==> r'.instances[j] == r.instances[j]
  {
    Registry(r.defined, r.instances[h := Operator(f, operation)])
  }

  /** `Operator(f, operation)`: `__new__` followed by `__init__` with the
      same arguments. */
  function Create(r: Registry, f: Primitive, operation: string): (res: (Registry, nat))
    requires Valid(r)
    ensures Valid(res.0)
    ensures (f, operation) in res.0.defined && res.0.defined[(f, operation)] == res.1
    ensures res.1 < |res.0.instances| && res.0.instances[res.1] == Operator(f, operation)
    ensures (f, operation) in r.defined ==> res.0 == r && res.1 == r.defined[(f, operation)]
    ensures (f, operation) !in r.defined ==>
      && res.1 == |r.instances|
      && res.0.defined == r.defined[(f, operation) := res.1]
      && res.0.instances[..|r.instances|] == r.instances
    ensures forall k :: k in r.defined ==> k in res.0.defined && res.0.defined[k] == r.defined[k]
  {
    var made := New(r, (f, operation));
    (Init(made.0, made.1, f, operation), made.1)
  }

  /** Constructing twice with the same arguments yields the same instance
      and leaves the table as the first construction left it. */
  lemma CreateIsIdempotent(r: Registry, f: Primitive, operation: string)
    requires Valid(r)
    ensures var (r1, h1) := Create(r, f, operation);
            var (r2, h2) := Create(r1, f, operation);
            h2 == h1 && r2 == r1
  {
  }

  /** Distinct argument tuples give distinct instances. */
  lemma CreateDistinguishesKeys(r: Registry, f1: Primitive, s1: string, f2: Primitive, s2: string)
    requires Valid(r)
    requires (f1, s1) != (f2, s2)
    ensures var (r1, h1) := Create(r, f1, s1);
            var (r2, h2) := Create(r1, f2, s2);
            h1 != h2 && r2.instances[h1] == Operator(f1, s1)
  {
  }

  /** `repr` of an operator is its symbolic string. */
  function Repr(op: Operator): string
  {
    op.operation
  }

  /** Calling an operator applies the wrapped callable, given the meaning
      `impl` of each primitive, to the arguments unchanged. */
  function Invoke<X, R>(op: Operator, impl: Primitive -> X -> R, args: X): R
  {
    impl(op.f)(args)
  }

  /** Whichever instance construction returns, calling it runs the
      callable it was constructed with, on the caller's arguments, and
      returns that callable's result unmodified. */
  lemma CreatedOperatorForwardsCalls<X, R>(
    r: Registry, f: Primitive, operation: string, impl: Primitive -> X -> R, args: X)
    requires Valid(r)
    ensures var (r1, h) := Create(r, f, operation);
            Invoke(r1.instances[h], impl, args) == impl(f)(args)
            && Repr(r1.instances[h]) == operation
  {
  }

  /** Once every catalog entry has a handle memoised under its own key,
      every operator has one, it is an instance of that entry, and no two
      operators share an instance. */
  lemma CatalogHandles(r: Registry, handles: map<OpName, nat>)
    requires Valid(r)
    requires forall j :: 0 <= j < |Catalog| ==> Catalog[j] in handles
    requires forall op :: op in handles ==>
      var key := (Implementation(op), Symbol(op));
      key in r.defined && r.defined[key] == handles[op]
    ensures forall op: OpName :: op in handles
    ensures forall op :: op in handles ==>
      handles[op] < |r.instances| && r.instances[handles[op]] == Operator(Implementation(op), Symbol(op))
    ensures forall a, b :: a in handles && b in handles && a != b ==> handles[a] != handles[b]
  {
    forall op: OpName
      ensures op in handles
    {
      assert Catalog[Position(op)] == op;
    }
    forall a, b | a in handles && b in handles && a != b
      ensures handles[a] != handles[b]
    {
      if Symbol(a) == Symbol(b) {
        SymbolInjective(a, b);
      }
    }
  }

  /** One more construction keeps every handle memoised under its
      entry's key, and every entry of an earlier table. */
  lemma CreateKeepsHandles<E>(r: Registry, handles: map<E, nat>, key: E -> Key, e: E, earlier: map<Key, nat>)
    requires Valid(r)
    requires forall o :: o in handles ==> key(o) in r.defined && r.defined[key(o)] == handles[o]
    requires forall k :: k in earlier ==> k in r.defined && r.defined[k] == earlier[k]
    ensures var res := Create(r, key(e).0, key(e).1);
      var handles' := handles[e := res.1];
      && Valid(res.0)
      && (forall o :: o in handles' ==> key(o) in res.0.defined && res.0.defined[key(o)] == handles'[o])
      && (forall k :: k in earlier ==> k in res.0.defined && res.0.defined[k] == earlier[k])
  {
  }

  /** Constructs the operator for `e` and records its handle; every
      handle recorded before, and every entry of an earlier table,
      survives. */
  method DefineNext<E>(r: Registry, handles: map<E, nat>, key: E -> Key, e: E, ghost earlier: map<Key, nat>)
    returns (r': Registry, handles': map<E, nat>)
    requires Valid(r)
    requires forall o :: o in handles ==> key(o) in r.defined && r.defined[key(o)] == handles[o]
    requires forall k :: k in earlier ==> k in r.defined && r.defined[k] == earlier[k]
    ensures Valid(r')
    ensures handles'.Keys == handles.Keys + {e}
    ensures forall o :: o in handles' ==> key(o) in r'.defined && r'.defined[key(o)] == handles'[o]
    ensures forall k :: k in earlier ==> k in r'.defined && r'.defined[k] == earlier[k]
  {
    var res := Create(r, key(e).0, key(e).1);
    CreateKeepsHandles(r, handles, key, e, earlier);
    r', handles' := res.0, handles[e := res.1];
  }

  /** Constructs one operator per entry of `entries`, in order, from the
      argument tuple `key` gives it, recording the handle each
      construction returns. */
  method DefineEach<E>(r0: Registry, entries: seq<E>, key: E -> Key) returns (r: Registry, handles: map<E, nat>)
    requires Valid(r0)
    ensures Valid(r)
    ensures forall j :: 0 <= j < |entries| ==> entries[j] in handles
    ensures forall e :: e in handles ==> key(e) in r.defined && r.defined[key(e)] == handles[e]
    ensures forall k :: k in r0.defined ==> k in r.defined && r.defined[k] == r0.defined[k]
  {
    r := r0;
    handles := map[];
    var i := 0;
    while i < |entries|
      invariant 0 <= i <= |entries|
      invariant Valid(r)
      invariant forall j :: 0 <= j < i ==> entries[j] in handles
      invariant forall e :: e in handles ==> key(e) in r.defined && r.defined[key(e)] == handles[e]
      invariant forall k :: k in r0.defined ==> k in r.defined && r.defined[k] == r0.defined[k]
    {
      r, handles := DefineNext(r, handles, key, entries[i], r0.defined);
      i := i + 1;
    }
  }

  /** Defines the whole catalog, one `Operator(callable, symbol)` per
      entry, as importing the namespace does. */
  method DefineCatalog(r0: Registry) returns (r: Registry, handles: map<OpName, nat>)
    requires Valid(r0)
    ensures Valid(r)
    ensures forall op: OpName :: op in handles
    ensures forall op :: op in handles ==>
      handles[op] < |r.instances| && r.instances[handles[op]] == Operator(Implementation(op), Symbol(op))
    ensures forall a, b :: a in handles && b in handles && a != b ==> handles[a] != handles[b]
    ensures forall k :: k in r0.defined ==> k in r.defined && r.defined[k] == r0.defined[k]
  {
    r, handles := DefineEach(r0, Catalog, op => (Implementation(op), Symbol(op)));
    CatalogHandles(r, handles);
  }
}
