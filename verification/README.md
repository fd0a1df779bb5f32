# numerical: a Dafny model of the dispatch layer

The `numerical` package wraps a payload (a number or a numpy array) in
"numerical objects". It delegates every operator to the payload through
a small engine:

- unwrap whichever operands are quantities;
- apply a primitive;
- then either return the raw result or rebuild it as an instance of the
  receiver's own class.

Capability mixins (`Orderable` … `Sequence`) define the operator methods.
Runtime-checkable protocols of the same names describe them as sets of
required methods. A registry memoises the 21 standard operators. A few
helpers in `data.py` check and search numerical data.

The model has one Dafny module per source file:

| module | file | content |
|---|---|---|
| `Optional` | `optional.dfy` | the `Option` type used for absent results |
| `Protocols` | `protocols.dfy` | `_protocols.py`: declared and required method-name sets, the inheritance graph, structural satisfaction |
| `Types` | `types.dfy` | `_types.py`: classes, instances and operands, the `Quantity` check, `Object`'s construction, `str` and `repr` |
| `Operations` | `operations.dfy` | `_operations.py`: `unary`, `binary`, `mytype` |
| `Operators` | `operators.dfy` | `_operators.py`: the catalog of 21 operators, their symbols, the memo table behind `Operator.__new__`/`__init__`, `__repr__` and `__call__` |
| `Mixins` | `mixins.dfy` | `mixins.py`: the nine mixins' method tables, method lookup through mixin inheritance, and what calling a method on an instance returns |
| `Data` | `data.dfy` | `data.py`: `ismonotonic`, `isequal`, `nearest` on integer sequences, with the row-major unravelling for multi-dimensional arrays |

Modelling choices:

- **Payloads** are a type parameter `P`.
- **Primitives** (the catalog operators, `pow` with its modulus,
  `complex`/`float`/`int` and `numpy.array`) are function-valued
  parameters collected in `Mixins.Prims`. Nothing is assumed about what
  they compute.
- **Operands**: an operand is `Raw(value)` or `Wrapped(Instance(cls, data))`.
- **Classes**: a `Class` records its qualified name, whether it derives
  from `Object`, and the mixins it composes.
- **Method tables**: each mixin's table (`Mixins.Defines`) is checked
  against an independent classification of method names (`Mixins.Policy`).
- **Protocols**: each protocol's closure (`Protocols.Required`) is
  checked against the inheritance graph and against the mixins.
- **Data**: `data.py` works on `seq<int>` in place of numpy arrays of
  numbers. A multi-dimensional array is its row-major element sequence
  together with its shape.

## Model

| member | source | states |
|---|---|---|
| Protocols.Declared | src/numerical/_protocols.py:13-297 | the abstract methods each protocol class lists in its own body; characterised by Protocols.SignatureDeclaredOnce and the composition lemmas below |
| Protocols.Required | src/numerical/_protocols.py:13-297 | everything a protocol requires, its own declarations and its bases' requirements; characterised by Protocols.RequiredFromAncestors and Protocols.ExtendsIffRequiredSubset |
| Protocols.ExtendsDescends | src/numerical/_protocols.py:194-297 | inheritance only leads down the graph, so Real, Value and Sequence never extend one another |
| Protocols.SignatureDeclaredOnce | src/numerical/_protocols.py:13-297 | each protocol declares a method that no other protocol declares in its own body |
| Protocols.RequiredFromAncestors | src/numerical/_protocols.py:13-297 | a method is required by a protocol exactly when some protocol it extends (itself included) declares it |
| Protocols.BaseRequiredIncluded | src/numerical/_protocols.py:45-261 | a direct base's required methods are all required by the derived protocol |
| Protocols.RequiredGrowsAlongBases | src/numerical/_protocols.py:45-261 | extending a protocol inherits all of its requirements |
| Protocols.RequiredSubsetImpliesExtends | src/numerical/_protocols.py:13-297 | requirement containment happens only along inheritance |
| Protocols.ExtendsIffRequiredSubset | src/numerical/_protocols.py:13-297 | `q`'s required set is inside `p`'s if and only if `p` extends `q` |
| Protocols.SatisfiesInherited | src/numerical/_protocols.py:44-66 | whatever satisfies a protocol satisfies every protocol it extends, e.g. Comparable implies Orderable |
| Protocols.OrderableRequiresExactly | src/numerical/_protocols.py:12-41 | Orderable requires exactly `__lt__`, `__le__`, `__gt__`, `__ge__` |
| Protocols.ComparableComposition | src/numerical/_protocols.py:44-66 | Comparable requires Orderable's set plus `__eq__`, `__ne__`, and satisfying it implies satisfying Orderable |
| Protocols.MultiplicativeExcludesFloorAndMod | src/numerical/_protocols.py:100-135 | Multiplicative requires the forward and reflected `mul`/`truediv` only; floor division and modulus are not among them; Additive requires the forward and reflected `add`/`sub` |
| Protocols.AlgebraicComposition | src/numerical/_protocols.py:138-163 | Algebraic = Additive ∪ Multiplicative ∪ {`__pow__`}; `__rpow__` is required neither by Algebraic nor by Complex |
| Protocols.ComplexAndRealComposition | src/numerical/_protocols.py:166-227 | Complex = Algebraic ∪ {`__abs__`, `__pos__`, `__neg__`}; Real = Comparable ∪ Complex ∪ {`__rpow__`, floor division, modulus} |
| Protocols.ValueAndSequenceComposition | src/numerical/_protocols.py:230-297 | Value and Sequence each require Comparable ∪ Complex plus their own conversions or sequence methods |
| Protocols.ComplexRequiresExactly | src/numerical/_protocols.py:166-191 | the complete list of the twelve methods a Complex quantity needs |
| Protocols.RealAddsToComplex | src/numerical/_protocols.py:194-227 | none of the methods Real declares is required by Complex |
| Protocols.RealExtendsItsAncestors | src/numerical/_protocols.py:195 | Real extends Comparable, Orderable, Complex, Algebraic, Additive and Multiplicative |
| Protocols.RealExtendsExactly | src/numerical/_protocols.py:195 | Real extends every protocol except Value and Sequence, and no other |
| Types.IsQuantity | src/numerical/_types.py:7-17 | the runtime `Quantity` check; the engine's use of it is characterised by Operations.UnaryIsTransparent and Operations.BinaryUnwrapsEachSide |
| Types.QuantityIsStructural | src/numerical/_types.py:7-17 | being a quantity depends only on carrying a payload, not on deriving from `Object` |
| Types.Str | src/numerical/_types.py:30-32 | `str` of an `Object`; characterised by Types.StrIsPayloadStr |
| Types.StrIsPayloadStr | src/numerical/_types.py:30-32 | `str` of an object is the payload's `str`, the same for any two classes |
| Types.Repr | src/numerical/_types.py:26-28 | `repr` of an `Object`; characterised by Types.ReprRoundTrip |
| Types.ReprRoundTrip | src/numerical/_types.py:26-28 | `repr` parses back to the dynamic class's qualified name and the object's `str` |
| Types.ObjectMethodsUndeclared | src/numerical/_types.py:20-32 | no protocol declares `__init__`, `__repr__` or `__str__` |
| Types.ObjectDefinesNoOperators | src/numerical/_types.py:20-32 | no method of `Object` is required by any protocol, so `Object` alone contributes no operator |
| Operations.MyType | src/numerical/_operations.py:20-25 | the `mytype` decorator; characterised by Operations.MyTypeRebuildsInReceiverClass and Operations.RewrapFollowsReceiver |
| Operations.MyTypeRebuildsInReceiverClass | src/numerical/_operations.py:20-25 | a `mytype` result is an instance of the receiver's class whose payload is the undecorated method's result |
| Operations.UnaryIsTransparent | src/numerical/_operations.py:7-10 | a quantity of any class and its bare payload give the same result |
| Operations.BinaryUnwrapsEachSide | src/numerical/_operations.py:13-17 | wrapped left, wrapped right, two unrelated classes, or two raw values all reach the primitive as their payloads |
| Operations.BinaryNeverSwaps | src/numerical/_operations.py:15-17 | exchanging the operands equals exchanging the primitive's arguments; the first operand is always the first argument |
| Operations.RewrapFollowsReceiver | src/numerical/_operations.py:22-24 | the rewrapped result keeps the receiver's class whatever the other operand's class, and holds the primitive's result |
| Operators.ParseSymbolInvertsSymbol | src/numerical/_operators.py:39-59 | each operator's symbol reads back to that operator |
| Operators.ParseSymbolIsSound | src/numerical/_operators.py:39-59 | a string reads back to an operator only if it is that operator's symbol |
| Operators.SymbolInjective | src/numerical/_operators.py:39-59 | the 21 symbols are pairwise distinct |
| Operators.CatalogListsEveryOperatorOnce | src/numerical/_operators.py:39-59 | the catalog has 21 entries, lists every operator, and none twice |
| Operators.EmptyIsValid | src/numerical/_operators.py:15 | the initial empty table satisfies the registry invariant |
| Operators.Init | src/numerical/_operators.py:25-28 | `__init__` sets the two fields of its own instance and touches no other instance or table entry |
| Operators.Create | src/numerical/_operators.py:17-28 | construction keeps the invariant, returns an instance with the given fields memoised under its arguments, and never replaces an existing entry |
| Operators.CreateIsIdempotent | src/numerical/_operators.py:17-23 | constructing twice with the same arguments yields the same instance and the same table |
| Operators.CreateDistinguishesKeys | src/numerical/_operators.py:19-23 | different argument tuples yield different instances |
| Operators.Repr | src/numerical/_operators.py:30-32 | `repr` of an operator; characterised by Operators.CreatedOperatorForwardsCalls |
| Operators.Invoke | src/numerical/_operators.py:34-36 | calling an operator; characterised by Operators.CreatedOperatorForwardsCalls |
| Operators.CreatedOperatorForwardsCalls | src/numerical/_operators.py:30-36 | calling a constructed operator runs its callable on the arguments unchanged, and its `repr` is its symbol |
| Operators.CreateKeepsHandles | src/numerical/_operators.py:17-23 | another construction keeps every earlier handle and table entry |
| Operators.DefineNext | src/numerical/_operators.py:17-28 | defining one more operator records its handle and keeps all earlier ones |
| Operators.DefineEach | src/numerical/_operators.py:39-59 | defining a list of operators in order gives each its own memoised handle |
| Operators.CatalogHandles | src/numerical/_operators.py:39-59 | once the whole catalog is defined, every operator has a handle to an instance with its callable and symbol, and no two operators share one |
| Operators.DefineCatalog | src/numerical/_operators.py:39-59 | importing the namespace defines all 21 operators as 21 distinct instances, keeping any entries already memoised |
| Mixins.ReflectedNaming | src/numerical/mixins.py:46-128 | each forward arithmetic method `__op__` has a reflected twin `__rop__` applying the same primitive |
| Mixins.Defines | src/numerical/mixins.py:17-164 | the method table of each mixin body; characterised by Mixins.DefinesFollowPolicy and Mixins.DefinesMatchDeclared |
| Mixins.DefinesFollowPolicy | src/numerical/mixins.py:17-164 | every method of every mixin has the primitive, operand order and rewrap the name classification gives it |
| Mixins.OrderableFollowsPolicy | src/numerical/mixins.py:17-30 | the four orderings apply their primitive forward and are not rewrapped |
| Mixins.ComparableFollowsPolicy | src/numerical/mixins.py:33-40 | `==` and `!=` apply their primitive forward and are not rewrapped |
| Mixins.AdditiveFollowsPolicy | src/numerical/mixins.py:43-60 | `add`/`sub` and their reflected twins are rewrapped, the twins with operands reversed |
| Mixins.MultiplicativeFollowsPolicy | src/numerical/mixins.py:63-80 | `mul`/`truediv` and their reflected twins are rewrapped, the twins with operands reversed |
| Mixins.AlgebraicFollowsPolicy | src/numerical/mixins.py:83-88 | Algebraic defines only the forward `__pow__` |
| Mixins.ComplexFollowsPolicy | src/numerical/mixins.py:91-104 | `abs`, `+` and `-` are rewrapped |
| Mixins.RealFollowsPolicy | src/numerical/mixins.py:107-128 | Real adds `__rpow__`, floor division and modulus, all rewrapped, the reflected ones reversed |
| Mixins.ValueFollowsPolicy | src/numerical/mixins.py:131-145 | the conversions return raw results and `round` is rewrapped |
| Mixins.SequenceFollowsPolicy | src/numerical/mixins.py:148-164 | the sequence methods return raw results |
| Mixins.PolicyOfRawUnary | src/numerical/mixins.py:134-164 | conversions, `len`, `iter` and `__array__` are unrewrapped one-operand methods |
| Mixins.Lookup | src/numerical/mixins.py:33-148 | attribute lookup through a mixin and its bases; characterised by Mixins.LookupFindsProvided and Mixins.LookupFollowsPolicy |
| Mixins.LookupFindsProvided | src/numerical/mixins.py:33-148 | lookup on a mixin finds a method exactly when the mixin or one of its bases defines it |
| Mixins.LookupFollowsPolicy | src/numerical/mixins.py:33-148 | whatever lookup finds, inherited or not, follows the classification of its name |
| Mixins.DefinesMatchDeclared | src/numerical/mixins.py:17-164 | each mixin defines exactly what the same-named protocol declares, with the same bases |
| Mixins.MixinCoversProtocol | src/numerical/mixins.py:17-164 | each mixin provides exactly the methods the same-named protocol requires |
| Mixins.LookupAmongFollowsPolicy | tests/test_numerical.py:21-81 | a class composed of mixins finds a method exactly when a mixin provides it, and the method follows the classification |
| Mixins.MixinMethodsAreRequired | tests/test_numerical.py:21-81 | a class's operator methods are exactly those the protocols of its mixins require |
| Mixins.ComposedClassConforms | tests/test_numerical.py:84-95 | a class passes the instance check for each protocol its mixins' protocols extend |
| Mixins.SingleMixinConformsIff | tests/test_numerical.py:84-95 | a one-mixin class passes an instance check exactly when its mixin's protocol extends the one checked, counting only the methods `Object` and the mixins define (see Left out) |
| Mixins.RealClassConformance | tests/test_numerical.py:236-242 | any class with the Real mixin passes the checks for Orderable, Comparable, Additive, Multiplicative, Algebraic, Complex and Real |
| Mixins.RealClassConformsExactly | tests/test_numerical.py:236-242 | a Real-only class passes every check except Value and Sequence |
| Mixins.Call | src/numerical/mixins.py:17-164 | calling an operator method the receiver's mixins define; characterised by Mixins.CallFollowsPolicy and Mixins.MissingMethodIsNotDispatched |
| Mixins.CallFollowsPolicy | src/numerical/mixins.py:17-164 | a call of a name fails with no method exactly when no mixin of the receiver provides it; otherwise it runs the classified method. Names that `Object` or `object` supply are outside this model (see Left out) |
| Mixins.Apply | src/numerical/mixins.py:17-164 | running a found method on a receiver and arguments; characterised by Mixins.ApplyBinaryMethod, Mixins.ApplyPowerMethod and Mixins.ApplyUnaryMethod |
| Mixins.ApplyBinaryMethod | src/numerical/mixins.py:20-128 | a two-operand method applies its primitive to the payloads in forward or reversed order, raw or rebuilt in the receiver's class |
| Mixins.ApplyPowerMethod | src/numerical/mixins.py:86-112 | `__pow__`/`__rpow__` with one or two arguments apply `pow` with the modulus or `None`, rebuilt in the receiver's class |
| Mixins.ApplyUnaryMethod | src/numerical/mixins.py:94-164 | a one-operand method rejects extra arguments unless it is `__array__`, and otherwise returns the primitive's result, raw or rebuilt |
| Mixins.ComparisonsReturnRaw | src/numerical/mixins.py:17-40 | comparisons return the primitive's raw result on the receiver's payload and the other operand's, in that order |
| Mixins.QueriesReturnRaw | src/numerical/mixins.py:151-161 | `in` and indexing return the raw result on the payload and the argument |
| Mixins.ForwardArithmeticRewraps | src/numerical/mixins.py:46-124 | forward arithmetic rebuilds `op(self, other)` in the receiver's class |
| Mixins.ReflectedArithmeticReverses | src/numerical/mixins.py:50-128 | reflected arithmetic rebuilds `op(other, self)`, still in the receiver's class |
| Mixins.ForwardAndReflectedAgree | tests/test_numerical.py:320-328 | `a.__op__(b)` and `b.__rop__(a)` hold the same payload, each in the class of the instance whose method ran |
| Mixins.PowerForwardsMod | src/numerical/mixins.py:86-112 | the modulus reaches `pow` untouched (absent means `None`); `__rpow__` puts the other operand first |
| Mixins.UnaryRewrapped | src/numerical/mixins.py:94-145 | `abs`, `+`, `-` and `round` rebuild their result in the receiver's class and accept no argument |
| Mixins.RawUnaryResults | src/numerical/mixins.py:134-164 | conversions, `len`, `iter` and `__array__` return raw results; only `__array__` forwards extra arguments |
| Mixins.ResultClassIsReceiver | src/numerical/mixins.py:17-164 | a result is an instance exactly when its method rewraps, and then it has the receiver's class |
| Mixins.SingleMixinMethods | tests/test_numerical.py:21-81 | a one-mixin class has exactly the methods its mixin's protocol requires |
| Mixins.MissingMethodIsNotDispatched | src/numerical/mixins.py:17-164 | a name no mixin of the receiver provides is never dispatched to an operator method; the methods `Object` and `object` supply are outside this model (see Left out) |
| Mixins.ComplexClassLacksRealMethods | src/numerical/mixins.py:91-128 | a Complex-only class lacks `__rpow__`, floor division and modulus |
| Mixins.ComplexLacksRealOperators | src/numerical/mixins.py:83-112 | calling any of those on a Complex-only instance finds no method |
| Data.IsMonotonic | src/numerical/data.py:68-110 | `ismonotonic`; characterised by Data.IsMonotonicMeaning and Data.DiffsIffPairwise |
| Data.Diff | src/numerical/data.py:89 | the differences have one element fewer than the data, each the later element minus the earlier |
| Data.DiffsIffPairwise | src/numerical/data.py:94-110 | the sign test on the differences holds exactly when every earlier element relates to every later one |
| Data.IsMonotonicMeaning | src/numerical/data.py:87-110 | with an order, whether the payload keeps it (strictly or not); with none, whether it keeps either; an unknown order gives no answer |
| Data.StrictImpliesNonStrict | src/numerical/data.py:94-110 | strictly monotonic data is monotonic in the same direction |
| Data.IsMonotonicOnIncreasing | tests/test_data.py:54-78 | the answers for `[1, 2, 3, 4]` |
| Data.IsMonotonicOnDecreasing | tests/test_data.py:54-83 | the answers for `[4, 3, 2, 1]` |
| Data.IsMonotonicOnNonDecreasing | tests/test_data.py:54-88 | `[1, 2, 2, 3]` is increasing, not decreasing, not strictly increasing |
| Data.IsMonotonicOnNonIncreasing | tests/test_data.py:54-93 | `[3, 2, 2, 1]` is decreasing, not increasing, not strictly decreasing |
| Data.IsMonotonicOnNeither | tests/test_data.py:54-65 | `[1, 3, 2, 4]` is not monotonic |
| Data.IsEqual | src/numerical/data.py:113-121 | the payloads have the same length and the same elements |
| Data.IsEqualIsPayloadEquivalence | src/numerical/data.py:113-121 | `isequal` is reflexive, symmetric and transitive, and a quantity equals its bare payload from either side |
| Data.IsEqualIgnoresClass | tests/test_data.py:102-119 | quantities of different classes with equal payloads are equal, and equal their payload |
| Data.ArgMin | src/numerical/data.py:216 | the index of an element closest to the target, the first such index |
| Data.WalkUp | src/numerical/data.py:217-222 | the lower walk stops at the first element at or above the target from the start index, or runs off the end |
| Data.WalkDown | src/numerical/data.py:223-228 | the upper walk stops at the nearest element at or below the target going down through negative indexes, or runs off the front |
| Data.FindNearest | src/numerical/data.py:215-231 | a result exists exactly for non-empty data; its index is a valid Python index and its value is the element there |
| Data.NearestUnbounded | src/numerical/data.py:215-216 | without a bound: the first element closest to the target |
| Data.NearestLowerOnAscending | src/numerical/data.py:217-222 | on ascending data, `'lower'` finds the first smallest element at or above the target, or index -1 when none is |
| Data.NearestUpperOnAscending | src/numerical/data.py:223-228 | on ascending data, `'upper'` finds the largest element at or below the target, or index 0 when none is |
| Data.NearestExamples | tests/test_data.py:139-156 | the suite's one-dimensional searches, in hundredths |
| Data.UpperWalkWrapsRound | src/numerical/data.py:217-228 | on unsorted data the upper walk can wrap to a negative index, and the lower walk can fall back to -1 |
| Data.Ravel | src/numerical/data.py:229-230 | a multi-index's row-major position lies inside the array |
| Data.Unravel | src/numerical/data.py:229-230 | an in-range position unravels to a valid multi-index |
| Data.RavelUnravel | src/numerical/data.py:229-230 | the unravelled multi-index has the position it came from |
| Data.UnravelRavel | src/numerical/data.py:229-230 | a valid multi-index is recovered from its position, so positions and multi-indexes correspond one to one |
| Data.NearestGrid | src/numerical/data.py:229-231 | a multi-dimensional search gives a valid multi-index, and the element at that index |
| Data.NearestGridIsFlatSearch | src/numerical/data.py:215-231 | the multi-dimensional search finds the flat search's element at the flat index's multi-index |
| Data.UnravelExample | tests/test_data.py:157-160 | position 33 of a 3 × 4 × 5 array is `(1, 2, 3)` |

## Left out

- Numpy payload semantics: element-wise operations, broadcasting,
  array-valued comparisons, floating point and dtypes. Payloads are
  abstract, and the primitives are parameters with no assumed meaning.
- `data.py`'s `isclose`, `hasdtype` and `isintegral`. They rest on
  floating-point tolerance and numpy's dtype hierarchy.
- Data.IsMonotonic: the `DataTypeError` path is not modelled. The model's
  integer sequences always have differences.
- Data.IsMonotonic: `strict` is a boolean. The source tests `strict is
  False`, so a falsy non-boolean such as `0` takes the strict branch;
  that case is not modelled.
- Data.NearestGrid: only the unbounded search on arrays of two or more
  dimensions is modelled. A bounded walk on such an array indexes whole
  rows.
- Data.FindNearest: an empty array, on which numpy's `argmin` raises, is
  modelled as `None`.
- Data.FindNearest: a zero-dimensional array is not modelled.
- Data.FindNearest: values are integers. The test suite's decimals are
  scaled to hundredths.
- Python's choice between a forward method and its reflected twin, and
  `NotImplemented`, are not modelled. Reflected methods are called
  explicitly.
- `runtime_checkable` mechanics are not modelled. Python's `object`
  supplies `__eq__`, `__ne__`, `__lt__` and the like to every class, so
  at runtime anything passes the Orderable and Comparable checks. The
  model counts only the methods `Object` and the mixins define.
- Keyword arguments: the extra arguments `__array__` forwards are
  positional only.
- The results of raw methods all have the payload type `P`. Python's
  `bool`, `int`, `complex` and iterator results are not distinguished.
- Iterator laziness is not modelled.
- The test suite's `EqualityMixin`, and the extra constructor arguments
  its classes accept, are not modelled.
- `typeface.py` and `__init__.py`, which only re-export names, are not
  part of this model.
- Protocols.SignatureDeclaredOnce: proves that one representative method
  per protocol is declared nowhere else, not that the declared sets are
  pairwise disjoint. The weaker fact is all that the inheritance
  characterisation needs.
- Mixins.Call: dispatches only the operator methods the receiver's
  mixins define. `Object`'s `__str__` and `__repr__` are modelled apart
  as Types.Str and Types.Repr. The comparisons and other defaults that
  Python's `object` supplies to every class are not modelled.
- Mixins.CallFollowsPolicy: a name outside the receiver's mixins gives
  `NoSuchMethod`, even where Python finds `Object.__str__`,
  `Object.__repr__` or one of `object`'s defaults.
- Mixins.MissingMethodIsNotDispatched: the same limit. `NoSuchMethod`
  means that no mixin method is found, not that Python finds no
  attribute at all.
- Mixins.SingleMixinConformsIff: the "only if" half holds for the
  methods `Object` and the mixins define. At runtime every class passes
  the Orderable and Comparable checks through `object`'s comparison
  methods, so in Python the "only if" half fails for those two
  protocols.
- Operations.MyType: `type(self)(result)` always succeeds in the model,
  because construction is `Object.__init__` for every class. A class
  whose constructor rejects the result, or whose constructor, inherited
  from `object`, accepts no argument, would raise in Python; that error
  path is not modelled.
- Operations.MyTypeRebuildsInReceiverClass: states the success path
  only. Construction never fails in the model, as the previous line
  says.
- Mixins.Prims: the primitives are total functions. An error raised by
  a primitive, which Python propagates unchanged, is not modelled.
- Data.Diff: differences are unbounded integers. For `int64` data numpy
  computes `numpy.diff` with wrap-around, so data such as
  `[-2**63, 2**63-1]` makes `ismonotonic` disagree with the model.
- Data.ArgMin: the distances `|s[k] - t|` are unbounded integers. For
  `int64` data numpy's `abs(array - target)` wraps around, so the index
  found can differ for values near the `int64` bounds.
- Operators.Create: only construction of `Operator` itself with two
  positional arguments, a callable and a symbol, is modelled. In Python,
  `__new__` memoises a fresh instance under whatever argument tuple it
  receives before `__init__` can reject the arity. A failed `__init__`
  therefore leaves a field-less instance in the table, and later calls
  with the same arguments return it. Subclasses share the table, so a
  subclass called with an existing operator's arguments returns that
  plain `Operator` without running `__init__`. The registry key has no
  class and always two elements, so neither state is expressible.
