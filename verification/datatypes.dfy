/**
 * The data-type dispatch tables of the overload macros: each macro class expands to
 * a list of `case` labels, one per pixel data type it instantiates, and every other
 * data type falls to the `default` label, which throws DATA_TYPE_NOT_SUPPORTED.
 */
module DataTypes {
  import opened Errors

  /** The thirteen pixel data types. */
  datatype DataType =
    | Bin
    | UInt8 | UInt16 | UInt32 | UInt64
    | SInt8 | SInt16 | SInt32 | SInt64
    | SFloat | DFloat
    | SComplex | DComplex

  /** The number of bytes of one sample of each data type. */
  function SizeOf(dt: DataType): (n: nat)
    ensures 1 <= n <= 16
  {
    match dt
    case Bin | UInt8 | SInt8 => 1
    case UInt16 | SInt16 => 2
    case UInt32 | SInt32 | SFloat => 4
    case UInt64 | SInt64 | DFloat | SComplex => 8
    case DComplex => 16
  }

  /** The macro classes (`DIP_OVL_IMPL_xxx`). */
  datatype TypeClass =
    | Binary | UInt | SInt | Float | Complex
    | Integer | IntOrBin | Unsigned | Signed | Real | SignedReal
    | NonComplex | Flex | FlexBin | NonBinary | All

  /** How deep a class's macro is nested in other class macros; the expansion recurses on it. */
  function Depth(c: TypeClass): nat {
    match c
    case Binary | UInt | SInt | Float | Complex => 0
    case Integer | Unsigned | Signed | SignedReal | Flex => 1
    case IntOrBin | Real | FlexBin => 2
    case NonComplex | NonBinary => 3
    case All => 4
  }

  /**
   * The `case` labels a class macro expands to, in the order of the expansion:
   * each composite class concatenates the macros it is written in terms of.
   */
  function Cases(c: TypeClass): seq<DataType>
    decreases Depth(c)
  {
    match c
    case Binary => [Bin]
    case UInt => [UInt8, UInt16, UInt32, UInt64]
    case SInt => [SInt8, SInt16, SInt32, SInt64]
    case Float => [SFloat, DFloat]
    case Complex => [SComplex, DComplex]
    case Integer => Cases(UInt) + Cases(SInt)
    case IntOrBin => Cases(Binary) + Cases(Integer)
    case Unsigned => Cases(Binary) + Cases(UInt)
    case Signed => Cases(SInt) + Cases(Float) + Cases(Complex)
    case Real => Cases(Integer) + Cases(Float)
    case SignedReal => Cases(SInt) + Cases(Float)
    case NonComplex => Cases(Binary) + Cases(Real)
    case Flex => Cases(Float) + Cases(Complex)
    case FlexBin => Cases(Binary) + Cases(Flex)
    case NonBinary => Cases(Real) + Cases(Complex)
    case All => Cases(Binary) + Cases(NonBinary)
  }

  /** The data types a class accepts. */
  function Members(c: TypeClass): set<DataType> {
    set dt | dt in Cases(c)
  }

  /**
   * The `switch` of `DIP_OVL_IMPL_HEAD ... DIP_OVL_IMPL_FOOT`: the labels are tried in
   * order; a matching label instantiates the template for that data type, and no match
   * reaches `default`, which throws.
   */
  function Switch(labels: seq<DataType>, dt: DataType): (r: Result<DataType>)
    ensures r.Success? <==> dt in labels
    ensures r.Success? ==> r.value == dt
    ensures r.Failure? ==> r.error == DataTypeNotSupported
  {
    if labels == [] then Failure(DataTypeNotSupported)
    else if labels[0] == dt then Success(dt)
    else Switch(labels[1..], dt)
  }

  /** A `DIP_OVL_CALL_xxx` (or `_ASSIGN_`, `_NEW_`) for class `c` on data type `dt`. */
  function Dispatch(c: TypeClass, dt: DataType): (r: Result<DataType>)
    ensures r.Success? <==> dt in Members(c)
    ensures r.Success? ==> r.value == dt
    ensures r.Failure? ==> r.error == DataTypeNotSupported
  {
    Switch(Cases(c), dt)
  }

  predicate NoDuplicates(s: seq<DataType>) {
    forall i, j :: 0 <= i < j < |s| ==> s[i] != s[j]
  }

  // ---- The set identities implied by how the macros are composed ----

  lemma IntegerIsUIntOrSInt()
    ensures Members(Integer) == Members(UInt) + Members(SInt)
    ensures Members(IntOrBin) == Members(Binary) + Members(Integer)
  {
  }

  lemma UnsignedAndSigned()
    ensures Members(Unsigned) == Members(Binary) + Members(UInt)
    ensures Members(Signed) == Members(SInt) + Members(Float) + Members(Complex)
  {
  }

  lemma RealClasses()
    ensures Members(Real) == Members(Integer) + Members(Float)
    ensures Members(SignedReal) == Members(SInt) + Members(Float)
    ensures Members(NonComplex) == Members(Binary) + Members(Real)
  {
  }

  lemma FlexClasses()
    ensures Members(Flex) == Members(Float) + Members(Complex)
    ensures Members(FlexBin) == Members(Binary) + Members(Flex)
  {
  }

  /** The full expansion of `DIP_OVL_IMPL_ALL`. */
  lemma AllCases()
    ensures Cases(All) == [Bin, UInt8, UInt16, UInt32, UInt64, SInt8, SInt16, SInt32, SInt64,
                           SFloat, DFloat, SComplex, DComplex]
  {
    assert Cases(Real) == [UInt8, UInt16, UInt32, UInt64, SInt8, SInt16, SInt32, SInt64, SFloat, DFloat];
  }

  /** `ALL` covers every data type. */
  lemma AllCoversEveryType(dt: DataType)
    ensures dt in Members(All)
  {
    AllCases();
  }

  /** `NONBINARY` is every data type except binary. */
  lemma NonBinaryIsAllButBinary(dt: DataType)
    ensures dt in Members(NonBinary) <==> dt != Bin
  {
    AllCoversEveryType(dt);
    assert Cases(All) == [Bin] + Cases(NonBinary);
    assert Bin !in Cases(NonBinary) by {
      assert Cases(NonBinary) == Cases(Real) + [SComplex, DComplex];
      assert Cases(Real) == [UInt8, UInt16, UInt32, UInt64, SInt8, SInt16, SInt32, SInt64, SFloat, DFloat];
    }
  }

  /** The signed and the unsigned classes split `ALL` in two. */
  lemma SignednessPartition()
    ensures Members(Signed) !! Members(Unsigned)
    ensures Members(Signed) + Members(Unsigned) == Members(All)
  {
    assert Cases(Signed) == [SInt8, SInt16, SInt32, SInt64, SFloat, DFloat, SComplex, DComplex];
    assert Cases(Unsigned) == [Bin, UInt8, UInt16, UInt32, UInt64];
    forall dt ensures dt in Members(All) {
      AllCoversEveryType(dt);
    }
  }

  /** `NONCOMPLEX` is `ALL` without the complex types. */
  lemma NonComplexIsAllButComplex()
    ensures Members(NonComplex) == Members(All) - Members(Complex)
  {
    assert Cases(NonComplex) == [Bin, UInt8, UInt16, UInt32, UInt64, SInt8, SInt16, SInt32, SInt64, SFloat, DFloat];
    forall dt ensures dt in Members(All) {
      AllCoversEveryType(dt);
    }
  }

  /** `FLEXBIN` is `ALL` without the integer types. */
  lemma FlexBinIsAllButInteger()
    ensures Members(FlexBin) == Members(All) - Members(Integer)
  {
    assert Cases(FlexBin) == [Bin, SFloat, DFloat, SComplex, DComplex];
    assert Cases(Integer) == [UInt8, UInt16, UInt32, UInt64, SInt8, SInt16, SInt32, SInt64];
    forall dt ensures dt in Members(All) {
      AllCoversEveryType(dt);
    }
  }

  /** The position of each data type in the declaration order of the enumeration. */
  function Ordinal(dt: DataType): nat {
    match dt
    case Bin => 0
    case UInt8 => 1 case UInt16 => 2 case UInt32 => 3 case UInt64 => 4
    case SInt8 => 5 case SInt16 => 6 case SInt32 => 7 case SInt64 => 8
    case SFloat => 9 case DFloat => 10
    case SComplex => 11 case DComplex => 12
  }

  predicate StepsUp(s: seq<DataType>) {
    forall i :: 0 <= i < |s| - 1 ==> Ordinal(s[i]) < Ordinal(s[i + 1])
  }

  /** Labels listed in increasing declaration order are all different. */
  lemma {:induction false} StepsUpHasNoDuplicates(s: seq<DataType>)
    requires StepsUp(s)
    ensures NoDuplicates(s)
    ensures forall i :: 0 < i < |s| ==> Ordinal(s[0]) < Ordinal(s[i])
  {
    if |s| > 1 {
      StepsUpHasNoDuplicates(s[1..]);
      assert forall i :: 1 < i < |s| ==> Ordinal(s[1]) < Ordinal(s[i]) by {
        forall i | 1 < i < |s| ensures Ordinal(s[1]) < Ordinal(s[i]) {
          assert s[i] == s[1..][i - 1];
        }
      }
      forall i, j | 0 <= i < j < |s| ensures s[i] != s[j] {
        if i > 0 {
          assert s[i] == s[1..][i - 1] && s[j] == s[1..][j - 1];
        }
      }
    }
  }

  /** A label list without repeats has as many members as labels. */
  lemma {:induction false} DistinctCount(s: seq<DataType>)
    requires NoDuplicates(s)
    ensures |set dt | dt in s| == |s|
  {
    if s != [] {
      DistinctCount(s[1..]);
      assert (set dt | dt in s) == {s[0]} + (set dt | dt in s[1..]);
      assert s[0] !in (set dt | dt in s[1..]);
    }
  }

  /** Two label lists in declaration order, the second starting above the first's end, join in order. */
  lemma {:induction false} StepsUpJoin(a: seq<DataType>, b: seq<DataType>)
    requires StepsUp(a) && StepsUp(b)
    requires a != [] && b != [] ==> Ordinal(a[|a| - 1]) < Ordinal(b[0])
    ensures StepsUp(a + b)
  {
    forall i | 0 <= i < |a + b| - 1 ensures Ordinal((a + b)[i]) < Ordinal((a + b)[i + 1]) {
      if i + 1 < |a| {
        assert (a + b)[i] == a[i] && (a + b)[i + 1] == a[i + 1];
      } else if i + 1 == |a| {
        assert (a + b)[i] == a[|a| - 1] && (a + b)[i + 1] == b[0];
      } else {
        assert (a + b)[i] == b[i - |a|] && (a + b)[i + 1] == b[i - |a| + 1];
      }
    }
  }

  /** The first and last label of each class macro, by declaration order. */
  function FirstOrdinal(c: TypeClass): nat {
    match c
    case Binary | IntOrBin | Unsigned | NonComplex | FlexBin | All => 0
    case UInt | Integer | Real | NonBinary => 1
    case SInt | Signed | SignedReal => 5
    case Float | Flex => 9
    case Complex => 11
  }

  function LastOrdinal(c: TypeClass): nat {
    match c
    case Binary => 0
    case UInt | Unsigned => 4
    case SInt | Integer | IntOrBin => 8
    case Float | Real | SignedReal | NonComplex => 10
    case Complex | Signed | Flex | FlexBin | NonBinary | All => 12
  }

  /** A label list in declaration order that runs from ordinal `lo` to ordinal `hi`. */
  predicate OrderedFromTo(s: seq<DataType>, lo: nat, hi: nat) {
    s != [] && Ordinal(s[0]) == lo && Ordinal(s[|s| - 1]) == hi && StepsUp(s)
  }

  lemma JoinOrdered(a: seq<DataType>, b: seq<DataType>, lo: nat, mid: nat, mid2: nat, hi: nat)
    requires OrderedFromTo(a, lo, mid) && OrderedFromTo(b, mid2, hi) && mid < mid2
    ensures OrderedFromTo(a + b, lo, hi)
  {
    StepsUpJoin(a, b);
    assert (a + b)[|a + b| - 1] == b[|b| - 1];
  }

  /** Class `c`'s labels are in declaration order, from its first to its last ordinal. */
  predicate Ordered(c: TypeClass) {
    OrderedFromTo(Cases(c), FirstOrdinal(c), LastOrdinal(c))
  }

  lemma BaseOrdered(c: TypeClass)
    requires Depth(c) == 0
    ensures Ordered(c)
  {
  }

  /** Every class macro lists its labels in declaration order. */
  lemma {:induction false} ExpansionsInDeclarationOrder(c: TypeClass)
    decreases Depth(c)
    ensures Ordered(c)
  {
    match c
    case Binary | UInt | SInt | Float | Complex => BaseOrdered(c);
    case Integer => Join(c, UInt, SInt);
    case IntOrBin => Join(c, Binary, Integer);
    case Unsigned => Join(c, Binary, UInt);
    case Signed => SignedOrdered();
    case Real => Join(c, Integer, Float);
    case SignedReal => Join(c, SInt, Float);
    case NonComplex => Join(c, Binary, Real);
    case Flex => Join(c, Float, Complex);
    case FlexBin => Join(c, Binary, Flex);
    case NonBinary => Join(c, Real, Complex);
    case All => Join(c, Binary, NonBinary);
  }

  /** `SIGNED` is the one macro written in terms of three others. */
  lemma {:induction false} SignedOrdered()
    decreases 1, 0
    ensures Ordered(Signed)
  {
    ExpansionsInDeclarationOrder(SInt);
    ExpansionsInDeclarationOrder(Float);
    ExpansionsInDeclarationOrder(Complex);
    JoinOrdered(Cases(SInt), Cases(Float), 5, 8, 9, 10);
    JoinOrdered(Cases(SInt) + Cases(Float), Cases(Complex), 5, 10, 11, 12);
  }

  /** Class `e` is written as the macros of two shallower classes, the second above the first. */
  lemma {:induction false} Join(e: TypeClass, c: TypeClass, d: TypeClass)
    requires Depth(c) < Depth(e) && Depth(d) < Depth(e)
    requires Cases(e) == Cases(c) + Cases(d)
    requires FirstOrdinal(e) == FirstOrdinal(c) && LastOrdinal(e) == LastOrdinal(d)
    requires LastOrdinal(c) < FirstOrdinal(d)
    decreases Depth(e), 0
    ensures Ordered(e)
  {
    ExpansionsInDeclarationOrder(c);
    ExpansionsInDeclarationOrder(d);
    JoinOrdered(Cases(c), Cases(d), FirstOrdinal(c), LastOrdinal(c), FirstOrdinal(d), LastOrdinal(d));
  }

  /**
   * No class macro repeats a `case` label, so every expansion is a switch the compiler
   * accepts, and the class holds exactly |Cases(c)| data types.
   */
  lemma ClassSize(c: TypeClass)
    ensures NoDuplicates(Cases(c))
    ensures |Members(c)| == |Cases(c)|
  {
    ExpansionsInDeclarationOrder(c);
    StepsUpHasNoDuplicates(Cases(c));
    DistinctCount(Cases(c));
  }

  /** `ALL` holds all thirteen data types. */
  lemma AllHasThirteen()
    ensures |Members(All)| == 13
  {
    AllCases();
    ClassSize(All);
  }
}
