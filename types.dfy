/** The C types of type.c: `int`, pointers and arrays, and their sizes. */
module Types {

  /** `int_type()`, `pointer_to(base)` and `array_of(base, size)` are the
      three constructors; `base` is the pointee or element type. */
  datatype Type = Int | Ptr(base: Type) | Array(base: Type, size: int)

  /** The test `ty->base != NULL`: pointers and arrays have a base type. */
  predicate HasBase(t: Type) {
    t.Ptr? || t.Array?
  }

  /** `size_of`: 4 for int, 8 for a pointer, element size times count for an array. */
  function SizeOf(t: Type): int {
    match t
    case Int => 4
    case Ptr(_) => 8
    case Array(b, n) => SizeOf(b) * n
  }

  /** `k` applications of `pointer_to` to `t` (what `basetype` builds for k stars). */
  function PointerTo(t: Type, k: nat): Type {
    if k == 0 then t else Ptr(PointerTo(t, k - 1))
  }

  /** The type `read_type_suffix` builds from `base` and the bracketed sizes
      `dims`, read left to right: the first size is the outermost array. */
  function ArrayOfDims(base: Type, dims: seq<int>): Type
    decreases |dims|
  {
    if dims == [] then base else Array(ArrayOfDims(base, dims[1..]), dims[0])
  }

  function Product(dims: seq<int>): int
    decreases |dims|
  {
    if dims == [] then 1 else dims[0] * Product(dims[1..])
  }

  /** A pointer to any type is 8 bytes, however many levels deep; `int`
      with no star is 4. */
  lemma {:induction false} SizeOfPointers(t: Type, k: nat)
    ensures SizeOf(Ptr(t)) == 8
    ensures SizeOf(Int) == 4
    ensures SizeOf(PointerTo(t, k)) == if k == 0 then SizeOf(t) else 8
  {
  }

  /** An array's size is its element size times the product of all its
      dimensions. */
  lemma {:induction false} SizeOfArray(base: Type, dims: seq<int>)
    ensures SizeOf(ArrayOfDims(base, dims)) == SizeOf(base) * Product(dims)
    decreases |dims|
  {
    if dims != [] {
      SizeOfArray(base, dims[1..]);
      var s, p := SizeOf(base), Product(dims[1..]);
      calc {
        SizeOf(ArrayOfDims(base, dims));
        SizeOf(ArrayOfDims(base, dims[1..])) * dims[0];
        (s * p) * dims[0];
        { assert (s * p) * dims[0] == s * (dims[0] * p); }
        s * Product(dims);
      }
    }
  }

  /** The innermost type of an array, under all its dimensions, is `base`,
      and only the pointer-or-array types have a base. */
  lemma {:induction false} ArrayOfDimsShape(base: Type, dims: seq<int>)
    ensures HasBase(ArrayOfDims(base, dims)) <==> dims != [] || HasBase(base)
    ensures dims != [] ==> ArrayOfDims(base, dims).Array? && ArrayOfDims(base, dims).size == dims[0]
  {
  }

  /** `int x[2][3]` is an array of 2 arrays of 3 ints: 24 bytes. */
  lemma IntTwoByThree()
    ensures ArrayOfDims(Int, [2, 3]) == Array(Array(Int, 3), 2)
    ensures SizeOf(ArrayOfDims(Int, [2, 3])) == 24
  {
    assert [2, 3][1..] == [3];
    assert [3][1..] == [];
  }
}
