/**
 * LabelArrayEqualityComparer: the equality and hash the collectors' child
 * dictionary uses for label-value arrays. A label value is a nullable .NET
 * string, `Option<string>` here; the hash of one string is a parameter
 * (`string.GetHashCode` is randomised per process and not part of this model).
 */
module LabelArrays {
  import opened Common

  const Int32Min: int := -0x8000_0000
  const Int32Modulus: int := 0x1_0000_0000

  type Int32 = x: int | Int32Min <= x < Int32Min + Int32Modulus

  /** Two's-complement wrap-around of an unchecked 32-bit result. */
  function Wrap32(x: int): (r: Int32)
    ensures (r - x) % Int32Modulus == 0
  {
    (x - Int32Min) % Int32Modulus + Int32Min
  }

  /** The equality `Equals` decides: same length and the same string at every position. */
  predicate ElementwiseEqual(x: seq<Option<string>>, y: seq<Option<string>>)
  {
    |x| == |y| && forall i :: 0 <= i < |x| ==> x[i] == y[i]
  }

  /**
   * The hash `GetHashCode` computes: start at 17 and fold
   * `result * 23 + h(obj[i])` over the array, wrapping at 32 bits.
   * Defined only on arrays without null, since hashing a null element throws.
   */
  function HashFold(obj: seq<string>, h: string -> Int32): Int32
  {
    if obj == [] then 17
    else Wrap32(HashFold(obj[..|obj| - 1], h) * 23 + h(obj[|obj| - 1]))
  }

  /** The non-null strings of `obj`, when it has no null element. */
  function Strings(obj: seq<Option<string>>): (r: seq<string>)
    requires None !in obj
    ensures |r| == |obj| && forall i :: 0 <= i < |obj| ==> obj[i] == Some(r[i])
  {
    if obj == [] then [] else [obj[0].value] + Strings(obj[1..])
  }

  /** LabelArrayEqualityComparer.Equals: a loop that exits at the first mismatch. */
  method Equals(x: seq<Option<string>>, y: seq<Option<string>>) returns (r: bool)
    ensures r <==> x == y
    ensures r <==> ElementwiseEqual(x, y)
  {
    if |x| != |y| {
      return false;
    }
    var i := 0;
    while i < |x|
      invariant 0 <= i <= |x|
      invariant forall k :: 0 <= k < i ==> x[k] == y[k]
    {
      if x[i] != y[i] {
        return false;
      }
      i := i + 1;
    }
    assert x == y;
    return true;
  }

  /**
   * LabelArrayEqualityComparer.GetHashCode: the fold of `HashFold`, failing
   * with a null reference at the first null element.
   */
  method GetHashCode(obj: seq<Option<string>>, h: string -> Int32) returns (r: Result<Int32>)
    ensures r.Err? <==> None in obj
    ensures r.Err? ==> r.error == NullLabelValue
    ensures r.Ok? ==> r.value == HashFold(Strings(obj), h)
  {
    var result: Int32 := 17;
    var i := 0;
    while i < |obj|
      invariant 0 <= i <= |obj|
      invariant None !in obj[..i]
      invariant result == HashFold(Strings(obj[..i]), h)
    {
      if obj[i].None? {
        return Err(NullLabelValue);
      }
      ghost var done := Strings(obj[..i + 1]);
      assert obj[..i + 1][..i] == obj[..i];
      assert done[..i] == Strings(obj[..i]);
      result := Wrap32(result * 23 + h(obj[i].value));
      assert result == HashFold(done, h);
      i := i + 1;
    }
    assert obj[..i] == obj;
    return Ok(result);
  }

  /**
   * What the dictionary needs of the comparer: its equality is an
   * equivalence, arrays of different lengths are never equal, and arrays it
   * calls equal hash alike.
   */
  lemma ComparerContract(x: seq<Option<string>>, y: seq<Option<string>>, z: seq<Option<string>>, h: string -> Int32)
    ensures ElementwiseEqual(x, x)
    ensures ElementwiseEqual(x, y) ==> ElementwiseEqual(y, x)
    ensures ElementwiseEqual(x, y) && ElementwiseEqual(y, z) ==> ElementwiseEqual(x, z)
    ensures |x| != |y| ==> !ElementwiseEqual(x, y)
    ensures ElementwiseEqual(x, y) && None !in x ==> None !in y && HashFold(Strings(x), h) == HashFold(Strings(y), h)
  {
    if ElementwiseEqual(x, y) {
      assert x == y;
    }
  }

  /** The empty array hashes to 17; one element hashes to 17 * 23 + h(s), wrapped. */
  lemma HashOfShortArrays(s: string, h: string -> Int32)
    ensures HashFold([], h) == 17
    ensures HashFold([s], h) == Wrap32(17 * 23 + h(s))
  {
    assert [s][..0] == [];
  }

  /** The fold is order-sensitive: it is the hash of the prefix extended by the last element. */
  lemma {:induction false} HashAppend(a: seq<string>, s: string, h: string -> Int32)
    ensures HashFold(a + [s], h) == Wrap32(HashFold(a, h) * 23 + h(s))
  {
    assert (a + [s])[..|a + [s]| - 1] == a;
  }
}
