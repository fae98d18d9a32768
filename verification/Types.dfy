/** Machine integers, bytes and the two result types every other module uses. */
module Types {
  type u8 = x: int | 0 <= x < 0x100
  type u16 = x: int | 0 <= x < 0x1_0000
  type u32 = x: int | 0 <= x < 0x1_0000_0000
  type i32 = x: int | -0x8000_0000 <= x < 0x8000_0000

  type Bytes = seq<u8>

  datatype Option<+T> = None | Some(value: T)

  datatype Result<+T, +E> = Ok(value: T) | Err(error: E) {
    predicate IsFailure() { Err? }
    function PropagateFailure<U>(): Result<U, E>
      requires Err?
    {
      Err(error)
    }
    function Extract(): T
      requires Ok?
    {
      value
    }
  }

  function Min(a: nat, b: nat): nat {
    if a <= b then a else b
  }

  function Max(a: int, b: int): int {
    if a >= b then a else b
  }

  /** Results collected so far, in front of those still to come. */
  function Prefixed<T, E>(xs: seq<T>, r: Result<seq<T>, E>): (p: Result<seq<T>, E>)
    ensures xs == [] ==> p == r
    ensures r == Ok([]) ==> p == Ok(xs)
  {
    if r.Err? then r
    else
      assert xs == [] ==> xs + r.value == r.value;
      assert r.value == [] ==> xs + r.value == xs;
      Ok(xs + r.value)
  }

  lemma PrefixedOne<T, E>(xs: seq<T>, x: T, r: Result<seq<T>, E>)
    ensures Prefixed(xs, Prefixed([x], r)) == Prefixed(xs + [x], r)
  {
    if r.Ok? {
      assert xs + ([x] + r.value) == xs + [x] + r.value;
    }
  }
}
