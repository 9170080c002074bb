/** Shared vocabulary: bytes, option and result types, concatenation of chunks. */
module Base {

  type byte = n: int | 0 <= n < 256
  type bytes = seq<byte>

  // The range of `std::size_t` and `std::uint64_t` on the supported targets.
  const TWO_64: nat := 0x1_0000_0000_0000_0000

  datatype Option<+T> = None | Some(value: T)

  lemma NoWrap(n: nat)
    requires n < TWO_64
    ensures n % TWO_64 == n
  {
  }

  // `Err` carries the text of the C++ exception.
  datatype Result<+T> = Ok(value: T) | Err(error: string) {
    predicate IsFailure() {
      Err?
    }

    function PropagateFailure<U>(): Result<U>
      requires Err?
    {
      Err(error)
    }

    function Extract(): T
      requires Ok?
    {
      value
    }
  }

  function Flatten<T>(parts: seq<seq<T>>): seq<T> {
    if parts == [] then [] else parts[0] + Flatten(parts[1..])
  }

  lemma {:induction false} FlattenAppend<T>(xs: seq<seq<T>>, ys: seq<seq<T>>)
    ensures Flatten(xs + ys) == Flatten(xs) + Flatten(ys)
  {
    if xs == [] {
      assert xs + ys == ys;
    } else {
      assert (xs + ys)[1..] == xs[1..] + ys;
      FlattenAppend(xs[1..], ys);
    }
  }

  lemma FlattenSnoc<T>(xs: seq<seq<T>>, y: seq<T>)
    ensures Flatten(xs + [y]) == Flatten(xs) + y
  {
    FlattenAppend(xs, [y]);
    assert Flatten([y]) == y + Flatten<T>([]);
  }

  lemma FlattenLast<T>(xs: seq<seq<T>>)
    requires xs != []
    ensures Flatten(xs) == Flatten(xs[..|xs| - 1]) + xs[|xs| - 1]
  {
    assert xs == xs[..|xs| - 1] + [xs[|xs| - 1]];
    FlattenSnoc(xs[..|xs| - 1], xs[|xs| - 1]);
  }
}
