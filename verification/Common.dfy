/** Option and Result values, and the big-endian byte arithmetic that the readers and writers share. */
module Common {

  datatype Option<+T> = None | Some(value: T) {
    predicate IsFailure() {
      None?
    }

    function PropagateFailure<U>(): Option<U>
      requires None?
    {
      None
    }

    function Extract(): T
      requires Some?
    {
      value
    }
  }

  datatype Result<+T, +E> = Ok(value: T) | Err(error: E) {
    predicate IsFailure() {
      Err?
    }

    function PropagateFailure<U>(): Result<U, E>
      requires Err?
    {
      Err(error)
    }

    function Extract(): T
      requires Ok?
    {
      value
    }
  }

  /** `Option::unwrap_or`. */
  function UnwrapOr<T>(o: Option<T>, default: T): T {
    if o.Some? then o.value else default
  }

  const TWO_16: nat := 0x1_0000
  const TWO_32: nat := 0x1_0000_0000
  const TWO_64: nat := 0x1_0000_0000_0000_0000

  type Byte = b: int | 0 <= b < 256
  type Bytes = seq<Byte>

  /** 256 to the power `width`: how many values fit in `width` bytes. */
  function Capacity(width: nat): (c: nat)
    ensures c > 0
  {
    if width == 0 then 1 else 256 * Capacity(width - 1)
  }

  /** The number whose base-256 digits are `bs`, most significant first. */
  function BigEndian(bs: Bytes): nat {
    if |bs| == 0 then 0 else 256 * BigEndian(bs[..|bs| - 1]) + bs[|bs| - 1]
  }

  /** The `width` low-order base-256 digits of `n`, most significant first. */
  function ToBigEndian(n: nat, width: nat): (bs: Bytes)
    ensures |bs| == width
  {
    if width == 0 then [] else ToBigEndian(n / 256, width - 1) + [n % 256]
  }

  lemma {:induction false} BigEndianBound(bs: Bytes)
    ensures BigEndian(bs) < Capacity(|bs|)
  {
    if |bs| > 0 {
      BigEndianBound(bs[..|bs| - 1]);
    }
  }

  /** Writing a number that fits in `width` bytes and reading it back gives the number. */
  lemma {:induction false} BigEndianOfWritten(n: nat, width: nat)
    requires n < Capacity(width)
    ensures BigEndian(ToBigEndian(n, width)) == n
  {
    if width > 0 {
      BigEndianOfWritten(n / 256, width - 1);
      var bs := ToBigEndian(n, width);
      assert bs[..width - 1] == ToBigEndian(n / 256, width - 1);
    }
  }

  /** Reading digits and writing the value back at the same width gives the digits. */
  lemma {:induction false} WrittenOfBigEndian(bs: Bytes)
    ensures ToBigEndian(BigEndian(bs), |bs|) == bs
  {
    if |bs| > 0 {
      WrittenOfBigEndian(bs[..|bs| - 1]);
      assert BigEndian(bs) / 256 == BigEndian(bs[..|bs| - 1]);
      assert BigEndian(bs) % 256 == bs[|bs| - 1];
    }
  }

  lemma Capacities()
    ensures Capacity(0) == 1 && Capacity(1) == 256 && Capacity(2) == TWO_16
    ensures Capacity(3) == 0x100_0000 && Capacity(4) == TWO_32 && Capacity(8) == TWO_64
  {
    assert Capacity(5) == 256 * Capacity(4);
    assert Capacity(6) == 256 * Capacity(5);
    assert Capacity(7) == 256 * Capacity(6);
  }

  lemma {:induction false} CapacityMonotone(a: nat, b: nat)
    requires a <= b
    ensures Capacity(a) <= Capacity(b)
  {
    if a < b {
      CapacityMonotone(a, b - 1);
    }
  }

  lemma ConcatAssociative<T>(a: seq<T>, b: seq<T>, c: seq<T>)
    ensures (a + b) + c == a + (b + c)
  {
  }
}
