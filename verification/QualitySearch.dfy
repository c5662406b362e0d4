/** The codec report's search for the lowest quality that meets a target: a bisection in 8-bit arithmetic. */
module QualitySearch {
  import opened Common

  newtype u8 = n: int | 0 <= n < 256

  /** What the report keeps of the best quality so far. */
  datatype Best<T> = Best(quality: u8, encoded: T)

  /** Once a quality meets the target, every higher one does. */
  ghost predicate Monotone(meets: u8 -> bool) {
    forall p: u8, q: u8 :: 1 <= p <= q <= 100 && meets(p) ==> meets(q)
  }

  /**
   The bisection. `encode` stands for encoding and decoding at a quality and `meets` for comparing the
   result with the target. Every operation is on `u8` values, so that none wraps is part of the proof.
   */
  method LowestQuality<T>(encode: u8 -> T, meets: u8 -> bool) returns (best: Option<Best<T>>)
    ensures best.Some? ==>
              && 1 <= best.value.quality <= 100 && meets(best.value.quality)
              && best.value.encoded == encode(best.value.quality)
              && (best.value.quality == 1 || !meets(best.value.quality - 1))
    ensures best.None? ==> !meets(100)
    ensures Monotone(meets) ==>
              && (best.None? <==> forall q: u8 | 1 <= q <= 100 :: !meets(q))
              && (best.Some? ==> forall q: u8 | 1 <= q <= 100 :: meets(q) <==> best.value.quality <= q)
  {
    var lo: u8, hi: u8 := 1, 100;
    best := None;
    while lo <= hi
      invariant 1 <= lo <= 101 && hi <= 100 && lo <= hi + 1
      invariant lo == 1 || !meets(lo - 1)
      invariant if best.Some?
                then hi < 100 && best.value.quality == hi + 1 && meets(hi + 1) && best.value.encoded == encode(hi + 1)
                else hi == 100
      decreases hi as int - lo as int
    {
      var mid: u8 := lo + (hi - lo) / 2;
      var encoded := encode(mid);
      if meets(mid) {
        best := Some(Best(mid, encoded));
        if mid == 1 {
          break;
        }
        hi := mid - 1;
      } else {
        lo := mid + 1;
      }
    }
  }
}
