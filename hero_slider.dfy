/** The home page slider's index: next and previous wrap around, the dots jump. */
module HeroSlider {
  /** handleNextSlide. */
  function Next(index: int, count: int): (r: int)
    ensures 0 <= index < count ==> 0 <= r < count
    ensures index == count - 1 ==> r == 0
  {
    if index == count - 1 then 0 else index + 1
  }

  /** handlePrevSlide. */
  function Prev(index: int, count: int): (r: int)
    ensures 0 <= index < count ==> 0 <= r < count
    ensures index == 0 ==> r == count - 1
  {
    if index == 0 then count - 1 else index - 1
  }

  /** handleGoToSlide: the dot's index becomes the current one. */
  function GoTo(index: int): (r: int)
    ensures r == index
  {
    index
  }

  /** Previous undoes next and next undoes previous, on every index of a non-empty slider. */
  lemma PrevNextInverse(index: int, count: int)
    requires 0 <= index < count
    ensures Prev(Next(index, count), count) == index
    ensures Next(Prev(index, count), count) == index
  {
  }

  /** Pressing next `k` times. */
  function NextTimes(index: int, count: int, k: nat): int
  {
    if k == 0 then index else Next(NextTimes(index, count, k - 1), count)
  }

  /** Pressing next `k` times, up to a full turn, moves `k` slides on, wrapping past the last one. */
  lemma {:induction false} NextTimesIsRotation(index: int, count: int, k: nat)
    requires 0 <= index < count && k <= count
    ensures NextTimes(index, count, k) == if index + k < count then index + k else index + k - count
  {
    if k > 0 {
      NextTimesIsRotation(index, count, k - 1);
    }
  }

  /** After as many presses of next as there are slides the slider is back where it was. */
  lemma FullTurn(index: int, count: int)
    requires 0 <= index < count
    ensures NextTimes(index, count, count) == index
  {
    NextTimesIsRotation(index, count, count);
  }
}
