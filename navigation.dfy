/**
 * The cursor arithmetic of show_next_image and show_previous_image. Python's
 * % and Dafny's agree whenever the divisor is positive, which the non-empty
 * guard on image_list ensures: (0 - 1) % n is n - 1 in both.
 */
module Navigation {

  /** (current_index + 1) % len(image_list) */
  function Next(i: int, n: int): (j: int)
    requires n > 0
    ensures 0 <= j < n
    ensures 0 <= i < n - 1 ==> j == i + 1
    ensures i == n - 1 ==> j == 0
  {
    (i + 1) % n
  }

  /** (current_index - 1) % len(image_list) */
  function Prev(i: int, n: int): (j: int)
    requires n > 0
    ensures 0 <= j < n
    ensures 0 < i < n ==> j == i - 1
    ensures i == 0 ==> j == n - 1
  {
    (i - 1) % n
  }

  lemma PrevUndoesNext(i: int, n: int)
    requires 0 <= i < n
    ensures Prev(Next(i, n), n) == i
  {
  }

  lemma NextUndoesPrev(i: int, n: int)
    requires 0 <= i < n
    ensures Next(Prev(i, n), n) == i
  {
  }

  /** The cursor after k presses of the right arrow. */
  function NextTimes(i: int, n: int, k: nat): (j: int)
    requires n > 0
  {
    if k == 0 then i else Next(NextTimes(i, n, k - 1), n)
  }

  /** The cursor after k presses of the left arrow. */
  function PrevTimes(i: int, n: int, k: nat): (j: int)
    requires n > 0
  {
    if k == 0 then i else Prev(PrevTimes(i, n, k - 1), n)
  }

  lemma {:induction false} NextTimesSteps(i: int, n: int, k: nat)
    requires 0 <= i < n && k <= n
    ensures NextTimes(i, n, k) == if i + k < n then i + k else i + k - n
  {
    if k > 0 {
      NextTimesSteps(i, n, k - 1);
    }
  }

  lemma {:induction false} PrevTimesSteps(i: int, n: int, k: nat)
    requires 0 <= i < n && k <= n
    ensures PrevTimes(i, n, k) == if k <= i then i - k else i - k + n
  {
    if k > 0 {
      PrevTimesSteps(i, n, k - 1);
    }
  }

  /** Pressing the right arrow once per image comes back to where it started. */
  lemma NextCycle(i: int, n: int)
    requires 0 <= i < n
    ensures NextTimes(i, n, n) == i
  {
    NextTimesSteps(i, n, n);
  }

  /** So does pressing the left arrow once per image. */
  lemma PrevCycle(i: int, n: int)
    requires 0 <= i < n
    ensures PrevTimes(i, n, n) == i
  {
    PrevTimesSteps(i, n, n);
  }
}
