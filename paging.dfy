/**
  The Prev/Next pagination rule shared by the asset directory and the HR asset list:
  Prev moves to `Math.max(page - 1, 1)` and is disabled on page 1, Next moves to
  `Math.min(page + 1, totalPages)` and is disabled on the last page, and a missing or
  zero page count from the backend counts as one page.
*/
module Paging {
  import opened Common

  /** `data?.totalPages || 1`. */
  function TotalPages(reported: Option<int>): (total: int)
    ensures reported.None? ==> total == 1
    ensures reported.Some? ==> total == if reported.value == 0 then 1 else reported.value
  {
    if reported.None? || reported.value == 0 then 1 else reported.value
  }

  /** `Math.max(page - 1, 1)`. */
  function PrevTarget(page: int): int
  {
    if page - 1 > 1 then page - 1 else 1
  }

  /** `Math.min(page + 1, totalPages)`. */
  function NextTarget(page: int, total: int): int
  {
    if page + 1 < total then page + 1 else total
  }

  predicate PrevDisabled(page: int)
  {
    page == 1
  }

  predicate NextDisabled(page: int, total: int)
  {
    page == total
  }

  /**
    From a page in `[1, total]` both targets stay in `[1, total]`, each moves by exactly one
    page when it moves at all, and each button is disabled exactly when it would not move.
  */
  lemma StepStaysInRange(page: int, total: int)
    requires 1 <= page <= total
    ensures 1 <= PrevTarget(page) <= total && 1 <= NextTarget(page, total) <= total
    ensures PrevDisabled(page) <==> PrevTarget(page) == page
    ensures NextDisabled(page, total) <==> NextTarget(page, total) == page
    ensures !PrevDisabled(page) ==> PrevTarget(page) == page - 1
    ensures !NextDisabled(page, total) ==> NextTarget(page, total) == page + 1
  {
  }

  datatype Step = Prev | Next

  /** The page reached after clicking the buttons in `steps`, in order, with a fixed page count. */
  function Walk(page: int, total: int, steps: seq<Step>): int
    decreases |steps|
  {
    if steps == [] then page
    else
      var next := if steps[0] == Prev then PrevTarget(page) else NextTarget(page, total);
      Walk(next, total, steps[1..])
  }

  /** Starting inside `[1, total]`, no sequence of Prev and Next clicks leaves it. */
  lemma {:induction false} WalkStaysInRange(page: int, total: int, steps: seq<Step>)
    requires 1 <= page <= total
    ensures 1 <= Walk(page, total, steps) <= total
    decreases |steps|
  {
    if steps != [] {
      StepStaysInRange(page, total);
      var next := if steps[0] == Prev then PrevTarget(page) else NextTarget(page, total);
      WalkStaysInRange(next, total, steps[1..]);
    }
  }

  /** A page left beyond the last one (the count shrank after a refetch) is brought back by Next in one click. */
  lemma NextRecoversStalePage(page: int, total: int)
    requires page > total
    ensures NextTarget(page, total) == total && !NextDisabled(page, total)
  {
  }
}
