/** The pager of web/java/pagination.js: the number of the last page, which buttons are
    enabled, and the guarded moves of `currentPage`. The page size `perPage` and the
    current page are the page's global variables; here they are the fields of a `Pager`. */
module Pagination {

  /** `Math.ceil(totalItems / perPage) || 1`: the number of pages needed for the
      items, and 1 when there are none. */
  function MaxPage(total: nat, perPage: int): (r: int)
    requires perPage >= 1
    ensures r >= 1
    ensures total == 0 ==> r == 1
    ensures total > 0 ==> (r - 1) * perPage < total <= r * perPage
  {
    if total == 0 then 1 else (total + perPage - 1) / perPage
  }

  /** `prevBtn.disabled = page === 1`. */
  predicate PrevDisabled(page: int) {
    page == 1
  }

  /** `nextBtn.disabled = page >= maxPage`. */
  predicate NextDisabled(page: int, maxPage: int) {
    page >= maxPage
  }

  /** A click on a pager button. */
  datatype Move = Prev | Next

  /** The page after one move: `prevPage` steps back only from above page 1, and
      `nextPage` steps forward only from below the last page. */
  function Step(page: int, move: Move, maxPage: int): int {
    match move
    case Prev => if page > 1 then page - 1 else page
    case Next => if page < maxPage then page + 1 else page
  }

  /** The page after a sequence of moves. */
  function Run(page: int, moves: seq<Move>, maxPage: int): int
    decreases moves
  {
    if moves == [] then page else Run(Step(page, moves[0], maxPage), moves[1..], maxPage)
  }

  /** One move keeps a page in `[1, maxPage]`, and moves it by at most one. */
  lemma StepInRange(page: int, move: Move, maxPage: int)
    requires 1 <= page <= maxPage
    ensures 1 <= Step(page, move, maxPage) <= maxPage
    ensures -1 <= Step(page, move, maxPage) - page <= 1
  {
  }

  /** A page in `[1, maxPage]` stays there under any sequence of moves. */
  lemma {:induction false} RunInRange(page: int, moves: seq<Move>, maxPage: int)
    requires 1 <= page <= maxPage
    ensures 1 <= Run(page, moves, maxPage) <= maxPage
    decreases |moves|
  {
    if moves != [] {
      StepInRange(page, moves[0], maxPage);
      RunInRange(Step(page, moves[0], maxPage), moves[1..], maxPage);
    }
  }

  /** On a page in range, a button is enabled exactly when its move changes the page. */
  lemma ButtonsMatchMoves(page: int, maxPage: int)
    requires 1 <= page <= maxPage
    ensures !PrevDisabled(page) <==> Step(page, Prev, maxPage) != page
    ensures !NextDisabled(page, maxPage) <==> Step(page, Next, maxPage) != page
  {
  }

  /** `n` clicks on "Neste" advance `n` pages, and stop at the last page. */
  lemma {:induction false} NextReachesLast(page: int, n: nat, maxPage: int)
    requires 1 <= page <= maxPage
    ensures Run(page, seq(n, _ => Next), maxPage) == if page + n <= maxPage then page + n else maxPage
    decreases n
  {
    if n > 0 {
      var moves := seq(n, _ => Next);
      assert moves[0] == Next && moves[1..] == seq(n - 1, _ => Next);
      NextReachesLast(Step(page, Next, maxPage), n - 1, maxPage);
    }
  }

  class Pager {
    var currentPage: int
    const perPage: int

    /** `let currentPage = 1`, with the configured page size. */
    constructor (perPage: int)
      requires perPage >= 1
      ensures this.perPage == perPage && currentPage == 1
    {
      this.perPage := perPage;
      currentPage := 1;
    }

    /** `prevPage()`: steps back when not on page 1; reports whether the page is
        redrawn. */
    method PrevPage() returns (rendered: bool)
      modifies this
      ensures forall maxPage :: currentPage == Step(old(currentPage), Prev, maxPage)
      ensures rendered <==> old(currentPage) > 1
    {
      rendered := false;
      if currentPage > 1 {
        currentPage := currentPage - 1;
        rendered := true;
      }
    }

    /** `nextPage()`: steps forward when below the last page of the `filtered` items;
        reports whether the page is redrawn. */
    method NextPage(filtered: nat) returns (rendered: bool)
      requires perPage >= 1
      modifies this
      ensures currentPage == Step(old(currentPage), Next, MaxPage(filtered, perPage))
      ensures rendered <==> old(currentPage) < MaxPage(filtered, perPage)
    {
      var maxPage := MaxPage(filtered, perPage);
      rendered := false;
      if currentPage < maxPage {
        currentPage := currentPage + 1;
        rendered := true;
      }
    }
  }
}
