/** The pagination helper: page `p` of a result list is the Python slice
    `items[(p - 1) * 10 : (p - 1) * 10 + 10]`. Python slice semantics are
    modelled in full, so non-positive page numbers wrap around from the end
    exactly as the source does. */
module Pagination {
  import opened Records

  const QuestionsPerPage: nat := 10

  function Min(a: int, b: int): int
  {
    if a <= b then a else b
  }

  /** The position a Python slice bound `i` denotes in a list of length `n`:
      a negative bound counts from the end, and the result is clipped to
      [0, n]. */
  function SliceBound(i: int, n: nat): (r: nat)
    ensures r <= n
    ensures 0 <= i ==> r == Min(i, n)
  {
    if i < 0 then (if n + i < 0 then 0 else n + i)
    else if i > n then n
    else i
  }

  /** Python's `s[i:j]`. */
  function Slice<T>(s: seq<T>, i: int, j: int): (r: seq<T>)
    ensures 0 <= i <= j ==> r == s[Min(i, |s|)..Min(j, |s|)]
    ensures forall x :: x in r ==> x in s
  {
    var lo, hi := SliceBound(i, |s|), SliceBound(j, |s|);
    if lo <= hi then s[lo..hi] else []
  }

  /** `request.args.get('page', 1, type=int)`: an absent or non-numeric page
      argument reads as page 1. */
  function PageNumber(arg: Option<int>): int
  {
    match arg
    case Some(p) => p
    case None => 1
  }

  /** The first position of page `page`. */
  function PageStart(page: int): int
  {
    (page - 1) * QuestionsPerPage
  }

  /** `paginate_questions`: the page the request asks for. */
  function Paginate<T>(arg: Option<int>, items: seq<T>): (r: seq<T>)
    ensures |r| <= QuestionsPerPage
    ensures forall x :: x in r ==> x in items
    ensures PageNumber(arg) >= 1 ==>
      r == items[Min(PageStart(PageNumber(arg)), |items|)..Min(PageStart(PageNumber(arg)) + QuestionsPerPage, |items|)]
    ensures arg.None? ==> r == items[..Min(QuestionsPerPage, |items|)]
  {
    var start := PageStart(PageNumber(arg));
    Slice(items, start, start + QuestionsPerPage)
  }

  /** For a page number of at least 1, the page is empty exactly when it
      starts at or after the end of the list: this is the only way the list
      handler's 404 arises, even when earlier pages hold questions. */
  lemma EmptyPageIff<T>(page: int, items: seq<T>)
    requires page >= 1
    ensures Paginate(Some(page), items) == [] <==> |items| <= PageStart(page)
  {
  }

  /** Page 0 is always empty: the slice [-10:0] ends before it starts. */
  lemma PageZeroIsEmpty<T>(items: seq<T>)
    ensures Paginate(Some(0), items) == []
  {
  }

  /** A negative page wraps around: page -1 of 30 items is items 10..19. */
  lemma NegativePageWrapsAround<T>(items: seq<T>)
    requires |items| == 30
    ensures Paginate(Some(-1), items) == items[10..20]
  {
  }

  /** Pages p and p + 1 are adjacent and do not overlap: together they are
      exactly the slice from the start of page p to the end of page p + 1. */
  lemma AdjacentPages<T>(page: int, items: seq<T>)
    requires page >= 1
    ensures Paginate(Some(page), items) + Paginate(Some(page + 1), items)
         == items[Min(PageStart(page), |items|)..Min(PageStart(page + 2), |items|)]
  {
  }

  /** Pages 1 .. k, concatenated. */
  function FirstPages<T>(k: nat, items: seq<T>): seq<T>
  {
    if k == 0 then [] else FirstPages(k - 1, items) + Paginate(Some(k), items)
  }

  /** Pages 1 .. k cover the first 10k items with no gap and no repetition. */
  lemma {:induction false} FirstPagesCover<T>(k: nat, items: seq<T>)
    ensures FirstPages(k, items) == items[..Min(k * QuestionsPerPage, |items|)]
  {
    if k > 0 {
      FirstPagesCover(k - 1, items);
      var a, b := Min((k - 1) * QuestionsPerPage, |items|), Min(k * QuestionsPerPage, |items|);
      assert items[..a] + items[a..b] == items[..b];
    }
  }
}
