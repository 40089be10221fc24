/** `paginate_questions`: a fixed-size page of the id-ordered questions,
    cut with Python's slice `questions[start:end]`. */
module Pagination {
  import opened Records

  const QuestionsPerPage: nat := 10

  /** The index Python's slicing uses for a bound `i` on a list of length
      `n`: a negative bound counts from the end, and the result is clamped
      to `[0, n]`. */
  function SliceBound(i: int, n: nat): (b: nat)
    ensures b <= n
    ensures 0 <= i <= n ==> b == i
    ensures i < 0 && 0 <= n + i ==> b == n + i
    ensures n + i < 0 ==> b == 0
    ensures n < i ==> b == n
  {
    if i < 0 then (if i + n < 0 then 0 else i + n)
    else if i > n then n
    else i
  }

  /** Python's `s[start:end]` with step one. */
  function PySlice(s: seq<Question>, start: int, end: int): (r: seq<Question>)
    ensures var lo, hi := SliceBound(start, |s|), SliceBound(end, |s|);
      && |r| == (if lo < hi then hi - lo else 0)
      && forall k :: 0 <= k < |r| ==> r[k] == s[lo + k]
  {
    var lo, hi := SliceBound(start, |s|), SliceBound(end, |s|);
    if lo < hi then s[lo..hi] else []
  }

  /** The questions of page `page` (1-based): the slice
      `[(page - 1) * 10, page * 10)` of the selection. */
  function Paginate(selection: seq<Question>, page: int): (r: seq<Question>)
    ensures |r| <= QuestionsPerPage
  {
    var start := (page - 1) * QuestionsPerPage;
    PySlice(selection, start, start + QuestionsPerPage)
  }

  /** For a page of at least one, the page holds exactly the questions at
      indices `[(page - 1) * 10, page * 10)` of the selection, so its length
      is `max(0, min(10, n - (page - 1) * 10))` and it is empty exactly when
      the selection ends before the page starts. */
  lemma PaginateWindow(selection: seq<Question>, page: int)
    requires page >= 1
    ensures var start, n := (page - 1) * QuestionsPerPage, |selection|;
      && |Paginate(selection, page)| == (if n <= start then 0 else if n - start < QuestionsPerPage then n - start else QuestionsPerPage)
      && (forall k :: 0 <= k < |Paginate(selection, page)| ==> Paginate(selection, page)[k] == selection[start + k])
      && (Paginate(selection, page) == [] <==> n <= start)
  {
  }

  /** Every question of the selection appears on page `i / 10 + 1`, at
      position `i % 10`: consecutive pages cover the whole selection. */
  lemma EveryQuestionOnItsPage(selection: seq<Question>, i: nat)
    requires i < |selection|
    ensures i % QuestionsPerPage < |Paginate(selection, i / QuestionsPerPage + 1)|
    ensures Paginate(selection, i / QuestionsPerPage + 1)[i % QuestionsPerPage] == selection[i]
  {
    var page := i / QuestionsPerPage + 1;
    PaginateWindow(selection, page);
    assert (page - 1) * QuestionsPerPage + i % QuestionsPerPage == i;
  }

  /** Page zero is always empty: its slice is `[-10:0]`. */
  lemma PageZeroIsEmpty(selection: seq<Question>)
    ensures Paginate(selection, 0) == []
  {
  }

  /** A negative page is not empty in general: both of its bounds count from
      the end of the selection, so page `-p` holds the block
      `[n - 10 * (p + 1), n - 10 * p)` of a selection of length `n`, with
      both bounds clamped at zero. */
  lemma NegativePageCountsFromEnd(selection: seq<Question>, page: int)
    requires page < 0
    ensures var n := |selection|;
      var lo := if n + (page - 1) * QuestionsPerPage < 0 then 0 else n + (page - 1) * QuestionsPerPage;
      var hi := if n + page * QuestionsPerPage < 0 then 0 else n + page * QuestionsPerPage;
      Paginate(selection, page) == selection[lo..hi]
  {
  }
}
