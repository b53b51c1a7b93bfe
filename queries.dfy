/** The three query filters the handlers issue against the question table:
    the search filter, the category filter and the quiz filter. Each keeps the
    rows of the table that satisfy a predicate, in table order. */
module Queries {
  import opened Records
  import opened Text

  /** The rows of `s` that satisfy `f`, in their original order. */
  function Filter<T(!new)>(s: seq<T>, f: T -> bool): (r: seq<T>)
    ensures |r| <= |s|
    ensures forall x :: x in r <==> x in s && f(x)
    ensures r == [] <==> forall x :: x in s ==> !f(x)
    ensures forall x :: multiset(r)[x] == if f(x) then multiset(s)[x] else 0
  {
    if s == [] then []
    else
      var rest := Filter(s[1..], f);
      assert forall x :: x in s <==> x == s[0] || x in s[1..];
      assert s == [s[0]] + s[1..];
      if f(s[0]) then [s[0]] + rest else rest
  }

  /** Filtering keeps table order: the rows kept from a concatenation are
      the rows kept from its first part followed by those kept from its
      second part. */
  lemma {:induction false} FilterKeepsOrder<T(!new)>(a: seq<T>, b: seq<T>, f: T -> bool)
    ensures Filter(a + b, f) == Filter(a, f) + Filter(b, f)
  {
    if a == [] {
      assert a + b == b;
    } else {
      var x, t := a[0], a[1..];
      FilterKeepsOrder(t, b, f);
      SplitHead(a, b);
      FilterCons(x, t + b, f);
      FilterCons(x, t, f);
      if f(x) {
        Associative([x], Filter(t, f), Filter(b, f));
      }
    }
  }

  lemma SplitHead<T>(a: seq<T>, b: seq<T>)
    requires a != []
    ensures a == [a[0]] + a[1..]
    ensures a + b == [a[0]] + (a[1..] + b)
  {
  }

  lemma Associative<T>(a: seq<T>, b: seq<T>, c: seq<T>)
    ensures a + (b + c) == (a + b) + c
  {
  }

  lemma FilterCons<T(!new)>(x: T, s: seq<T>, f: T -> bool)
    ensures Filter([x] + s, f) == if f(x) then [x] + Filter(s, f) else Filter(s, f)
  {
    assert ([x] + s)[1..] == s;
  }

  /** A filter that every row passes returns the whole table, in order. */
  lemma {:induction false} FilterKeepsAll<T(!new)>(s: seq<T>, f: T -> bool)
    requires forall x :: x in s ==> f(x)
    ensures Filter(s, f) == s
  {
    if s != [] {
      assert forall x :: x in s[1..] ==> x in s;
      FilterKeepsAll(s[1..], f);
      assert [s[0]] + s[1..] == s;
    }
  }

  /** The search test `question ILIKE '%term%'`: only the question text is
      searched, never the answer. */
  predicate MatchesSearch(q: Question, term: string)
  {
    ContainsIgnoringCase(q.question, term)
  }

  /** The rows a search for `term` returns. */
  function SearchMatches(qs: seq<Question>, term: string): (r: seq<Question>)
    ensures forall q :: q in r <==> q in qs && ContainsIgnoringCase(q.question, term)
  {
    Filter(qs, q => MatchesSearch(q, term))
  }

  /** The empty search term matches every question. */
  lemma EmptySearchMatchesAll(qs: seq<Question>)
    ensures SearchMatches(qs, "") == qs
  {
    forall q | q in qs
      ensures MatchesSearch(q, "")
    {
      EmptyTermFoundEverywhere(q.question);
    }
    FilterKeepsAll(qs, q => MatchesSearch(q, ""));
  }

  /** The rows `Question.query.filter(Question.category == category)`
      returns: exact category equality. */
  function InCategory(qs: seq<Question>, category: int): (r: seq<Question>)
    ensures forall q :: q in r <==> q in qs && q.category == category
  {
    Filter(qs, (q: Question) => q.category == category)
  }

  /** Whether `q` may be served in a quiz over `category` (0 meaning every
      category) by a player who has already seen `previous`. */
  predicate QuizEligible(q: Question, previous: seq<int>, category: int)
  {
    q.id !in previous && (category == 0 || q.category == category)
  }

  /** The quiz query: the unseen rows of the chosen category. */
  function Eligible(qs: seq<Question>, previous: seq<int>, category: int): (r: seq<Question>)
    ensures forall q :: q in r <==> q in qs && q.id !in previous && (category == 0 || q.category == category)
  {
    Filter(qs, q => QuizEligible(q, previous, category))
  }

  /** Once every id has been seen, the quiz has nothing left to serve,
      whatever category is chosen. */
  lemma AllSeenLeavesNothing(qs: seq<Question>, previous: seq<int>, category: int)
    requires forall q :: q in qs ==> q.id in previous
    ensures Eligible(qs, previous, category) == []
  {
    var r := Eligible(qs, previous, category);
    if r != [] {
      HeadIsMember(r);
      assert false;
    }
  }

  lemma HeadIsMember<T>(s: seq<T>)
    requires s != []
    ensures s[0] in s
  {
  }

  /** A fresh quiz over every category may serve any question. */
  lemma FreshQuizOverAllCategories(qs: seq<Question>)
    ensures Eligible(qs, [], 0) == qs
  {
    FilterKeepsAll(qs, q => QuizEligible(q, [], 0));
  }
}
