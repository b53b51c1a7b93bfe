/** The two record kinds of the trivia store, and the facts about question ids
    that the handlers rely on. The relational table becomes an ordered sequence
    of rows; the order is the order in which a full-table query returns them. */
module Records {

  datatype Option<+T> = None | Some(value: T)

  /** A row of the `question` table, in the shape that `Question.format()`
      serialises: {id, question, answer, category, difficulty}. */
  datatype Question = Question(
    id: int,
    question: string,
    answer: string,
    category: int,
    difficulty: int)

  /** A row of the `category` table; `kind` is the column called `type`. */
  datatype Category = Category(id: int, kind: string)

  /** The ids in use in a question table. */
  function Ids(qs: seq<Question>): set<int>
  {
    set q | q in qs :: q.id
  }

  /** Question ids are the table's primary key: no two rows share one. */
  ghost predicate UniqueIds(qs: seq<Question>)
  {
    forall i, j :: 0 <= i < j < |qs| ==> qs[i].id != qs[j].id
  }

  /** Category ids are the category table's primary key. */
  ghost predicate UniqueCategoryIds(cats: seq<Category>)
  {
    forall i, j :: 0 <= i < j < |cats| ==> cats[i].id != cats[j].id
  }

  /** The position of the row whose id is `id`, if there is one: the model of
      `Question.query.filter(Question.id == id).one_or_none()`. */
  function IndexOfId(qs: seq<Question>, id: int): (r: Option<nat>)
    ensures r.Some? ==> r.value < |qs| && qs[r.value].id == id
    ensures r.None? <==> id !in Ids(qs)
  {
    if qs == [] then None
    else if qs[0].id == id then Some(0)
    else
      match IndexOfId(qs[1..], id)
      case None => assert Ids(qs) == {qs[0].id} + Ids(qs[1..]); None
      case Some(k) => Some(k + 1)
  }

  /** An id strictly above every id in use. */
  function IdBound(qs: seq<Question>): (b: int)
    ensures b >= 1
    ensures forall q :: q in qs ==> q.id < b
  {
    if qs == [] then 1
    else
      var rest := IdBound(qs[1..]);
      assert forall q :: q in qs ==> q == qs[0] || q in qs[1..];
      if qs[0].id < rest then rest else qs[0].id + 1
  }

  /** The store can always hand out a positive id that is not in use. */
  lemma FreshIdExists(qs: seq<Question>)
    ensures exists id :: id >= 1 && id !in Ids(qs)
  {
    var b := IdBound(qs);
    assert b !in Ids(qs);
  }

  /** Removing the row at position k of a table with unique ids removes exactly
      that row's id and keeps the ids unique. */
  lemma RemoveAtRemovesOneId(qs: seq<Question>, k: nat)
    requires UniqueIds(qs) && k < |qs|
    ensures UniqueIds(qs[..k] + qs[k + 1..])
    ensures Ids(qs[..k] + qs[k + 1..]) == Ids(qs) - {qs[k].id}
  {
  }

  /** Appending a row whose id is not in use keeps the ids unique. */
  lemma AppendFreshKeepsUnique(qs: seq<Question>, q: Question)
    requires UniqueIds(qs) && q.id !in Ids(qs)
    ensures UniqueIds(qs + [q])
    ensures Ids(qs + [q]) == Ids(qs) + {q.id}
  {
  }
}
