/** The request handlers of the trivia service, over a store that holds the
    question and category tables in memory. Request parameters arrive already
    parsed (see `Json` and `Field`). */
module Api {
  import opened Records
  import opened Pagination
  import opened Queries
  import opened Responses

  /** A request's JSON as the handler sees it: `request.get_json()` raises a
      400 on a body it cannot parse; a parsed body that is not an object makes
      `body.get(...)` raise; otherwise the object's fields. */
  datatype Json<+T> = Malformed | NotAnObject | Object(fields: T)

  /** One key of a JSON object as `body.get(key, default)` sees it: absent
      (the default is used), present with null (`None` is used, not the
      default), or given. */
  datatype Field<+T> = Absent | Null | Given(value: T)

  /** Where a delete or an insert can fail inside its guarded block: not at
      all, at the write itself (nothing is committed), or after the write has
      been committed (in the re-query, the pagination or the serialisation). */
  datatype Fault = NoFault | WriteFails | AfterWriteFails

  /** The JSON body of `POST /questions`. Each field is `None` when the key
      is absent or null: `body.get(key, None)` reads both as `None`. */
  datatype NewQuestionBody = NewQuestionBody(
    question: Option<string>,
    answer: Option<string>,
    category: Option<int>,
    difficulty: Option<int>)

  /** The JSON body of `POST /questions/search`. */
  datatype SearchBody = SearchBody(searchTerm: Field<string>)

  /** The `quiz_category` entry of a quiz request: absent, null or not a
      mapping (indexing it with 'id' raises), or a mapping whose `id` key is
      absent, null or given. */
  datatype QuizCategoryField = NoQuizCategory | QuizCategory(id: Field<int>)

  /** The JSON body of `POST /quizzes`. */
  datatype QuizBody = QuizBody(quizCategory: QuizCategoryField, previousQuestions: Field<seq<int>>)

  /** All four fields of a new question are present and not null. */
  predicate Complete(b: NewQuestionBody)
  {
    b.question.Some? && b.answer.Some? && b.category.Some? && b.difficulty.Some?
  }

  /** The ids of a category table. */
  function CategoryIds(cats: seq<Category>): set<int>
  {
    set c | c in cats :: c.id
  }

  /** The dictionary `{cat.id: cat.type for cat in cats}`, built left to right,
      so a later row overwrites an earlier one with the same id. */
  function CategoryMapOf(cats: seq<Category>): (m: map<int, string>)
    ensures m.Keys == CategoryIds(cats)
  {
    if cats == [] then map[]
    else
      var last := cats[|cats| - 1];
      assert CategoryIds(cats) == CategoryIds(cats[..|cats| - 1]) + {last.id} by {
        assert forall c :: c in cats <==> c in cats[..|cats| - 1] || c == last;
      }
      CategoryMapOf(cats[..|cats| - 1])[last.id := last.kind]
  }

  /** When category ids are unique, the dictionary sends every category's id
      to its type and has one entry per row. */
  lemma {:induction false} CategoryMapOfUnique(cats: seq<Category>)
    requires UniqueCategoryIds(cats)
    ensures forall c :: c in cats ==> CategoryMapOf(cats)[c.id] == c.kind
    ensures |CategoryMapOf(cats)| == |cats|
  {
    if cats != [] {
      var init, last := cats[..|cats| - 1], cats[|cats| - 1];
      assert UniqueCategoryIds(init);
      CategoryMapOfUnique(init);
      forall c | c in init
        ensures c.id != last.id
      {
        var i :| 0 <= i < |init| && init[i] == c;
        assert cats[i] == c;
      }
      forall c | c in cats
        ensures CategoryMapOf(cats)[c.id] == c.kind
      {
        if c != last {
          var i :| 0 <= i < |cats| && cats[i] == c;
          assert i < |cats| - 1 && c in init;
        }
      }
    }
  }

  /** The loop of `get_categories` and `get_all_questions` that builds the
      id-to-type dictionary. */
  method BuildCategoryMap(cats: seq<Category>) returns (m: map<int, string>)
    ensures m == CategoryMapOf(cats)
    ensures m.Keys == CategoryIds(cats)
  {
    m := map[];
    var i := 0;
    while i < |cats|
      invariant 0 <= i <= |cats|
      invariant m == CategoryMapOf(cats[..i])
    {
      assert cats[..i + 1][..i] == cats[..i];
      m := m[cats[i].id := cats[i].kind];
      i := i + 1;
    }
    assert cats[..|cats|] == cats;
  }

  /** The text the search pattern `f'%{search}%'` is built from: a missing
      term reads as '', and a null term is formatted as 'None'. */
  function SearchTerm(body: SearchBody): string
  {
    match body.searchTerm
    case Absent => ""
    case Null => "None"
    case Given(t) => t
  }

  /** The previous questions of a quiz body whose `previous_questions` is
      not null; missing reads as []. */
  function PreviousQuestions(body: QuizBody): seq<int>
    requires !body.previousQuestions.Null?
  {
    match body.previousQuestions
    case Given(p) => p
    case Absent => []
  }

  /** The service's view of the database: the question table and the
      category table, in query order. */
  class Store {
    var questions: seq<Question>
    var categories: seq<Category>

    /** Both tables are keyed by id. */
    ghost predicate Valid()
      reads this
    {
      UniqueIds(questions) && UniqueCategoryIds(categories)
    }

    constructor (qs: seq<Question>, cats: seq<Category>)
      requires UniqueIds(qs) && UniqueCategoryIds(cats)
      ensures Valid()
      ensures questions == qs && categories == cats
    {
      questions := qs;
      categories := cats;
    }

    /** `GET /categories`: 404 exactly when the category table is empty;
        otherwise the id-to-type dictionary and the number of rows. */
    method GetCategories() returns (r: Response)
      requires Valid()
      ensures r.Abort? <==> categories == []
      ensures r.Abort? ==> r.code == 404
      ensures r.Ok? ==> r.payload.CategoryListing?
      ensures r.Ok? ==> r.payload.categories.Keys == CategoryIds(categories)
      ensures r.Ok? ==> forall c :: c in categories ==> r.payload.categories[c.id] == c.kind
      ensures r.Ok? ==> r.payload.totalCategories == |categories| == |r.payload.categories|
    {
      var current := BuildCategoryMap(categories);
      CategoryMapOfUnique(categories);
      if |current| == 0 {
        return Abort(404);
      }
      r := Ok(CategoryListing(current, |categories|));
    }

    /** `GET /questions?page=p`: 404 exactly when the requested page is
        empty, even when other pages hold questions; otherwise the page, the
        full count, every category and a null current category. */
    method GetAllQuestions(pageArg: Option<int>) returns (r: Response)
      ensures r.Abort? <==> Paginate(pageArg, questions) == []
      ensures r.Abort? ==> r.code == 404
      ensures r.Ok? ==> r.payload.QuestionListing?
      ensures r.Ok? ==> r.payload.questions == Paginate(pageArg, questions)
      ensures r.Ok? ==> r.payload.totalQuestions == |questions|
      ensures r.Ok? ==> r.payload.categories == CategoryMapOf(categories)
      ensures r.Ok? ==> r.payload.currentCategory == None
    {
      var current := Paginate(pageArg, questions);
      var all := BuildCategoryMap(categories);
      if |current| == 0 {
        return Abort(404);
      }
      r := Ok(QuestionListing(current, |questions|, all, None));
    }

    /** `DELETE /questions/<id>`: 404 and no change when no question has the
        id; 422 and no change when the delete itself fails; otherwise exactly
        that row is removed, the others keep their order, and the answer
        reports the id and the new count, or is 422 when a failure follows
        the committed delete. */
    method DeleteQuestion(questionId: nat, pageArg: Option<int>, fault: Fault) returns (r: Response)
      requires Valid()
      modifies this`questions
      ensures Valid()
      ensures questionId !in Ids(old(questions)) ==> r == Abort(404) && questions == old(questions)
      ensures questionId in Ids(old(questions)) && fault == WriteFails ==> r == Abort(422) && questions == old(questions)
      ensures questionId in Ids(old(questions)) && fault != WriteFails ==>
        && (exists k :: 0 <= k < |old(questions)| && old(questions)[k].id == questionId
                        && questions == old(questions)[..k] + old(questions)[k + 1..])
        && Ids(questions) == Ids(old(questions)) - {questionId}
        && |questions| == |old(questions)| - 1
        && r == if fault == NoFault then Ok(Deletion(questionId, Paginate(pageArg, questions), |questions|))
                else Abort(422)
    {
      match IndexOfId(questions, questionId)
      case None =>
        r := Abort(404);
      case Some(k) =>
        if fault == WriteFails {
          r := Abort(422);
        } else {
          RemoveAtRemovesOneId(questions, k);
          questions := questions[..k] + questions[k + 1..];
          if fault == AfterWriteFails {
            r := Abort(422);
          } else {
            r := Ok(Deletion(questionId, Paginate(pageArg, questions), |questions|));
          }
        }
    }

    /** `POST /questions`: 400 when the body cannot be parsed and 500 when it
        is not a JSON object (both happen outside the guarded block); 422 and
        no change when a field is missing or null, or when the insert itself
        fails; otherwise exactly one row with the given fields and a
        previously unused id is appended, and the answer reports that id and
        the new count, or is 422 when a failure follows the committed insert. */
    method NewQuestion(body: Json<NewQuestionBody>, pageArg: Option<int>, fault: Fault) returns (r: Response)
      requires Valid()
      modifies this`questions
      ensures Valid()
      ensures body.Malformed? ==> r == Abort(400) && questions == old(questions)
      ensures body.NotAnObject? ==> r == Abort(500) && questions == old(questions)
      ensures body.Object? && !Complete(body.fields) ==> r == Abort(422) && questions == old(questions)
      ensures body.Object? && Complete(body.fields) && fault == WriteFails ==>
        r == Abort(422) && questions == old(questions)
      ensures body.Object? && Complete(body.fields) && fault != WriteFails ==>
        && |questions| == |old(questions)| + 1
        && questions[..|old(questions)|] == old(questions)
        && var added := questions[|old(questions)|];
        && added.id >= 1
        && added.id !in Ids(old(questions))
        && added == Question(added.id, body.fields.question.value, body.fields.answer.value,
                             body.fields.category.value, body.fields.difficulty.value)
        && r == if fault == NoFault then Ok(Creation(added.id, Paginate(pageArg, questions), |questions|))
                else Abort(422)
    {
      if body.Malformed? {
        return Abort(400);
      }
      if body.NotAnObject? {
        return Abort(500);
      }
      var b := body.fields;
      if !Complete(b) {
        return Abort(422);
      }
      if fault == WriteFails {
        return Abort(422);
      }
      FreshIdExists(questions);
      var id :| id >= 1 && id !in Ids(questions);
      var trivia := Question(id, b.question.value, b.answer.value, b.category.value, b.difficulty.value);
      AppendFreshKeepsUnique(questions, trivia);
      questions := questions + [trivia];
      assert questions[..|questions| - 1] == old(questions);
      if fault == AfterWriteFails {
        return Abort(422);
      }
      r := Ok(Creation(id, Paginate(pageArg, questions), |questions|));
    }

    /** `POST /questions/search`: 400 when the body cannot be parsed and 500
        when it is not a JSON object; otherwise always a success, never 404,
        holding the page of questions whose text contains the term (ignoring
        case) and the number of all such questions. */
    function SearchQuestions(body: Json<SearchBody>, pageArg: Option<int>): (r: Response)
      reads this
      ensures body.Malformed? ==> r == Abort(400)
      ensures body.NotAnObject? ==> r == Abort(500)
      ensures body.Object? ==> r.Ok? && r.payload.QuestionMatches?
      ensures body.Object? ==>
        var matches := SearchMatches(questions, SearchTerm(body.fields));
        && r.payload.totalQuestions == |matches| <= |questions|
        && r.payload.questions == Paginate(pageArg, matches)
        && (forall q :: q in r.payload.questions ==>
              q in questions && Text.ContainsIgnoringCase(q.question, SearchTerm(body.fields)))
    {
      match body
      case Malformed => Abort(400)
      case NotAnObject => Abort(500)
      case Object(b) =>
        var matches := SearchMatches(questions, SearchTerm(b));
        Ok(QuestionMatches(Paginate(pageArg, matches), |matches|))
    }

    /** `GET /categories/<id>/questions`: 404 exactly when no question has
        that category (the page itself may be empty on success); otherwise
        the requested page of that category's questions and their number. */
    function GetCategoryQuestions(categoryId: nat, pageArg: Option<int>): (r: Response)
      reads this
      ensures r.Abort? <==> forall q :: q in questions ==> q.category != categoryId
      ensures r.Abort? ==> r.code == 404
      ensures r.Ok? ==> r.payload.QuestionMatches?
      ensures r.Ok? ==>
        && r.payload.totalQuestions == |InCategory(questions, categoryId)| >= 1
        && r.payload.questions == Paginate(pageArg, InCategory(questions, categoryId))
        && (forall q :: q in r.payload.questions ==> q in questions && q.category == categoryId)
    {
      var matches := InCategory(questions, categoryId);
      if |matches| == 0 then Abort(404)
      else Ok(QuestionMatches(Paginate(pageArg, matches), |matches|))
    }

    /** `POST /quizzes`: every failure inside the handler is 422. That covers
        a body that cannot be parsed or is not an object, a `quiz_category`
        that is not a mapping holding an `id` (the default 0 cannot be
        indexed), and a null `previous_questions`. A null category id filters
        on `category IS NULL`, which no row satisfies. Otherwise a success
        whose question is null exactly when no question is eligible, and is
        otherwise some eligible question: unseen, and in the chosen category
        unless that category is 0. */
    method GetQuizQuestion(body: Json<QuizBody>) returns (r: Response)
      ensures !body.Object? ==> r == Abort(422)
      ensures body.Object? && (body.fields.quizCategory.NoQuizCategory? || body.fields.quizCategory.id.Absent?) ==>
        r == Abort(422)
      ensures body.Object? && body.fields.quizCategory.QuizCategory? && !body.fields.quizCategory.id.Absent?
              && body.fields.previousQuestions.Null? ==>
        r == Abort(422)
      ensures body.Object? && body.fields.quizCategory.QuizCategory? && body.fields.quizCategory.id.Null?
              && !body.fields.previousQuestions.Null? ==>
        r == Ok(QuizTurn(None))
      ensures body.Object? && body.fields.quizCategory.QuizCategory? && body.fields.quizCategory.id.Given?
              && !body.fields.previousQuestions.Null? ==>
        var eligible := Eligible(questions, PreviousQuestions(body.fields), body.fields.quizCategory.id.value);
        && r.Ok? && r.payload.QuizTurn?
        && (r.payload.question.None? <==> eligible == [])
        && (r.payload.question.Some? ==> r.payload.question.value in eligible)
      ensures r.Ok? && r.payload.question.Some? ==>
        var q := r.payload.question.value;
        && q in questions
        && q.id !in PreviousQuestions(body.fields)
        && (body.fields.quizCategory.id.value == 0 || q.category == body.fields.quizCategory.id.value)
    {
      if !body.Object? || body.fields.quizCategory.NoQuizCategory? || body.fields.quizCategory.id.Absent? {
        return Abort(422);
      }
      if body.fields.previousQuestions.Null? {
        return Abort(422);
      }
      if body.fields.quizCategory.id.Null? {
        return Ok(QuizTurn(None));
      }
      var previous := PreviousQuestions(body.fields);
      var category := body.fields.quizCategory.id.value;
      var eligible := Eligible(questions, previous, category);
      if |eligible| == 0 {
        return Ok(QuizTurn(None));
      }
      HeadIsMember(eligible);
      var next :| next in eligible;
      r := Ok(QuizTurn(Some(next)));
    }
  }

  /** A search body without `searchTerm` (for instance one that sends the
      term under another key) searches for '' and so reports every question. */
  lemma MissingSearchTermReportsAll(store: Store, pageArg: Option<int>)
    ensures store.SearchQuestions(Object(SearchBody(Absent)), pageArg)
         == Ok(QuestionMatches(Paginate(pageArg, store.questions), |store.questions|))
  {
    EmptySearchMatchesAll(store.questions);
  }
}
