# Trivia API: a verified model of the request handlers

This project models the request handlers of a small trivia-question web
service (a Flask application over a relational database) in Dafny, and proves
what each handler answers and how it changes the store.

The service has two tables. `question` holds rows `{id, question, answer,
category, difficulty}` and `category` holds rows `{id, type}`. There are
seven endpoints:

- list the categories;
- list the questions ten to a page;
- delete a question;
- create a question;
- search the question texts;
- list the questions of one category;
- serve a random unseen quiz question.

Five error handlers turn an aborted request into a JSON failure envelope.

The model is laid out as follows:

- `records.dfy` (module `Records`) holds the two row types and the facts about
  question ids: lookup by id, fresh ids, and what removing or appending a row
  does to the ids.
- `text.dfy` (module `Text`) is the `ILIKE '%term%'` test, written as
  case-insensitive substring search.
- `pagination.dfy` (module `Pagination`) is `paginate_questions`. It models
  Python's slice semantics in full, so page numbers of 0 and below behave as
  the source makes them behave: page 0 is always empty, and page -1 wraps
  around from the end of the list.
- `queries.dfy` (module `Queries`) holds the three query filters (search,
  category, quiz eligibility) as one order-preserving `Filter`.
- `responses.dfy` (module `Responses`) holds the success payloads, the error
  handlers and how an outcome is rendered as a status and a body.
- `api.dfy` (module `Api`) holds the `Store` class. Its two sequence fields
  stand for the two tables. Delete and create are methods that modify the
  question sequence. The read-only endpoints are methods, or functions that
  read the store. The dictionary-building loop of the two listing endpoints
  is a method with a loop invariant.

The request is given to the handlers already parsed:

- A body is `Malformed` when `request.get_json()` cannot parse it and raises a
  400. It is `NotAnObject` when it parses to something other than an object,
  so `body.get` raises. In create and search both happen outside any guarded
  block: the first is answered with the 400 envelope, the second reaches
  Flask's 500 handler. In the quiz handler both happen inside the
  `except BaseException` block and become 422.
- A key of a body is `Absent`, `Null` or `Given`, because `body.get(key,
  default)` returns the default only for an absent key. A null search term is
  formatted into the pattern as `None`. A null quiz category id filters on
  `category IS NULL`. A null `previous_questions` makes the `NOT IN` filter
  raise. The four fields of a new question are `None` when absent or null,
  since the handler reads both as `None`.
- Where delete and create fail is the parameter `fault`. `WriteFails` means
  the write itself fails: the answer is 422 and nothing changes.
  `AfterWriteFails` means the failure comes after the commit, in the
  re-query, the pagination or the serialisation: the answer is 422 and the
  row is already removed or added.

Two behaviours of the code are worth stating outright:

- The create handler checks only that question and answer are present, not
  that they are non-empty.
- Page numbers of 0 and below are accepted, with Python's wrap-around.

## Model

| member | source | states |
|---|---|---|
| Records.IndexOfId | backend/flaskr/__init__.py:90-94 | the lookup finds a row carrying the id exactly when the id is in use, and reports its position |
| Records.FreshIdExists | backend/flaskr/__init__.py:129-134 | the store can always assign a positive id that no row uses |
| Records.RemoveAtRemovesOneId | backend/flaskr/__init__.py:97 | removing one row from a table with unique ids removes exactly that id and keeps the others unique |
| Records.AppendFreshKeepsUnique | backend/flaskr/__init__.py:134 | inserting a row with an unused id keeps ids unique and adds exactly that id |
| Text.Contains | backend/flaskr/__init__.py:158-159 | the substring test holds exactly when the term occurs at some position of the text |
| Text.EmptyTermFoundEverywhere | backend/flaskr/__init__.py:156-159 | the default empty term is found in every question text |
| Text.CaseOfTermIgnored | backend/flaskr/__init__.py:159 | a term and its lower-case spelling find the same texts |
| Pagination.SliceBound | backend/flaskr/__init__.py:19 | a slice bound is clipped into the list, and a non-negative bound denotes min(bound, length) |
| Pagination.Slice | backend/flaskr/__init__.py:19 | a Python slice with non-negative bounds is the clipped sub-sequence, and never holds anything not in the list |
| Pagination.Paginate | backend/flaskr/__init__.py:13-21 | a page has at most 10 items, all from the list; for page p >= 1 it is items[min((p-1)*10, n) .. min(p*10, n)]; a missing page argument gives page 1 |
| Pagination.EmptyPageIff | backend/flaskr/__init__.py:15-19 | for p >= 1, page p is empty exactly when the list has at most (p-1)*10 items |
| Pagination.PageZeroIsEmpty | backend/flaskr/__init__.py:14-19 | page 0 is empty for every list |
| Pagination.NegativePageWrapsAround | backend/flaskr/__init__.py:14-19 | page -1 of 30 items is items 10..19, by Python's negative-index wrap-around |
| Pagination.AdjacentPages | backend/flaskr/__init__.py:15-19 | pages p and p+1 together are exactly the contiguous slice from the start of p to the end of p+1 |
| Pagination.FirstPagesCover | backend/flaskr/__init__.py:15-19 | pages 1..k concatenated are the first min(10k, n) items, with no gap and no repetition |
| Queries.Filter | backend/flaskr/__init__.py:158-159 | a query filter keeps exactly the rows satisfying its predicate, each as often as it occurs in the table and no other row; it is no longer than the table and is empty exactly when no row qualifies |
| Queries.FilterKeepsOrder | backend/flaskr/__init__.py:158-159 | filtering a concatenation gives the rows kept from the first part followed by those kept from the second, so rows keep table order |
| Queries.FilterKeepsAll | backend/flaskr/__init__.py:158-159 | a filter that every row passes returns the whole table in order |
| Queries.SearchMatches | backend/flaskr/__init__.py:158-159 | the search keeps exactly the questions whose question text (not answer) contains the term, ignoring case |
| Queries.EmptySearchMatchesAll | backend/flaskr/__init__.py:156-159 | searching for the empty term returns the whole question table |
| Queries.InCategory | backend/flaskr/__init__.py:173-174 | the category filter keeps exactly the questions whose category equals the requested id |
| Queries.Eligible | backend/flaskr/__init__.py:198-204 | the quiz filter keeps exactly the questions whose id is not in the previous questions and whose category matches, every category matching when the id is 0 |
| Queries.AllSeenLeavesNothing | backend/flaskr/__init__.py:198-210 | when every question id is among the previous questions, nothing is eligible in any category |
| Queries.FreshQuizOverAllCategories | backend/flaskr/__init__.py:198-200 | with category 0 and no previous questions, every question is eligible |
| Responses.ErrorHandler | backend/flaskr/__init__.py:226-264 | codes 400, 404, 405, 422 and 500, and no others, have an envelope, which has success false, echoes the code and has a message |
| Responses.MessagesDistinguishCodes | backend/flaskr/__init__.py:226-264 | distinct handled codes carry distinct messages |
| Responses.Render | backend/flaskr/__init__.py:226-264 | a success is sent with status 200 and its payload; an abort is sent with its code as status, as a failure envelope when the code has a handler |
| Responses.HandlerFailuresAreEnveloped | backend/flaskr/__init__.py:226-264 | every code a handler aborts with (400, 404, 422, 500) reaches the client as a JSON failure envelope carrying that code |
| Api.CategoryMapOf | backend/flaskr/__init__.py:46-48 | the id-to-type dictionary has exactly the category ids as keys |
| Api.CategoryMapOfUnique | backend/flaskr/__init__.py:46-56 | with unique category ids the dictionary sends each id to its type and has one entry per row |
| Api.BuildCategoryMap | backend/flaskr/__init__.py:46-48 | the loop builds exactly the dictionary of all category rows, keyed by their ids |
| Api.Store.GetCategories | backend/flaskr/__init__.py:43-57 | 404 exactly when the category table is empty; otherwise each id maps to its type and total_categories is the number of rows |
| Api.Store.GetAllQuestions | backend/flaskr/__init__.py:64-83 | 404 exactly when the requested page is empty; otherwise the page, the full question count, all categories and a null current category |
| Api.Store.DeleteQuestion | backend/flaskr/__init__.py:88-109 | unknown id: 404, store unchanged; failed delete: 422, unchanged; otherwise exactly that row is removed with the others in order, and the answer is the id with the new count, or 422 when a later failure follows the committed delete |
| Api.Store.NewQuestion | backend/flaskr/__init__.py:115-147 | an unparsable body gives 400 and a body that is not an object 500; a missing or null field or a failed insert gives 422 with the store unchanged; otherwise exactly one row with the given fields and an unused positive id is appended, and the answer is that id with the new count, or 422 when a later failure follows the committed insert |
| Api.Store.SearchQuestions | backend/flaskr/__init__.py:153-166 | 400 for an unparsable body, 500 for one that is not an object; otherwise never 404: the page of matching questions and the number of all matches, each returned question containing the term; a missing term searches for '' and a null term for 'None' |
| Api.Store.GetCategoryQuestions | backend/flaskr/__init__.py:171-184 | 404 exactly when no question has the category, whatever the page; otherwise the page of that category's questions and their total |
| Api.Store.GetQuizQuestion | backend/flaskr/__init__.py:191-221 | 422 for a bad body, a quiz_category that is not a mapping holding an id, or a null previous_questions; a null category id gives success with a null question; otherwise success, with a null question exactly when nothing is eligible, and otherwise an eligible question |
| Api.MissingSearchTermReportsAll | backend/flaskr/__init__.py:155-166 | a search body without searchTerm answers with the first requested page of all questions and the full count |

## Left out

- Application setup is left out: Flask app construction, route decorators,
  `jsonify` and the CORS headers (backend/flaskr/__init__.py:24-38). These are
  framework I/O.
- The database layer is replaced by two in-memory sequences. `setup_db`,
  SQLAlchemy and the `models` module are not part of this model.
- Row order is assumed to be insertion order, and insert appends. The database
  guarantees no order without `ORDER BY`.
- Api.Store.NewQuestion: the id is any unused positive id, not the next value
  of the database's id sequence.
- Persistence failures are reduced to the input `fault`. It distinguishes a
  failure of the write itself from a failure after the commit inside the
  guarded blocks of delete and create. A failure of the unguarded lookup
  queries is left out.
- The quiz's `random.choice` is a nondeterministic choice among the eligible
  questions. Its uniformity is not modelled.
- Text.ContainsIgnoringCase: case folding is ASCII only. The `%` and `_`
  wildcards and the `\` escape character that `ILIKE` reads inside a search
  term are treated as literal characters.
- Question ids, category ids and question categories are all integers. The
  loose comparison of a text category column with a string or integer id is
  not modelled.
- The route converters `<int:...>` accept only non-negative integers, so
  route ids are `nat`.
- JSON values of the wrong type inside a body (other than absent or null) are
  not modelled. Neither is the 415 that `request.get_json` raises for a
  request that is not marked as JSON.
- The 405 envelope is modelled in `Responses.ErrorHandler`. None of the seven
  handlers produces it; routing raises it.
