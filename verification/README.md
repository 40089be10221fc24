# Trivia API handlers in Dafny

This project models the request handlers of a trivia game backend. The backend is a Flask
application over a database with two tables: `Category(id, type)` and
`Question(id, question, answer, category, difficulty)`. The model covers six endpoints:

- `GET /categories`
- `GET /questions?page=N`
- `DELETE /questions/<id>`
- `POST /questions`, which creates a question or searches
- `GET /categories/<id>/questions`
- `POST /quizzes`

It also covers the pagination helper `paginate_questions` and the two error bodies.

The database becomes the class `Trivia.TriviaStore`. It holds three fields:

- the questions, in ascending id order;
- the categories;
- the next value of the question id sequence.

`Valid()` says that question ids are strictly ascending and below that next value, and that category ids are distinct.
Reads are methods that change nothing. Deletion and creation are methods that reassign the question list.
Every handler returns `NotFound`, `Unprocessable` or `Ok(payload)` instead of calling `abort(404)` / `abort(422)`.

Modules:

- `Outcome` (`outcome.dfy`): `Option`, the handler outcome, status codes and the error bodies.
- `Records` (`records.dfy`): the two records and the id order. It also holds the filter that stands for the list comprehensions and `filter(...).all()` queries, the `{id: type}` dictionary (as a function and as the loop that builds it), and the lookup by id.
- `Pagination` (`pagination.dfy`): Python's slice semantics and `paginate_questions`.
- `Search` (`search.dfy`): the `ilike '%term%'` match.
- `Trivia` (`trivia.dfy`): the store class and its handlers, plus two client methods (`ListingExample`, `DeleteAndQuizExample`) that replay a two-category example through the handler contracts.

Behaviour modelled as the code has it:

- **Answer field.** Creation stores the *question* text in the new question's `answer` field. The handler passes `answer=new_question`, so the model keeps this defect.
- **Page numbers.** The page number goes through Python slicing unchanged. Page 0 is always empty, so it gives a 404. A negative page counts from the end of the list, so it can return questions (`NegativePageCountsFromEnd`).
- **Search mode.** A search happens only when `searchTerm` is present and non-empty. An empty `searchTerm` falls through to creation. A search that matches nothing succeeds with an empty list.
- **Presence checks.** They test only for absence or `null`. An empty string counts as present.
- **Quiz category.** `quiz_category` is accepted and ignored. The random choice is "some question not yet asked".
- **Deletion echo.** Deletion returns the deleted id.

## Model

| member | source | states |
|---|---|---|
| Outcome.StatusCode | backend/flaskr/__init__.py:180-194 | 200, 404 and 422 correspond one-to-one to success, not found and unprocessable |
| Outcome.ErrorBodyOf | backend/flaskr/__init__.py:180-194 | an error body has success false, the status code as `error`, and message "resource not found" or "unprocessable" |
| Records.Filter | backend/flaskr/__init__.py:163 | a question is in the result exactly when it is in the input and meets the condition; the result is no longer than the input |
| Records.FilterAscending | backend/flaskr/__init__.py:160-163 | filtering a list in ascending id order keeps it in ascending id order |
| Records.FilterKeepsAll | backend/flaskr/__init__.py:162-163 | when no question is excluded, the filtered list is the whole list |
| Records.FilterCongruence | backend/flaskr/__init__.py:112-113 | two conditions that agree on every question select the same list |
| Records.CategoryMap | backend/flaskr/__init__.py:46-48 | the dictionary's key set is exactly the set of stored category ids |
| Records.CategoryMapValues | backend/flaskr/__init__.py:46-48 | with primary-key ids, every stored category's id maps to that category's type |
| Records.BuildCategoriesDict | backend/flaskr/__init__.py:68-70 | the dictionary-building loop yields the category dictionary (keys and values as above) |
| Records.IndexOfId | backend/flaskr/__init__.py:84-85 | the lookup returns a position holding the requested id, and returns none exactly when no question has that id |
| Records.WithoutIsRemoveAt | backend/flaskr/__init__.py:91 | in id order, the questions whose id differs from the deleted one are the list with that one position removed |
| Pagination.SliceBound | backend/flaskr/__init__.py:18 | CPython's step-1 index adjustment of a slice bound: a bound in [0, n] is kept, a negative bound has the length added and is then clamped to [0, n], a bound above n becomes n |
| Pagination.PySlice | backend/flaskr/__init__.py:18 | `s[start:end]` has length max(0, hi - lo) for the adjusted bounds lo and hi, and its k-th element is element lo + k of the list |
| Pagination.Paginate | backend/flaskr/__init__.py:12-20 | a page never holds more than 10 questions, for any page number |
| Pagination.PaginateWindow | backend/flaskr/__init__.py:14-18 | for page >= 1 the page is the questions at indices [(page-1)*10, page*10); its length is max(0, min(10, n-(page-1)*10)); it is empty exactly when n <= (page-1)*10 |
| Pagination.EveryQuestionOnItsPage | backend/flaskr/__init__.py:14-18 | question i of the selection is item i % 10 of page i / 10 + 1, so the pages cover the selection |
| Pagination.PageZeroIsEmpty | backend/flaskr/__init__.py:14-18 | page 0 (slice [-10:0]) is always empty |
| Pagination.NegativePageCountsFromEnd | backend/flaskr/__init__.py:14-18 | a negative page is the slice with both bounds counted from the end of the selection, clamped at zero |
| Search.LowerChar | backend/flaskr/__init__.py:112 | the folded character is never an ASCII capital; a capital moves up by 32 to its lower-case letter and every other character is kept |
| Search.Lower | backend/flaskr/__init__.py:112 | folding keeps the length, leaves no ASCII capital, changes only capitals and maps each to its lower-case letter |
| Search.Matches | backend/flaskr/__init__.py:112 | a question matches exactly when the folded term occurs contiguously in its folded question text |
| Search.IsSubstring | backend/flaskr/__init__.py:112 | true exactly when the pattern occurs contiguously somewhere in the text |
| Search.SearchResults | backend/flaskr/__init__.py:112-113 | a question is returned exactly when its lower-cased text contains the lower-cased term |
| Search.LowerIdempotent | backend/flaskr/__init__.py:112 | lower-casing twice equals lower-casing once |
| Search.SearchIgnoresTermCase | backend/flaskr/__init__.py:112 | searching for a term and for its lower-case form returns the same questions |
| Search.PieceOfTextMatches | backend/flaskr/__init__.py:112 | any piece of a question's own text, in any letter case, finds that question |
| Trivia.IsSearch | backend/flaskr/__init__.py:108-111 | `if searchTerm:` is false for an absent or null term and for the empty string, and true for any non-empty term |
| Trivia.IsComplete | backend/flaskr/__init__.py:122-124 | a creation body is incomplete exactly when one of question, answer, category or difficulty is None |
| Trivia.Candidates | backend/flaskr/__init__.py:162-163 | a question is a quiz candidate exactly when it is stored and its id is not among the previous ids |
| Trivia.InCategory | backend/flaskr/__init__.py:138 | a question is listed exactly when it is stored and filed under the requested category |
| Trivia.TriviaStore.GetCategories | backend/flaskr/__init__.py:38-56 | 404 exactly when there are no categories; otherwise a map whose keys are exactly the category ids, each mapped to its type; never 422 |
| Trivia.TriviaStore.GetQuestions | backend/flaskr/__init__.py:58-80 | 404 exactly when the page is empty (for page >= 1: when n <= (page-1)*10); on success the page's questions, totalQuestions equal to the full count for every page, and the category dictionary |
| Trivia.TriviaStore.DeleteQuestion | backend/flaskr/__init__.py:82-99 | 404 exactly when no question has the id, store unchanged; otherwise echoes the id, removes exactly that question (one fewer), keeps every other question, the categories and the id sequence, and keeps the store valid |
| Trivia.TriviaStore.CreateQuestion | backend/flaskr/__init__.py:101-134 | non-empty searchTerm: store unchanged, success with exactly the matching questions in id order and their count; otherwise 422 with store unchanged when a field is missing, else exactly one question appended with the next id and the question text as its answer, nothing else changed |
| Trivia.TriviaStore.GetQuestionsByCategory | backend/flaskr/__init__.py:136-152 | 404 exactly when no question has the category; otherwise exactly the questions of that category, in id order; when every question's category is stored, an unknown category id is a 404 |
| Trivia.TriviaStore.GetNextQuestion | backend/flaskr/__init__.py:154-178 | 404 exactly when every stored question's id is among the previous ids; otherwise a stored question whose id is not among them; the store is not touched and the quiz category plays no part |

## Left out

- Flask wiring is left out because it is HTTP plumbing: `create_app`, route decorators, CORS setup, the `after_request` header injection (backend/flaskr/__init__.py:23-36) and `jsonify`.
- Request parsing is left out. Handlers take typed inputs. An absent `page` is the caller's 1, and the model does not cover `type=int` falling back to 1 on a non-integer. JSON values of the wrong type (a non-string question, a non-list `previous_questions`) are not modelled. A missing JSON body or missing `previous_questions` (a 500 in the source) is excluded by the parameter types.
- Database failures are not modelled. The catch-all `except: abort(422)` around store operations therefore never fires. `Unprocessable` comes only from the creation presence checks.
- `models.py` (the ORM classes, `format()`, `insert()`, `delete()`, `setup_db`) is not part of this model. A question's formatted form is the record itself. Insertion appends with the next id of an increasing sequence, starting at 1.
- The database returns rows without `ORDER BY` in an unspecified order. For those queries (search, by category) the model returns the questions in id order, and both contracts state that order, which the source does not promise.
- Search.SearchResults: matches plain substrings with ASCII-only lower-casing. In the source, `%` and `_` in the term act as SQL wildcards, `\` is ILIKE's default escape character (so a term containing a backslash matches differently from a plain substring), and case folding follows the database collation.
- Path ids are not restricted to non-negative values. The routes' `<int:...>` converters never pass a negative id, so `DELETE /questions/-1` and `GET /categories/-1/questions` are router 404s that never reach the handlers; the handler methods, like the Python handler functions, accept any integer.
- Trivia.TriviaStore.GetNextQuestion: states only that some candidate is returned. `random.choice` picks uniformly, and the model makes no claim about the distribution.
