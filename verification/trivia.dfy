/** The request handlers of the trivia API over an in-memory question bank.
    The database becomes the fields of `TriviaStore`: the questions in id
    order, the categories, and the next value of the question id sequence.
    Each handler returns a `Response` instead of calling `abort`. */
module Trivia {
  import opened Outcome
  import opened Records
  import opened Pagination
  import opened Search

  /** The 200 body of `GET /questions`. */
  datatype QuestionsPage = QuestionsPage(questions: seq<Question>, totalQuestions: nat, categories: map<int, string>)

  /** The 200 body of `POST /questions`: a bare success flag after a
      creation, or the matches and their count after a search. */
  datatype PostResult = Created | Found(questions: seq<Question>, totalQuestions: nat)

  /** The JSON body of `POST /questions`; an absent or `null` field is `None`. */
  datatype QuestionBody = QuestionBody(
    question: Option<string>,
    answer: Option<string>,
    category: Option<int>,
    difficulty: Option<int>,
    searchTerm: Option<string>)

  /** `if searchTerm:`: a present, non-empty search term selects search mode. */
  function IsSearch(body: QuestionBody): (b: bool)
    ensures body.searchTerm.None? ==> !b
    ensures body.searchTerm == Some("") ==> !b
    ensures body.searchTerm.Some? && |body.searchTerm.value| > 0 ==> b
  {
    body.searchTerm.Some? && body.searchTerm.value != ""
  }

  /** All four fields that a new question needs are present. */
  function IsComplete(body: QuestionBody): (b: bool)
    ensures !b <==> body.question == None || body.answer == None || body.category == None || body.difficulty == None
  {
    body.question.Some? && body.answer.Some? && body.category.Some? && body.difficulty.Some?
  }

  /** The questions a quiz may ask next: those whose id has not been asked. */
  function Candidates(qs: seq<Question>, previous: seq<int>): (r: seq<Question>)
    ensures forall q :: q in r <==> q in qs && q.id !in previous
  {
    Filter(qs, (q: Question) => q.id !in previous)
  }

  /** The questions filed under category `categoryId`. */
  function InCategory(qs: seq<Question>, categoryId: int): (r: seq<Question>)
    ensures forall q :: q in r <==> q in qs && q.category == categoryId
  {
    Filter(qs, (q: Question) => q.category == categoryId)
  }

  class TriviaStore {
    /** The `Question` table, in ascending id order. */
    var questions: seq<Question>
    /** The `Category` table. */
    var categories: seq<Category>
    /** The id the next inserted question receives. */
    var nextId: int

    /** Ids are primary keys and come from an increasing sequence. */
    ghost predicate Valid()
      reads this
    {
      && Ascending(questions)
      && (forall q :: q in questions ==> q.id < nextId)
      && DistinctIds(categories)
    }

    /** A store seeded with the given categories and no questions; the id
        sequence starts at one. */
    constructor (seed: seq<Category>)
      requires DistinctIds(seed)
      ensures Valid()
      ensures questions == [] && categories == seed && nextId == 1
    {
      questions := [];
      categories := seed;
      nextId := 1;
    }

    /** `GET /categories`. */
    method GetCategories() returns (r: Response<map<int, string>>)
      requires Valid()
      ensures r.NotFound? <==> categories == []
      ensures !r.Unprocessable?
      ensures r.Ok? ==> r.payload.Keys == CategoryIds(categories)
      ensures r.Ok? ==> forall c :: c in categories ==> r.payload[c.id] == c.typeName
    {
      if |categories| == 0 {
        return NotFound;
      }
      var dict := BuildCategoriesDict(categories);
      CategoryMapValues(categories);
      r := Ok(dict);
    }

    /** `GET /questions?page=N`; an absent page is passed as 1. */
    method GetQuestions(page: int) returns (r: Response<QuestionsPage>)
      requires Valid()
      ensures r.NotFound? <==> Paginate(questions, page) == []
      ensures !r.Unprocessable?
      ensures page >= 1 ==> (r.NotFound? <==> |questions| <= (page - 1) * QuestionsPerPage)
      ensures r.Ok? ==> r.payload.questions == Paginate(questions, page)
      ensures r.Ok? ==> r.payload.totalQuestions == |questions|
      ensures r.Ok? ==> r.payload.categories.Keys == CategoryIds(categories)
      ensures r.Ok? ==> forall c :: c in categories ==> r.payload.categories[c.id] == c.typeName
    {
      var current := Paginate(questions, page);
      if page >= 1 {
        PaginateWindow(questions, page);
      }
      if |current| == 0 {
        return NotFound;
      }
      var dict := BuildCategoriesDict(categories);
      CategoryMapValues(categories);
      r := Ok(QuestionsPage(current, |questions|, dict));
    }

    /** `DELETE /questions/<id>`. */
    method DeleteQuestion(id: int) returns (r: Response<int>)
      requires Valid()
      modifies this
      ensures Valid()
      ensures categories == old(categories) && nextId == old(nextId)
      ensures !r.Unprocessable?
      ensures r.NotFound? <==> forall q :: q in old(questions) ==> q.id != id
      ensures r.NotFound? ==> questions == old(questions)
      ensures r.Ok? ==> r.payload == id
      ensures r.Ok? ==> questions == Without(old(questions), id)
      ensures r.Ok? ==> |questions| == |old(questions)| - 1
      ensures forall q :: q in questions <==> q in old(questions) && q.id != id
    {
      var found := IndexOfId(questions, id);
      if found.None? {
        return NotFound;
      }
      var i := found.value;
      WithoutIsRemoveAt(questions, i);
      FilterAscending(questions, (q: Question) => q.id != id);
      questions := questions[..i] + questions[i + 1..];
      r := Ok(id);
    }

    /** `POST /questions`: a search when the body has a non-empty search
        term, otherwise the creation of a question. As in the handler, the
        new question's answer is its question text. */
    method CreateQuestion(body: QuestionBody) returns (r: Response<PostResult>)
      requires Valid()
      modifies this
      ensures Valid()
      ensures categories == old(categories)
      ensures IsSearch(body) ==>
        && questions == old(questions) && nextId == old(nextId)
        && r.Ok? && r.payload.Found?
        && r.payload.questions == SearchResults(questions, body.searchTerm.value)
        && r.payload.totalQuestions == |r.payload.questions|
        && Ascending(r.payload.questions)
      ensures !IsSearch(body) && !IsComplete(body) ==>
        r.Unprocessable? && questions == old(questions) && nextId == old(nextId)
      ensures !IsSearch(body) && IsComplete(body) ==>
        && r == Ok(Created)
        && nextId == old(nextId) + 1
        && questions == old(questions) + [Question(old(nextId), body.question.value, body.question.value,
                                                   body.category.value, body.difficulty.value)]
    {
      if IsSearch(body) {
        var found := SearchResults(questions, body.searchTerm.value);
        FilterAscending(questions, (q: Question) => Matches(q, body.searchTerm.value));
        return Ok(Found(found, |found|));
      }
      var present := [body.question.Some?, body.answer.Some?, body.category.Some?, body.difficulty.Some?];
      var i := 0;
      while i < |present|
        invariant 0 <= i <= |present|
        invariant forall k :: 0 <= k < i ==> present[k]
      {
        if !present[i] {
          return Unprocessable;
        }
        i := i + 1;
      }
      assert present[0] && present[1] && present[2] && present[3];
      var q := Question(nextId, body.question.value, body.question.value, body.category.value, body.difficulty.value);
      questions := questions + [q];
      nextId := nextId + 1;
      r := Ok(Created);
    }

    /** `GET /categories/<id>/questions`. */
    method GetQuestionsByCategory(categoryId: int) returns (r: Response<seq<Question>>)
      requires Valid()
      ensures !r.Unprocessable?
      ensures r.NotFound? <==> forall q :: q in questions ==> q.category != categoryId
      ensures r.Ok? ==> forall q :: q in r.payload <==> q in questions && q.category == categoryId
      ensures r.Ok? ==> Ascending(r.payload)
      ensures ((forall q :: q in questions ==> q.category in CategoryIds(categories))
               && categoryId !in CategoryIds(categories)) ==> r.NotFound?
    {
      var matching := InCategory(questions, categoryId);
      if matching == [] {
        return NotFound;
      }
      assert matching[0] in matching;
      FilterAscending(questions, (q: Question) => q.category == categoryId);
      r := Ok(matching);
    }

    /** `POST /quizzes`: some question not asked yet. `quizCategory` is
        accepted and, as in the handler, plays no part; the random choice
        is any element of the candidates. */
    method GetNextQuestion(previous: seq<int>, quizCategory: Option<int>) returns (r: Response<Question>)
      requires Valid()
      ensures !r.Unprocessable?
      ensures r.NotFound? <==> forall q :: q in questions ==> q.id in previous
      ensures r.Ok? ==> r.payload in questions && r.payload.id !in previous
    {
      var possible := Candidates(questions, previous);
      if possible == [] {
        return NotFound;
      }
      assert possible[0] in possible;
      var chosen :| chosen in possible;
      r := Ok(chosen);
    }
  }

  /** A store holding categories 1 ("Science") and 2 ("Art") and one
      question in each, created through the handler. */
  method SeededStore() returns (store: TriviaStore)
    ensures fresh(store) && store.Valid() && store.nextId == 3
    ensures store.categories == [Category(1, "Science"), Category(2, "Art")]
    ensures store.questions == [Question(1, "Q1", "Q1", 1, 1), Question(2, "Q2", "Q2", 2, 3)]
  {
    store := new TriviaStore([Category(1, "Science"), Category(2, "Art")]);
    var c1 := store.CreateQuestion(QuestionBody(Some("Q1"), Some("A1"), Some(1), Some(1), None));
    var c2 := store.CreateQuestion(QuestionBody(Some("Q2"), Some("A2"), Some(2), Some(3), Some("")));
  }

  /** On that store, category 2 lists its question, category 99 is a 404, a
      question without a category is refused, and page 1000 is a 404. */
  method ListingExample()
  {
    var store := SeededStore();
    var art := store.GetQuestionsByCategory(2);
    assert art.Ok? && Question(2, "Q2", "Q2", 2, 3) in art.payload;
    var none := store.GetQuestionsByCategory(99);
    assert none.NotFound?;
    var missing := store.CreateQuestion(QuestionBody(Some("Q3"), Some("A3"), None, Some(2), None));
    assert missing.Unprocessable?;
    var far := store.GetQuestions(1000);
    assert far.NotFound?;
  }

  /** On that store, a deleted question cannot be deleted twice, and once
      question 1 is gone the quiz can only ask question 2. */
  method DeleteAndQuizExample()
  {
    var store := SeededStore();
    var d1 := store.DeleteQuestion(1);
    assert d1 == Ok(1);
    var d2 := store.DeleteQuestion(1);
    assert d2.NotFound?;
    var quiz := store.GetNextQuestion([], Some(1));
    assert quiz == Ok(Question(2, "Q2", "Q2", 2, 3));
    var done := store.GetNextQuestion([2], None);
    assert done.NotFound?;
  }
}
