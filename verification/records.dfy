/** The two record types of the question bank, the order the store keeps
    them in, and the list and dictionary building blocks the handlers use. */
module Records {
  import opened Outcome

  /** A row of the `Question` table, which is also what `format()` exposes:
      id, question text, answer text, category id and difficulty. */
  datatype Question = Question(id: int, question: string, answer: string, category: int, difficulty: int)

  /** A row of the `Category` table; `typeName` is the column called `type`. */
  datatype Category = Category(id: int, typeName: string)

  /** Questions listed in strictly ascending id order, as
      `Question.query.order_by(Question.id)` returns them from a table whose
      id is the primary key. */
  ghost predicate Ascending(qs: seq<Question>)
  {
    forall i, j :: 0 <= i < j < |qs| ==> qs[i].id < qs[j].id
  }

  /** No two categories share an id (the primary key). */
  ghost predicate DistinctIds(cats: seq<Category>)
  {
    forall i, j :: 0 <= i < j < |cats| ==> cats[i].id != cats[j].id
  }

  /** The ids of the stored categories. */
  ghost function CategoryIds(cats: seq<Category>): set<int>
  {
    set c | c in cats :: c.id
  }

  /** The questions of `s` that satisfy `keep`, in their original order: a
      list comprehension with an `if`, or a `filter(...).all()` query. */
  function Filter(s: seq<Question>, keep: Question -> bool): (r: seq<Question>)
    ensures forall x :: x in r <==> x in s && keep(x)
    ensures |r| <= |s|
  {
    if s == [] then []
    else (if keep(s[0]) then [s[0]] else []) + Filter(s[1..], keep)
  }

  /** Filtering keeps the id order of the questions it keeps. */
  lemma {:induction false} FilterAscending(qs: seq<Question>, keep: Question -> bool)
    requires Ascending(qs)
    ensures Ascending(Filter(qs, keep))
  {
    if qs != [] {
      FilterAscending(qs[1..], keep);
      var rest := Filter(qs[1..], keep);
      forall q | q in rest ensures qs[0].id < q.id {
        var k :| 0 <= k < |qs[1..]| && qs[1..][k] == q;
        assert qs[k + 1] == q;
      }
    }
  }

  /** Filtering with a condition every element meets returns the input. */
  lemma {:induction false} FilterKeepsAll(s: seq<Question>, keep: Question -> bool)
    requires forall x :: x in s ==> keep(x)
    ensures Filter(s, keep) == s
  {
    if s != [] {
      FilterKeepsAll(s[1..], keep);
      assert [s[0]] + s[1..] == s;
    }
  }

  /** Filtering with two conditions that agree on every question gives the
      same list. */
  lemma {:induction false} FilterCongruence(s: seq<Question>, keep: Question -> bool, keep': Question -> bool)
    requires forall q :: keep(q) == keep'(q)
    ensures Filter(s, keep) == Filter(s, keep')
  {
    if s != [] {
      FilterCongruence(s[1..], keep, keep');
    }
  }

  /** The dictionary `{category.id: category.type}` that the handlers build
      by assigning one entry per category in turn, so that a later category
      overwrites an earlier one with the same id. */
  function CategoryMap(cats: seq<Category>): (m: map<int, string>)
    ensures m.Keys == CategoryIds(cats)
  {
    if cats == [] then map[]
    else
      var last := cats[|cats| - 1];
      assert cats == cats[..|cats| - 1] + [last];
      CategoryMap(cats[..|cats| - 1])[last.id := last.typeName]
  }

  /** With primary-key ids, each stored category's id maps to its own type. */
  lemma {:induction false} CategoryMapValues(cats: seq<Category>)
    requires DistinctIds(cats)
    ensures forall c :: c in cats ==> CategoryMap(cats)[c.id] == c.typeName
  {
    if cats != [] {
      var init := cats[..|cats| - 1];
      var last := cats[|cats| - 1];
      CategoryMapValues(init);
      forall c | c in cats ensures CategoryMap(cats)[c.id] == c.typeName {
        if c != last {
          var k :| 0 <= k < |cats| && cats[k] == c;
          assert k < |cats| - 1;
          assert c in init;
          assert c.id != last.id;
        }
      }
    }
  }

  /** The dictionary-building loop of `get_categories` and `get_questions`. */
  method BuildCategoriesDict(cats: seq<Category>) returns (d: map<int, string>)
    ensures d == CategoryMap(cats)
  {
    d := map[];
    for i := 0 to |cats|
      invariant d == CategoryMap(cats[..i])
    {
      assert cats[..i + 1][..i] == cats[..i];
      d := d[cats[i].id := cats[i].typeName];
    }
    assert cats[..|cats|] == cats;
  }

  /** `Question.query.filter(Question.id == question_id).one_or_none()`: the
      position of the question with the given id, if there is one. */
  function IndexOfId(qs: seq<Question>, id: int): (r: Option<nat>)
    ensures r.Some? ==> r.value < |qs| && qs[r.value].id == id
    ensures r.None? <==> forall q :: q in qs ==> q.id != id
  {
    if qs == [] then None
    else if qs[0].id == id then Some(0)
    else match IndexOfId(qs[1..], id)
      case None => None
      case Some(k) => Some(k + 1)
  }

  /** The questions other than the one with the given id. */
  function Without(qs: seq<Question>, id: int): (r: seq<Question>)
  {
    Filter(qs, (q: Question) => q.id != id)
  }

  /** In id order, dropping the question at index `i` leaves exactly the
      questions whose id differs from its id. */
  lemma {:induction false} WithoutIsRemoveAt(qs: seq<Question>, i: nat)
    requires Ascending(qs) && i < |qs|
    ensures Without(qs, qs[i].id) == qs[..i] + qs[i + 1..]
  {
    var id := qs[i].id;
    if i == 0 {
      forall q | q in qs[1..] ensures q.id != id {
        var k :| 0 <= k < |qs[1..]| && qs[1..][k] == q;
        assert qs[k + 1] == q;
      }
      FilterKeepsAll(qs[1..], (q: Question) => q.id != id);
    } else {
      WithoutIsRemoveAt(qs[1..], i - 1);
      assert qs[1..][i - 1] == qs[i];
      assert qs[0].id != id;
      assert qs[1..][..i - 1] + qs[1..][i..] == qs[1..i] + qs[i + 1..];
      assert [qs[0]] + qs[1..i] == qs[..i];
    }
  }
}
