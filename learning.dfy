/** The "My Learning" page (`src/pages/Learning.tsx`): the signed-in user's courses,
    narrowed by a search term and three select filters, with delete and status change. */
module Learning {
  import opened Js
  import opened Api

  /** The value a select filter holds when it does not filter. */
  const All: string := "all"

  /** One active filter of `filterCourses`. */
  datatype Criterion = SearchFor(term: string) | StatusIs(status: string) | CategoryIs(category: string) | DifficultyIs(difficulty: string)

  /** Does `c` pass criterion `k`? The search term matches the lower-cased name or description. */
  predicate Holds(k: Criterion, c: Course): (b: bool)
    ensures k == SearchFor("") ==> b
    ensures k.SearchFor? && Lower(c.name) == Lower(k.term) ==> b
  {
    assert Lower(c.name) <= Lower(c.name);
    match k
    case SearchFor(t) => Includes(Lower(c.name), Lower(t)) || Includes(Lower(c.description), Lower(t))
    case StatusIs(s) => c.status == s
    case CategoryIs(g) => c.category == g
    case DifficultyIs(d) => c.difficulty == d
  }

  /** The criteria that are switched on: a non-empty search term, and each filter other than "all". */
  function ActiveCriteria(search: string, status: string, category: string, difficulty: string): (ks: seq<Criterion>)
    ensures SearchFor(search) in ks <==> search != ""
    ensures StatusIs(status) in ks <==> status != All
    ensures CategoryIs(category) in ks <==> category != All
    ensures DifficultyIs(difficulty) in ks <==> difficulty != All
    ensures forall k | k in ks ::
      k == SearchFor(search) || k == StatusIs(status) || k == CategoryIs(category) || k == DifficultyIs(difficulty)
    ensures |ks| <= 4
  {
    (if search != "" then [SearchFor(search)] else [])
    + (if status != All then [StatusIs(status)] else [])
    + (if category != All then [CategoryIs(category)] else [])
    + (if difficulty != All then [DifficultyIs(difficulty)] else [])
  }

  /** Proof step of `FilterCourses`: the criteria it collects, starting from none. */
  lemma ActiveCriteriaFromEmpty(search: string, status: string, category: string, difficulty: string)
    ensures ActiveCriteria(search, status, category, difficulty) ==
      [] + (if search != "" then [SearchFor(search)] else [])
      + (if status != All then [StatusIs(status)] else [])
      + (if category != All then [CategoryIs(category)] else [])
      + (if difficulty != All then [DifficultyIs(difficulty)] else [])
  {
    var first: seq<Criterion> := if search != "" then [SearchFor(search)] else [];
    assert [] + first == first;
  }

  /** `a` is `b` with some elements left out, the rest in their original order. */
  predicate IsSubsequence<T(==)>(a: seq<T>, b: seq<T>)
    decreases |b|
  {
    if b == [] then a == []
    else (a != [] && a[0] == b[0] && IsSubsequence(a[1..], b[1..])) || IsSubsequence(a, b[1..])
  }

  /** One `.filter` step of `filterCourses`. */
  function Keep(cs: seq<Course>, k: Criterion): (r: seq<Course>)
    ensures |r| <= |cs|
  {
    if cs == [] then []
    else (if Holds(k, cs[0]) then [cs[0]] else []) + Keep(cs[1..], k)
  }

  /** The filters applied one after another. */
  function ApplyAll(cs: seq<Course>, ks: seq<Criterion>): seq<Course>
    decreases |ks|
  {
    if ks == [] then cs else ApplyAll(Keep(cs, ks[0]), ks[1..])
  }

  predicate AllHold(ks: seq<Criterion>, c: Course) {
    forall i :: 0 <= i < |ks| ==> Holds(ks[i], c)
  }

  /** Reference definition: the courses that pass every criterion, in their original order. */
  function KeepMatching(cs: seq<Course>, ks: seq<Criterion>): (r: seq<Course>)
    ensures |r| <= |cs|
  {
    if cs == [] then []
    else (if AllHold(ks, cs[0]) then [cs[0]] else []) + KeepMatching(cs[1..], ks)
  }

  /** The list the page shows for a given course list and filter state. */
  function Visible(cs: seq<Course>, search: string, status: string, category: string, difficulty: string): seq<Course> {
    KeepMatching(cs, ActiveCriteria(search, status, category, difficulty))
  }

  /** A course is shown exactly when it is in the list and passes every criterion. */
  lemma {:induction false} KeepMatchingMembers(cs: seq<Course>, ks: seq<Criterion>, c: Course)
    ensures c in KeepMatching(cs, ks) <==> c in cs && AllHold(ks, c)
  {
    if cs != [] {
      KeepMatchingMembers(cs[1..], ks, c);
      assert c in cs <==> c == cs[0] || c in cs[1..] by {
        assert cs == [cs[0]] + cs[1..];
      }
    }
  }

  /** The shown courses keep the order of the course list. */
  lemma {:induction false} KeepMatchingIsSubsequence(cs: seq<Course>, ks: seq<Criterion>)
    ensures IsSubsequence(KeepMatching(cs, ks), cs)
  {
    if cs != [] {
      KeepMatchingIsSubsequence(cs[1..], ks);
      var r := KeepMatching(cs, ks);
      if AllHold(ks, cs[0]) {
        assert r[0] == cs[0] && r[1..] == KeepMatching(cs[1..], ks);
      } else {
        assert r == KeepMatching(cs[1..], ks);
      }
    }
  }

  lemma {:induction false} KeepMatchingNothing(cs: seq<Course>)
    ensures KeepMatching(cs, []) == cs
  {
    if cs != [] { KeepMatchingNothing(cs[1..]); }
  }

  lemma AllHoldCons(k: Criterion, ks: seq<Criterion>, c: Course)
    ensures AllHold([k] + ks, c) <==> Holds(k, c) && AllHold(ks, c)
  {
    var all := [k] + ks;
    assert all[0] == k;
    if AllHold(all, c) {
      assert Holds(all[0], c);
      forall i | 0 <= i < |ks| ensures Holds(ks[i], c) { assert all[i + 1] == ks[i]; }
    }
    if Holds(k, c) && AllHold(ks, c) {
      forall i | 0 <= i < |all| ensures Holds(all[i], c) {
        if i > 0 { assert all[i] == ks[i - 1]; }
      }
    }
  }

  lemma AllHoldSnoc(ks: seq<Criterion>, k: Criterion, c: Course)
    ensures AllHold(ks + [k], c) <==> AllHold(ks, c) && Holds(k, c)
  {
    var all := ks + [k];
    assert all[|ks|] == k;
    if AllHold(all, c) {
      assert Holds(all[|ks|], c);
      forall i | 0 <= i < |ks| ensures Holds(ks[i], c) { assert all[i] == ks[i]; }
    }
    if AllHold(ks, c) && Holds(k, c) {
      forall i | 0 <= i < |all| ensures Holds(all[i], c) {
        if i < |ks| { assert all[i] == ks[i]; }
      }
    }
  }

  lemma {:induction false} KeepThenKeepMatching(cs: seq<Course>, k: Criterion, ks: seq<Criterion>)
    ensures KeepMatching(Keep(cs, k), ks) == KeepMatching(cs, [k] + ks)
  {
    if cs != [] {
      KeepThenKeepMatching(cs[1..], k, ks);
      AllHoldCons(k, ks, cs[0]);
      if Holds(k, cs[0]) {
        assert Keep(cs, k) == [cs[0]] + Keep(cs[1..], k);
        assert Keep(cs, k)[1..] == Keep(cs[1..], k);
      } else {
        assert Keep(cs, k) == Keep(cs[1..], k);
      }
    }
  }

  /** One more `.filter` on the shown list is the same as one more criterion. */
  lemma {:induction false} KeepAfterKeepMatching(cs: seq<Course>, ks: seq<Criterion>, k: Criterion)
    ensures Keep(KeepMatching(cs, ks), k) == KeepMatching(cs, ks + [k])
  {
    if cs != [] {
      KeepAfterKeepMatching(cs[1..], ks, k);
      AllHoldSnoc(ks, k, cs[0]);
      if AllHold(ks, cs[0]) {
        assert KeepMatching(cs, ks) == [cs[0]] + KeepMatching(cs[1..], ks);
        assert KeepMatching(cs, ks)[1..] == KeepMatching(cs[1..], ks);
      } else {
        assert KeepMatching(cs, ks) == KeepMatching(cs[1..], ks);
      }
    }
  }

  /** Filtering step by step is the same as keeping the courses that pass every criterion. */
  lemma {:induction false} ApplyAllIsKeepMatching(cs: seq<Course>, ks: seq<Criterion>)
    ensures ApplyAll(cs, ks) == KeepMatching(cs, ks)
    decreases |ks|
  {
    if ks == [] {
      KeepMatchingNothing(cs);
    } else {
      ApplyAllIsKeepMatching(Keep(cs, ks[0]), ks[1..]);
      KeepThenKeepMatching(cs, ks[0], ks[1..]);
      assert [ks[0]] + ks[1..] == ks;
    }
  }

  lemma {:induction false} KeepMatchingSameCriteria(cs: seq<Course>, ks: seq<Criterion>, ks': seq<Criterion>)
    requires forall k :: k in ks <==> k in ks'
    ensures KeepMatching(cs, ks) == KeepMatching(cs, ks')
  {
    if cs != [] {
      KeepMatchingSameCriteria(cs[1..], ks, ks');
      assert AllHold(ks, cs[0]) <==> AllHold(ks', cs[0]) by {
        if AllHold(ks, cs[0]) {
          forall i | 0 <= i < |ks'| ensures Holds(ks'[i], cs[0]) {
            assert ks'[i] in ks;
            var j :| 0 <= j < |ks| && ks[j] == ks'[i];
          }
        }
        if AllHold(ks', cs[0]) {
          forall i | 0 <= i < |ks| ensures Holds(ks[i], cs[0]) {
            assert ks[i] in ks';
            var j :| 0 <= j < |ks'| && ks'[j] == ks[i];
          }
        }
      }
    }
  }

  /** The order in which the filters are applied does not change the result. */
  lemma FilterOrderIrrelevant(cs: seq<Course>, ks: seq<Criterion>, ks': seq<Criterion>)
    requires forall k :: k in ks <==> k in ks'
    ensures ApplyAll(cs, ks) == ApplyAll(cs, ks')
  {
    ApplyAllIsKeepMatching(cs, ks);
    ApplyAllIsKeepMatching(cs, ks');
    KeepMatchingSameCriteria(cs, ks, ks');
  }

  /** With an empty search and every filter on "all", every course is shown, in order. */
  lemma NoFilterShowsEverything(cs: seq<Course>)
    ensures Visible(cs, "", All, All, All) == cs
  {
    KeepMatchingNothing(cs);
  }

  /** A course is shown exactly when it is in the list, its name or description contains
      the search term ignoring case (or the term is empty), and it has the selected
      status, category and difficulty (or that filter is on "all"). */
  lemma VisibleMembers(cs: seq<Course>, search: string, status: string, category: string, difficulty: string, c: Course)
    ensures c in Visible(cs, search, status, category, difficulty) <==>
      && c in cs
      && (search == "" || Includes(Lower(c.name), Lower(search)) || Includes(Lower(c.description), Lower(search)))
      && (status == All || c.status == status)
      && (category == All || c.category == category)
      && (difficulty == All || c.difficulty == difficulty)
  {
    var ks := ActiveCriteria(search, status, category, difficulty);
    KeepMatchingMembers(cs, ks, c);
    ActiveCriteriaHold(search, status, category, difficulty, c);
  }

  lemma ActiveCriteriaHold(search: string, status: string, category: string, difficulty: string, c: Course)
    ensures AllHold(ActiveCriteria(search, status, category, difficulty), c) <==>
      && (search == "" || Holds(SearchFor(search), c))
      && (status == All || Holds(StatusIs(status), c))
      && (category == All || Holds(CategoryIs(category), c))
      && (difficulty == All || Holds(DifficultyIs(difficulty), c))
  {
    var ks := ActiveCriteria(search, status, category, difficulty);
    assert AllHold(ks, c) <==> forall k | k in ks :: Holds(k, c) by {
      if AllHold(ks, c) {
        forall k | k in ks ensures Holds(k, c) {
          var i :| 0 <= i < |ks| && ks[i] == k;
        }
      }
    }
  }

  /** Filtering the shown list again changes nothing. */
  lemma {:induction false} KeepMatchingIdempotent(cs: seq<Course>, ks: seq<Criterion>)
    ensures KeepMatching(KeepMatching(cs, ks), ks) == KeepMatching(cs, ks)
  {
    if cs != [] {
      KeepMatchingIdempotent(cs[1..], ks);
      if AllHold(ks, cs[0]) {
        assert KeepMatching(cs, ks) == [cs[0]] + KeepMatching(cs[1..], ks);
        assert KeepMatching(cs, ks)[1..] == KeepMatching(cs[1..], ks);
      } else {
        assert KeepMatching(cs, ks) == KeepMatching(cs[1..], ks);
      }
    }
  }

  // ---------------------------------------------------------------------------
  // Delete and status change

  /** `courses.filter(course => course._id !== courseId)`. */
  function RemoveId(cs: seq<Course>, id: string): (r: seq<Course>)
    ensures |r| <= |cs|
  {
    if cs == [] then []
    else (if cs[0].id != id then [cs[0]] else []) + RemoveId(cs[1..], id)
  }

  /** After a delete, the list holds exactly the other courses. */
  lemma {:induction false} RemoveIdMembers(cs: seq<Course>, id: string, c: Course)
    ensures c in RemoveId(cs, id) <==> c in cs && c.id != id
  {
    if cs != [] {
      RemoveIdMembers(cs[1..], id, c);
      assert c in cs <==> c == cs[0] || c in cs[1..] by {
        assert cs == [cs[0]] + cs[1..];
      }
    }
  }

  /** Deleting a course and then filtering shows the filtered list without that course. */
  lemma {:induction false} RemoveIdCommutesWithFilter(cs: seq<Course>, ks: seq<Criterion>, id: string)
    ensures KeepMatching(RemoveId(cs, id), ks) == RemoveId(KeepMatching(cs, ks), id)
  {
    if cs != [] {
      RemoveIdCommutesWithFilter(cs[1..], ks, id);
      if cs[0].id != id {
        assert RemoveId(cs, id) == [cs[0]] + RemoveId(cs[1..], id);
        assert RemoveId(cs, id)[1..] == RemoveId(cs[1..], id);
      } else {
        assert RemoveId(cs, id) == RemoveId(cs[1..], id);
      }
      if AllHold(ks, cs[0]) {
        assert KeepMatching(cs, ks) == [cs[0]] + KeepMatching(cs[1..], ks);
        assert KeepMatching(cs, ks)[1..] == KeepMatching(cs[1..], ks);
      } else {
        assert KeepMatching(cs, ks) == KeepMatching(cs[1..], ks);
      }
    }
  }

  /** `courses.map(course => course._id === courseId ? { ...course, status } : course)`. */
  function WithStatus(cs: seq<Course>, id: string, status: string): (r: seq<Course>)
    ensures |r| == |cs|
    ensures forall i :: 0 <= i < |cs| ==> r[i] == if cs[i].id == id then cs[i].(status := status) else cs[i]
  {
    if cs == [] then [] else [if cs[0].id == id then cs[0].(status := status) else cs[0]] + WithStatus(cs[1..], id, status)
  }

  /** A status change keeps every id, makes the matching courses pass a filter on the new
      status, and changes nothing any other criterion looks at. */
  lemma WithStatusEffect(cs: seq<Course>, id: string, status: string, i: int, k: Criterion)
    requires 0 <= i < |cs|
    ensures WithStatus(cs, id, status)[i].id == cs[i].id
    ensures cs[i].id == id ==> Holds(StatusIs(status), WithStatus(cs, id, status)[i])
    ensures !k.StatusIs? ==> (Holds(k, WithStatus(cs, id, status)[i]) <==> Holds(k, cs[i]))
  {
  }

  // ---------------------------------------------------------------------------
  // The page's state

  /** One `if (...) filtered = filtered.filter(...)` step of `filterCourses`. */
  method NarrowBy(cs: seq<Course>, filtered: seq<Course>, ghost applied: seq<Criterion>, active: bool, k: Criterion)
    returns (r: seq<Course>)
    requires filtered == KeepMatching(cs, applied)
    ensures r == KeepMatching(cs, applied + if active then [k] else [])
  {
    r := filtered;
    if active {
      KeepAfterKeepMatching(cs, applied, k);
      r := Keep(r, k);
    } else {
      assert applied + [] == applied;
    }
  }

  class LearningPage {
    const token: Option<string>
    var courses: seq<Course>
    var filteredCourses: seq<Course>
    var isLoading: bool
    var searchTerm: string
    var statusFilter: string
    var categoryFilter: string
    var difficultyFilter: string

    /** The filter effect (lines 47-49) has run for the current state. */
    predicate Valid()
      reads this
    {
      filteredCourses == Visible(courses, searchTerm, statusFilter, categoryFilter, difficultyFilter)
    }

    /** The page as first rendered: no courses, loading, no search, every filter on "all". */
    constructor (token: Option<string>)
      ensures this.token == token
      ensures courses == [] && filteredCourses == [] && isLoading
      ensures searchTerm == "" && statusFilter == All && categoryFilter == All && difficultyFilter == All
      ensures Valid()
    {
      this.token := token;
      courses, filteredCourses, isLoading := [], [], true;
      searchTerm, statusFilter, categoryFilter, difficultyFilter := "", All, All, All;
    }

    /** `filterCourses` (lines 71-94): the filters in sequence. */
    method FilterCourses()
      modifies this`filteredCourses
      ensures Valid()
    {
      var filtered := courses;
      KeepMatchingNothing(courses);
      ghost var applied: seq<Criterion> := [];
      filtered := NarrowBy(courses, filtered, applied, searchTerm != "", SearchFor(searchTerm));
      applied := applied + if searchTerm != "" then [SearchFor(searchTerm)] else [];
      filtered := NarrowBy(courses, filtered, applied, statusFilter != All, StatusIs(statusFilter));
      applied := applied + if statusFilter != All then [StatusIs(statusFilter)] else [];
      filtered := NarrowBy(courses, filtered, applied, categoryFilter != All, CategoryIs(categoryFilter));
      applied := applied + if categoryFilter != All then [CategoryIs(categoryFilter)] else [];
      filtered := NarrowBy(courses, filtered, applied, difficultyFilter != All, DifficultyIs(difficultyFilter));
      applied := applied + if difficultyFilter != All then [DifficultyIs(difficultyFilter)] else [];
      ActiveCriteriaFromEmpty(searchTerm, statusFilter, categoryFilter, difficultyFilter);
      filteredCourses := filtered;
    }

    /** `fetchCourses` (lines 51-69), with the reply of `getCourses` as input. Without a
        token nothing happens, not even the end of loading. A resolved list replaces the
        courses only when `success` is set; a throw leaves them and reports the message. */
    method FetchCourses(reply: Call<CourseList>) returns (error: Option<string>)
      modifies this`isLoading, this`courses, this`filteredCourses
      ensures !HasToken(token) ==> unchanged(this) && error == None
      ensures HasToken(token) ==> !isLoading && Valid()
      ensures HasToken(token) && reply.Resolved? && reply.body.success ==> courses == reply.body.data
      ensures HasToken(token) && !(reply.Resolved? && reply.body.success) ==> courses == old(courses)
      ensures HasToken(token) && reply.Thrown? ==> error == Some(OrElse(reply.message, "Failed to fetch courses"))
      ensures reply.Resolved? ==> error == None
      ensures searchTerm == old(searchTerm) && statusFilter == old(statusFilter)
      ensures categoryFilter == old(categoryFilter) && difficultyFilter == old(difficultyFilter)
    {
      if !HasToken(token) {
        return None;
      }
      isLoading := true;
      error := None;
      if reply.Resolved? && reply.body.success {
        courses := reply.body.data;
      }
      if reply.Thrown? {
        error := Some(OrElse(reply.message, "Failed to fetch courses"));
      }
      isLoading := false;
      FilterCourses();
    }

    /** `handleDeleteCourse` (lines 96-113). Any resolved reply removes the course locally,
        even one whose `success` is false; only a throw keeps it. */
    method DeleteCourse(courseId: string, reply: Call<Ack>) returns (error: Option<string>)
      modifies this`courses, this`filteredCourses
      ensures !(HasToken(token) && reply.Resolved?) ==> unchanged(this)
      ensures !HasToken(token) ==> error == None
      ensures HasToken(token) && reply.Resolved? ==> courses == RemoveId(old(courses), courseId) && error == None
      ensures HasToken(token) && reply.Resolved? ==>
        filteredCourses == RemoveId(Visible(old(courses), searchTerm, statusFilter, categoryFilter, difficultyFilter), courseId)
        && Valid()
      ensures HasToken(token) && reply.Thrown? ==> error == Some(OrElse(reply.message, "Failed to delete course"))
    {
      if !HasToken(token) {
        return None;
      }
      match reply
      case Resolved(_) =>
        courses := RemoveId(courses, courseId);
        RemoveIdCommutesWithFilter(old(courses), ActiveCriteria(searchTerm, statusFilter, categoryFilter, difficultyFilter), courseId);
        FilterCourses();
        error := None;
      case Thrown(message) =>
        error := Some(OrElse(message, "Failed to delete course"));
    }

    /** `handleStatusChange` (lines 115-134). Any resolved reply applies the new status locally;
        only a throw keeps the old one. */
    method ChangeStatus(courseId: string, newStatus: string, reply: Call<Envelope<Course>>) returns (error: Option<string>)
      modifies this`courses, this`filteredCourses
      ensures !(HasToken(token) && reply.Resolved?) ==> unchanged(this)
      ensures !HasToken(token) ==> error == None
      ensures HasToken(token) && reply.Resolved? ==>
        courses == WithStatus(old(courses), courseId, newStatus) && error == None && Valid()
      ensures HasToken(token) && reply.Thrown? ==>
        error == Some(OrElse(reply.message, "Failed to update course status"))
    {
      if !HasToken(token) {
        return None;
      }
      match reply
      case Resolved(_) =>
        courses := WithStatus(courses, courseId, newStatus);
        FilterCourses();
        error := None;
      case Thrown(message) =>
        error := Some(OrElse(message, "Failed to update course status"));
    }

    /** Typing in the search box (line 197), followed by the filter effect. */
    method SetSearchTerm(value: string)
      modifies this`searchTerm, this`filteredCourses
      ensures searchTerm == value && Valid()
    {
      searchTerm := value;
      FilterCourses();
    }

    /** Choosing a status (line 202), followed by the filter effect. */
    method SetStatusFilter(value: string)
      modifies this`statusFilter, this`filteredCourses
      ensures statusFilter == value && Valid()
    {
      statusFilter := value;
      FilterCourses();
    }

    /** Choosing a category (line 215), followed by the filter effect. */
    method SetCategoryFilter(value: string)
      modifies this`categoryFilter, this`filteredCourses
      ensures categoryFilter == value && Valid()
    {
      categoryFilter := value;
      FilterCourses();
    }

    /** Choosing a difficulty (line 228), followed by the filter effect. */
    method SetDifficultyFilter(value: string)
      modifies this`difficultyFilter, this`filteredCourses
      ensures difficultyFilter == value && Valid()
    {
      difficultyFilter := value;
      FilterCourses();
    }
  }
}
