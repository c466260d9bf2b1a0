/** The course-viewing page (`src/pages/CourseView.tsx`): the stored generated-chapter
    records are grouped into chapters by their `order`, and a (chapter, topic) cursor
    walks through the topics with Next / Previous and the sidebar. */
module CourseView {
  import opened Js

  /** One stored record: a topic, tagged with the `order` of the chapter it belongs to. */
  datatype GeneratedChapter = GeneratedChapter(
    title: string,
    description: string,
    content: Option<string>,
    youtubeVideo: Option<string>,
    order: int)

  /** What a group keeps of each record. */
  datatype Topic = Topic(description: string, content: Option<string>, youtubeVideo: Option<string>)

  /** One logical chapter: the records sharing one `order`. */
  datatype ChapterGroup = ChapterGroup(order: int, title: string, topics: seq<Topic>)

  function TopicOf(c: GeneratedChapter): Topic {
    Topic(c.description, c.content, c.youtubeVideo)
  }

  // ===========================================================================
  // Grouping: what the reduce builds after reading the records one by one

  /** The `order` values that occur in `cs`. */
  function Orders(cs: seq<GeneratedChapter>): set<int>
    decreases |cs|
  {
    if cs == [] then {} else Orders(cs[..|cs| - 1]) + {cs[|cs| - 1].order}
  }

  predicate Distinct(ks: seq<int>) {
    forall i, j :: 0 <= i < j < |ks| ==> ks[i] != ks[j]
  }

  /** The accumulator's keys in the order the reduce creates them (first appearance). */
  function FirstSeenOrders(cs: seq<GeneratedChapter>): (ks: seq<int>)
    ensures forall k :: k in ks <==> k in Orders(cs)
    ensures Distinct(ks)
    decreases |cs|
  {
    if cs == [] then []
    else
      var ks := FirstSeenOrders(cs[..|cs| - 1]);
      if cs[|cs| - 1].order in ks then ks else ks + [cs[|cs| - 1].order]
  }

  /** The topics of the records whose order is `k`, in record order. */
  function TopicsWith(cs: seq<GeneratedChapter>, k: int): seq<Topic>
    decreases |cs|
  {
    if cs == [] then []
    else TopicsWith(cs[..|cs| - 1], k) + (if cs[|cs| - 1].order == k then [TopicOf(cs[|cs| - 1])] else [])
  }

  /** The title of the group for `k`: set when the key is created and never changed. */
  function FirstTitle(cs: seq<GeneratedChapter>, k: int): string
    requires k in Orders(cs)
    decreases |cs|
  {
    var init := cs[..|cs| - 1];
    if k in Orders(init) then FirstTitle(init, k) else cs[|cs| - 1].title
  }

  function GroupFor(cs: seq<GeneratedChapter>, k: int): ChapterGroup
    requires k in Orders(cs)
  {
    ChapterGroup(k, FirstTitle(cs, k), TopicsWith(cs, k))
  }

  function GroupsFor(cs: seq<GeneratedChapter>, ks: seq<int>): (gs: seq<ChapterGroup>)
    requires forall k | k in ks :: k in Orders(cs)
    ensures |gs| == |ks|
  {
    seq(|ks|, i requires 0 <= i < |ks| => GroupFor(cs, ks[i]))
  }

  /** The values of the finished accumulator, in key-creation order. `Object.values`
      itself lists integer keys in ascending numeric order; the sort at line 92 that
      follows makes the two readings give the same list, because the orders are distinct
      (see `GroupChapters`). */
  function Buckets(cs: seq<GeneratedChapter>): seq<ChapterGroup> {
    GroupsFor(cs, FirstSeenOrders(cs))
  }

  // ===========================================================================
  // The sort by `order` (line 92)

  predicate Ascending(gs: seq<ChapterGroup>) {
    forall i, j :: 0 <= i < j < |gs| ==> gs[i].order <= gs[j].order
  }

  predicate StrictlyAscending(gs: seq<ChapterGroup>) {
    forall i, j :: 0 <= i < j < |gs| ==> gs[i].order < gs[j].order
  }

  predicate DistinctOrders(gs: seq<ChapterGroup>) {
    forall i, j :: 0 <= i < j < |gs| ==> gs[i].order != gs[j].order
  }

  /** Insert `g` before the first group whose order is not smaller. */
  function InsertByOrder(g: ChapterGroup, gs: seq<ChapterGroup>): (r: seq<ChapterGroup>)
    ensures multiset(r) == multiset(gs) + multiset{g}
  {
    if gs == [] || g.order <= gs[0].order then [g] + gs
    else
      assert gs == [gs[0]] + gs[1..];
      [gs[0]] + InsertByOrder(g, gs[1..])
  }

  /** A group no later than any of an ascending list can go in front of it. */
  lemma ConsAscending(x: ChapterGroup, rest: seq<ChapterGroup>)
    requires Ascending(rest)
    requires forall y | y in rest :: x.order <= y.order
    ensures Ascending([x] + rest)
  {
    var r := [x] + rest;
    forall i, j | 0 <= i < j < |r| ensures r[i].order <= r[j].order {
      assert r[j] == rest[j - 1];
      if i > 0 { assert r[i] == rest[i - 1]; } else { assert r[j] in rest; }
    }
  }

  /** A group earlier than every one of a strictly ascending list can go in front of it. */
  lemma ConsStrictlyAscending(x: ChapterGroup, rest: seq<ChapterGroup>)
    requires StrictlyAscending(rest)
    requires forall y | y in rest :: x.order < y.order
    ensures StrictlyAscending([x] + rest)
  {
    var r := [x] + rest;
    forall i, j | 0 <= i < j < |r| ensures r[i].order < r[j].order {
      assert r[j] == rest[j - 1];
      if i > 0 { assert r[i] == rest[i - 1]; } else { assert r[j] in rest; }
    }
  }

  /** The groups inserted after the head of `gs` are `g` and the tail of `gs`. */
  lemma InsertedAfterHead(g: ChapterGroup, gs: seq<ChapterGroup>, x: ChapterGroup)
    requires gs != []
    requires x in InsertByOrder(g, gs[1..])
    ensures x == g || exists j :: 1 <= j < |gs| && gs[j] == x
  {
    assert x in multiset(InsertByOrder(g, gs[1..]));
    if x != g {
      assert x in multiset(gs[1..]);
      var j :| 0 <= j < |gs[1..]| && gs[1..][j] == x;
      assert gs[j + 1] == x;
    }
  }

  lemma {:induction false} InsertKeepsAscending(g: ChapterGroup, gs: seq<ChapterGroup>)
    requires Ascending(gs)
    ensures Ascending(InsertByOrder(g, gs))
  {
    if gs == [] || g.order <= gs[0].order {
      forall y | y in gs ensures g.order <= y.order {
        var j :| 0 <= j < |gs| && gs[j] == y;
      }
      ConsAscending(g, gs);
    } else {
      var rest := InsertByOrder(g, gs[1..]);
      assert Ascending(gs[1..]) by {
        forall i, j | 0 <= i < j < |gs[1..]| ensures gs[1..][i].order <= gs[1..][j].order {
          assert gs[1..][i] == gs[i + 1] && gs[1..][j] == gs[j + 1];
        }
      }
      InsertKeepsAscending(g, gs[1..]);
      forall x | x in rest ensures gs[0].order <= x.order {
        InsertedAfterHead(g, gs, x);
      }
      ConsAscending(gs[0], rest);
    }
  }

  lemma {:induction false} InsertKeepsStrictlyAscending(g: ChapterGroup, gs: seq<ChapterGroup>)
    requires StrictlyAscending(gs)
    requires forall x | x in gs :: x.order != g.order
    ensures StrictlyAscending(InsertByOrder(g, gs))
  {
    if gs == [] || g.order <= gs[0].order {
      forall y | y in gs ensures g.order < y.order {
        var j :| 0 <= j < |gs| && gs[j] == y;
        assert gs[0] in gs;
      }
      ConsStrictlyAscending(g, gs);
    } else {
      var rest := InsertByOrder(g, gs[1..]);
      assert StrictlyAscending(gs[1..]) by {
        forall i, j | 0 <= i < j < |gs[1..]| ensures gs[1..][i].order < gs[1..][j].order {
          assert gs[1..][i] == gs[i + 1] && gs[1..][j] == gs[j + 1];
        }
      }
      forall x | x in gs[1..] ensures x.order != g.order {
        var j :| 0 <= j < |gs[1..]| && gs[1..][j] == x;
        assert gs[j + 1] == x;
      }
      InsertKeepsStrictlyAscending(g, gs[1..]);
      forall x | x in rest ensures gs[0].order < x.order {
        InsertedAfterHead(g, gs, x);
      }
      ConsStrictlyAscending(gs[0], rest);
    }
  }

  /** `sort((a, b) => a.order - b.order)`: a permutation, ordered by `order`. */
  function SortByOrder(gs: seq<ChapterGroup>): (r: seq<ChapterGroup>)
    ensures multiset(r) == multiset(gs)
    ensures Ascending(r)
  {
    if gs == [] then []
    else
      var sorted := SortByOrder(gs[1..]);
      InsertKeepsAscending(gs[0], sorted);
      assert multiset(gs) == multiset(gs[1..]) + multiset{gs[0]} by {
        assert gs == [gs[0]] + gs[1..];
      }
      InsertByOrder(gs[0], sorted)
  }

  /** Groups with distinct orders sort into strictly ascending order. */
  lemma {:induction false} SortStrictlyAscending(gs: seq<ChapterGroup>)
    requires DistinctOrders(gs)
    ensures StrictlyAscending(SortByOrder(gs))
  {
    if gs != [] {
      var sorted := SortByOrder(gs[1..]);
      SortStrictlyAscending(gs[1..]);
      forall x | x in sorted ensures x.order != gs[0].order {
        assert x in multiset(gs[1..]);
        var j :| 0 <= j < |gs[1..]| && gs[1..][j] == x;
        assert gs[j + 1] == x;
      }
      InsertKeepsStrictlyAscending(gs[0], sorted);
    }
  }

  /** The chapter groups the page renders (lines 75-92). */
  function Grouped(cs: seq<GeneratedChapter>): seq<ChapterGroup> {
    SortByOrder(Buckets(cs))
  }

  /** Total number of topics over all groups. */
  function TotalTopics(gs: seq<ChapterGroup>): nat {
    if gs == [] then 0 else |gs[0].topics| + TotalTopics(gs[1..])
  }

  /** The accumulator after the records `cs`: its keys in creation order, and for each
      key the group the reference definition gives. */
  predicate Accumulated(acc: map<int, ChapterGroup>, keys: seq<int>, cs: seq<GeneratedChapter>) {
    && keys == FirstSeenOrders(cs)
    && acc.Keys == Orders(cs)
    && forall k | k in acc :: k in Orders(cs) && acc[k] == GroupFor(cs, k)
  }

  /** One `reduce` step on the accumulator (lines 76-89). */
  function Accumulate(acc: map<int, ChapterGroup>, c: GeneratedChapter): map<int, ChapterGroup> {
    var created := if c.order in acc then acc else acc[c.order := ChapterGroup(c.order, c.title, [])];
    created[c.order := created[c.order].(topics := created[c.order].topics + [TopicOf(c)])]
  }

  lemma AccumulateStep(acc: map<int, ChapterGroup>, keys: seq<int>, cs: seq<GeneratedChapter>, c: GeneratedChapter)
    requires Accumulated(acc, keys, cs)
    ensures Accumulated(Accumulate(acc, c), if c.order in acc then keys else keys + [c.order], cs + [c])
  {
    var cs' := cs + [c];
    assert cs'[..|cs'| - 1] == cs;
    GroupForStep(cs, c);
    var acc' := Accumulate(acc, c);
    assert acc'.Keys == acc.Keys + {c.order};
    forall k | k in acc' ensures k in Orders(cs') && acc'[k] == GroupFor(cs', k) {
      if k != c.order {
        assert acc'[k] == acc[k];
      }
    }
  }

  /** The accumulator's values read in key-creation order are `Buckets`. This is a
      permutation of what `Object.values` lists (ascending integer keys); only the
      sorted result is used. */
  lemma AccumulatedValues(acc: map<int, ChapterGroup>, keys: seq<int>, cs: seq<GeneratedChapter>)
    requires Accumulated(acc, keys, cs)
    ensures forall k | k in keys :: k in acc
    ensures seq(|keys|, j requires 0 <= j < |keys| => acc[keys[j]]) == Buckets(cs)
  {
  }

  /** The `reduce` of lines 75-90: a group is created the first time an order is seen
      and every record's topic is pushed onto its group. `keys` records the order in which
      the accumulator's properties were created; the groups are read back in that order
      and then sorted, which gives the same list as sorting `Object.values`. */
  method CollectGroups(chapters: seq<GeneratedChapter>) returns (acc: map<int, ChapterGroup>, keys: seq<int>)
    ensures Accumulated(acc, keys, chapters)
  {
    acc, keys := map[], [];
    for i := 0 to |chapters|
      invariant Accumulated(acc, keys, chapters[..i])
    {
      ghost var before, keysBefore := acc, keys;
      var chapter := chapters[i];
      var key := chapter.order;
      if key !in acc {
        acc := acc[key := ChapterGroup(chapter.order, chapter.title, [])];
        keys := keys + [key];
      }
      acc := acc[key := acc[key].(topics := acc[key].topics + [TopicOf(chapter)])];
      assert acc == Accumulate(before, chapter);
      AccumulateStep(before, keysBefore, chapters[..i], chapter);
      assert chapters[..i + 1] == chapters[..i] + [chapter];
    }
    assert chapters[..|chapters|] == chapters;
  }

  /** Lines 75-92 as the page runs them: the `reduce`, then the values sorted by order. */
  method GroupChapters(chapters: seq<GeneratedChapter>) returns (groups: seq<ChapterGroup>)
    ensures groups == Grouped(chapters)
    ensures StrictlyAscending(groups)
    ensures TotalTopics(groups) == |chapters|
  {
    var acc, keys := CollectGroups(chapters);
    AccumulatedValues(acc, keys, chapters);
    var values := seq(|keys|, j requires 0 <= j < |keys| => acc[keys[j]]);
    groups := SortByOrder(values);
    GroupedStrictlyAscending(chapters);
    GroupedTopicCount(chapters);
  }

  // ===========================================================================
  // Properties of the grouping

  /** How one more record changes the groups: only the group of its order changes. */
  lemma GroupForStep(cs: seq<GeneratedChapter>, c: GeneratedChapter)
    ensures Orders(cs + [c]) == Orders(cs) + {c.order}
    ensures c.order !in Orders(cs) ==> GroupFor(cs + [c], c.order) == ChapterGroup(c.order, c.title, [TopicOf(c)])
    ensures c.order in Orders(cs) ==>
      GroupFor(cs + [c], c.order) == GroupFor(cs, c.order).(topics := GroupFor(cs, c.order).topics + [TopicOf(c)])
    ensures forall k | k in Orders(cs) && k != c.order :: GroupFor(cs + [c], k) == GroupFor(cs, k)
  {
    assert (cs + [c])[..|cs + [c]| - 1] == cs;
    if c.order !in Orders(cs) {
      TopicsWithAbsent(cs, c.order);
    }
  }

  lemma {:induction false} OrdersMembership(cs: seq<GeneratedChapter>, k: int)
    ensures k in Orders(cs) <==> exists i :: 0 <= i < |cs| && cs[i].order == k
    decreases |cs|
  {
    if cs != [] {
      var init := cs[..|cs| - 1];
      OrdersMembership(init, k);
      if k in Orders(init) {
        var i :| 0 <= i < |init| && init[i].order == k;
        assert cs[i] == init[i];
      }
      forall i | 0 <= i < |init| ensures cs[i] == init[i] { }
    }
  }

  /** A group's title is the title of the earliest record with its order. */
  lemma {:induction false} FirstTitleIsEarliest(cs: seq<GeneratedChapter>, k: int) returns (j: nat)
    requires k in Orders(cs)
    ensures j < |cs| && cs[j].order == k && cs[j].title == FirstTitle(cs, k)
    ensures forall i :: 0 <= i < j ==> cs[i].order != k
    decreases |cs|
  {
    var init := cs[..|cs| - 1];
    if k in Orders(init) {
      j := FirstTitleIsEarliest(init, k);
      assert cs[j] == init[j];
      forall i | 0 <= i < j ensures cs[i].order != k { assert cs[i] == init[i]; }
    } else {
      j := |cs| - 1;
      forall i | 0 <= i < j ensures cs[i].order != k {
        assert cs[i] == init[i];
        OrdersMembership(init, k);
      }
    }
  }

  lemma {:induction false} TopicsWithConcat(a: seq<GeneratedChapter>, b: seq<GeneratedChapter>, k: int)
    ensures TopicsWith(a + b, k) == TopicsWith(a, k) + TopicsWith(b, k)
    decreases |b|
  {
    if b == [] {
      assert a + b == a;
    } else {
      var b' := b[..|b| - 1];
      assert (a + b)[..|a + b| - 1] == a + b';
      TopicsWithConcat(a, b', k);
    }
  }

  /** Record `i` contributes its topic to its own group, at the position given by the
      number of earlier records with the same order. */
  lemma TopicPosition(cs: seq<GeneratedChapter>, i: int)
    requires 0 <= i < |cs|
    ensures |TopicsWith(cs[..i], cs[i].order)| < |TopicsWith(cs, cs[i].order)|
    ensures TopicsWith(cs, cs[i].order)[|TopicsWith(cs[..i], cs[i].order)|] == TopicOf(cs[i])
  {
    var k := cs[i].order;
    assert cs == cs[..i + 1] + cs[i + 1..];
    TopicsWithConcat(cs[..i + 1], cs[i + 1..], k);
    assert cs[..i + 1][..i] == cs[..i];
  }

  /** Topics inside a group keep the relative order of their records. */
  lemma TopicsKeepSourceOrder(cs: seq<GeneratedChapter>, i: int, j: int)
    requires 0 <= i < j < |cs| && cs[i].order == cs[j].order
    ensures |TopicsWith(cs[..i], cs[i].order)| < |TopicsWith(cs[..j], cs[j].order)|
  {
    var k := cs[i].order;
    assert cs[..j] == cs[..i + 1] + cs[i + 1..j];
    TopicsWithConcat(cs[..i + 1], cs[i + 1..j], k);
    assert cs[..i + 1][..i] == cs[..i];
  }

  lemma {:induction false} TopicsWithAbsent(cs: seq<GeneratedChapter>, k: int)
    requires k !in Orders(cs)
    ensures TopicsWith(cs, k) == []
    decreases |cs|
  {
    if cs != [] { TopicsWithAbsent(cs[..|cs| - 1], k); }
  }

  lemma {:induction false} TopicsWithPresent(cs: seq<GeneratedChapter>, k: int)
    requires k in Orders(cs)
    ensures |TopicsWith(cs, k)| > 0
    decreases |cs|
  {
    var init := cs[..|cs| - 1];
    if k in Orders(init) { TopicsWithPresent(init, k); }
  }

  /** Topics contributed by the groups for the keys `ks`. */
  function TopicCount(ks: seq<int>, cs: seq<GeneratedChapter>): nat {
    if ks == [] then 0 else |TopicsWith(cs, ks[0])| + TopicCount(ks[1..], cs)
  }

  lemma {:induction false} TopicCountAppendKey(ks: seq<int>, k: int, cs: seq<GeneratedChapter>)
    ensures TopicCount(ks + [k], cs) == TopicCount(ks, cs) + |TopicsWith(cs, k)|
  {
    if ks != [] {
      assert (ks + [k])[1..] == ks[1..] + [k];
      TopicCountAppendKey(ks[1..], k, cs);
    }
  }

  lemma {:induction false} TopicCountAppendRecord(ks: seq<int>, cs: seq<GeneratedChapter>, c: GeneratedChapter)
    requires Distinct(ks)
    ensures TopicCount(ks, cs + [c]) == TopicCount(ks, cs) + (if c.order in ks then 1 else 0)
  {
    if ks != [] {
      assert (cs + [c])[..|cs + [c]| - 1] == cs;
      assert Distinct(ks[1..]);
      assert ks[0] == c.order ==> c.order !in ks[1..];
      TopicCountAppendRecord(ks[1..], cs, c);
    }
  }

  lemma {:induction false} TopicCountOfFirstSeen(cs: seq<GeneratedChapter>)
    ensures TopicCount(FirstSeenOrders(cs), cs) == |cs|
    decreases |cs|
  {
    if cs != [] {
      var init, c := cs[..|cs| - 1], cs[|cs| - 1];
      assert cs == init + [c];
      var ks := FirstSeenOrders(init);
      TopicCountOfFirstSeen(init);
      TopicCountAppendRecord(ks, init, c);
      if c.order !in ks {
        TopicCountAppendKey(ks, c.order, cs);
        TopicsWithAbsent(init, c.order);
      }
    }
  }

  lemma {:induction false} TotalTopicsOfGroupsFor(cs: seq<GeneratedChapter>, ks: seq<int>)
    requires forall k | k in ks :: k in Orders(cs)
    ensures TotalTopics(GroupsFor(cs, ks)) == TopicCount(ks, cs)
  {
    if ks != [] {
      assert GroupsFor(cs, ks)[1..] == GroupsFor(cs, ks[1..]);
      TotalTopicsOfGroupsFor(cs, ks[1..]);
    }
  }

  lemma {:induction false} TotalTopicsInsert(g: ChapterGroup, gs: seq<ChapterGroup>)
    ensures TotalTopics(InsertByOrder(g, gs)) == |g.topics| + TotalTopics(gs)
  {
    if gs != [] && g.order > gs[0].order {
      TotalTopicsInsert(g, gs[1..]);
      assert InsertByOrder(g, gs)[1..] == InsertByOrder(g, gs[1..]);
    }
  }

  lemma {:induction false} TotalTopicsSort(gs: seq<ChapterGroup>)
    ensures TotalTopics(SortByOrder(gs)) == TotalTopics(gs)
  {
    if gs != [] {
      TotalTopicsSort(gs[1..]);
      TotalTopicsInsert(gs[0], SortByOrder(gs[1..]));
    }
  }

  /** Every record contributes exactly one topic: the groups hold as many topics as there are records. */
  lemma GroupedTopicCount(cs: seq<GeneratedChapter>)
    ensures TotalTopics(Grouped(cs)) == |cs|
  {
    TotalTopicsSort(Buckets(cs));
    TotalTopicsOfGroupsFor(cs, FirstSeenOrders(cs));
    TopicCountOfFirstSeen(cs);
  }

  /** The groups are strictly ascending by order, hence one group per order value. */
  lemma GroupedStrictlyAscending(cs: seq<GeneratedChapter>)
    ensures StrictlyAscending(Grouped(cs))
  {
    var ks := FirstSeenOrders(cs);
    assert DistinctOrders(Buckets(cs)) by {
      forall i, j | 0 <= i < j < |ks| ensures Buckets(cs)[i].order != Buckets(cs)[j].order {
        assert Buckets(cs)[i].order == ks[i] && Buckets(cs)[j].order == ks[j];
      }
    }
    SortStrictlyAscending(Buckets(cs));
  }

  /** Each group is the group of its order: the first record's title and the topics of
      all the records with that order; and every order that occurs has a group. */
  lemma GroupedContents(cs: seq<GeneratedChapter>)
    ensures forall g | g in Grouped(cs) :: g.order in Orders(cs) && g == GroupFor(cs, g.order)
    ensures forall k | k in Orders(cs) :: exists i :: 0 <= i < |Grouped(cs)| && Grouped(cs)[i].order == k
    ensures forall g | g in Grouped(cs) :: |g.topics| > 0
  {
    var b := Buckets(cs);
    var gs := Grouped(cs);
    var ks := FirstSeenOrders(cs);
    forall g | g in gs ensures g.order in Orders(cs) && g == GroupFor(cs, g.order) && |g.topics| > 0 {
      assert g in multiset(b);
      var i :| 0 <= i < |b| && b[i] == g;
      assert g == GroupFor(cs, ks[i]);
      TopicsWithPresent(cs, g.order);
    }
    forall k | k in Orders(cs) ensures exists i :: 0 <= i < |gs| && gs[i].order == k {
      var j :| 0 <= j < |ks| && ks[j] == k;
      assert b[j] in multiset(gs);
      var i :| 0 <= i < |gs| && gs[i] == b[j];
    }
  }

  // ===========================================================================
  // The topic cursor

  datatype Cursor = Cursor(chapter: int, topic: int)

  predicate InBounds(gs: seq<ChapterGroup>, c: Cursor) {
    0 <= c.chapter < |gs| && 0 <= c.topic < |gs[c.chapter].topics|
  }

  /** Line 294. With no current chapter `topics.length - 1` is NaN and the button is enabled. */
  predicate NextDisabled(gs: seq<ChapterGroup>, c: Cursor) {
    0 <= c.chapter < |gs| && c.topic == |gs[c.chapter].topics| - 1 && c.chapter == |gs| - 1
  }

  /** Line 287. */
  predicate PreviousDisabled(c: Cursor) {
    c.topic == 0 && c.chapter == 0
  }

  /** The state `handleNextTopic` asks for (lines 105-112), or None when it throws
      because there is no current chapter. */
  function NextRequest(gs: seq<ChapterGroup>, c: Cursor): (r: Option<Cursor>)
    ensures r.None? <==> !(0 <= c.chapter < |gs|)
    ensures r.Some? ==> r.value.chapter == c.chapter || r.value == Cursor(c.chapter + 1, 0)
    ensures r.Some? && r.value.chapter == c.chapter ==> r.value.topic == c.topic || r.value.topic == c.topic + 1
  {
    if !(0 <= c.chapter < |gs|) then None
    else if c.topic < |gs[c.chapter].topics| - 1 then Some(Cursor(c.chapter, c.topic + 1))
    else if c.chapter < |gs| - 1 then Some(Cursor(c.chapter + 1, 0))
    else Some(c)
  }

  /** The state `handlePreviousTopic` asks for (lines 114-121), or None when it throws
      because the previous chapter does not exist. */
  function PreviousRequest(gs: seq<ChapterGroup>, c: Cursor): (r: Option<Cursor>)
    ensures r.None? <==> c.topic <= 0 && c.chapter > 0 && c.chapter - 1 >= |gs|
    ensures r.Some? && r.value.chapter != c.chapter ==>
      0 < c.chapter <= |gs| && r.value == Cursor(c.chapter - 1, |gs[c.chapter - 1].topics| - 1)
    ensures r.Some? && r.value.chapter == c.chapter ==> r.value.topic == c.topic || r.value.topic == c.topic - 1
  {
    if c.topic > 0 then Some(Cursor(c.chapter, c.topic - 1))
    else if c.chapter > 0 then
      if c.chapter - 1 < |gs| then Some(Cursor(c.chapter - 1, |gs[c.chapter - 1].topics| - 1)) else None
    else Some(c)
  }

  /** The state after a handler's update has been rendered and the effect at lines
      44-46 has run: a changed chapter resets the topic to 0. */
  function Settle(before: Cursor, requested: Cursor): (r: Cursor)
    ensures r.chapter == requested.chapter
    ensures r.chapter != before.chapter ==> r.topic == 0
    ensures r.chapter == before.chapter ==> r == requested
  {
    if requested.chapter != before.chapter then Cursor(requested.chapter, 0) else requested
  }

  function Apply(c: Cursor, request: Option<Cursor>): Cursor {
    match request
    case None => c
    case Some(r) => Settle(c, r)
  }

  /** The updates `handlePreviousTopic` has queued when it returns or throws: line 118's
      `setActiveChapter` is already queued when line 119 throws, and React still applies it. */
  function PreviousQueued(gs: seq<ChapterGroup>, c: Cursor): (r: Cursor)
    ensures PreviousRequest(gs, c).Some? ==> r == PreviousRequest(gs, c).value
    ensures PreviousRequest(gs, c).None? ==> r == Cursor(c.chapter - 1, c.topic)
  {
    match PreviousRequest(gs, c)
    case None => Cursor(c.chapter - 1, c.topic)
    case Some(r) => r
  }

  /** Next Topic, once the page has settled. */
  function Next(gs: seq<ChapterGroup>, c: Cursor): (r: Cursor)
    requires forall g | g in gs :: |g.topics| > 0
    ensures InBounds(gs, c) ==> InBounds(gs, r)
    ensures InBounds(gs, c) ==> (r == c <==> NextDisabled(gs, c))
    ensures InBounds(gs, c) && c.topic < |gs[c.chapter].topics| - 1 ==> r == Cursor(c.chapter, c.topic + 1)
    ensures InBounds(gs, c) && c.topic == |gs[c.chapter].topics| - 1 && c.chapter < |gs| - 1 ==>
      r == Cursor(c.chapter + 1, 0)
    ensures !(0 <= c.chapter < |gs|) ==> r == c
  {
    assert InBounds(gs, c) && c.chapter < |gs| - 1 ==> gs[c.chapter + 1] in gs;
    Apply(c, NextRequest(gs, c))
  }

  /** Previous Topic, once the page has settled. Moving back into the previous chapter
      lands on its FIRST topic: the reset effect overrides the last-topic request. */
  function Previous(gs: seq<ChapterGroup>, c: Cursor): (r: Cursor)
    requires forall g | g in gs :: |g.topics| > 0
    ensures InBounds(gs, c) ==> InBounds(gs, r)
    ensures InBounds(gs, c) ==> (r == c <==> PreviousDisabled(c))
    ensures c.topic > 0 ==> r == Cursor(c.chapter, c.topic - 1)
    ensures c.topic == 0 && 0 < c.chapter ==> r == Cursor(c.chapter - 1, 0)
  {
    Settle(c, PreviousQueued(gs, c))
  }

  /** A sidebar chapter click (line 181). Clicking the active chapter changes nothing. */
  function SelectChapter(c: Cursor, index: int): (r: Cursor)
    ensures r.chapter == index
    ensures r.topic == if index == c.chapter then c.topic else 0
  {
    Settle(c, Cursor(index, c.topic))
  }

  datatype Click = NextClick | PreviousClick | ChapterClick(index: int) | TopicClick(index: int)

  /** One user click. A disabled button fires nothing; the sidebar offers one entry per
      group and, under the active chapter, one entry per topic (lines 174-215). */
  function Step(gs: seq<ChapterGroup>, c: Cursor, click: Click): (r: Cursor)
    requires forall g | g in gs :: |g.topics| > 0
    ensures InBounds(gs, c) ==> InBounds(gs, r)
    ensures click == NextClick ==> r == Next(gs, c)
    ensures click == PreviousClick ==> r == Previous(gs, c)
  {
    assert click.ChapterClick? && 0 <= click.index < |gs| ==> gs[click.index] in gs;
    match click
    case NextClick => if NextDisabled(gs, c) then c else Next(gs, c)
    case PreviousClick => if PreviousDisabled(c) then c else Previous(gs, c)
    case ChapterClick(i) => if 0 <= i < |gs| then SelectChapter(c, i) else c
    case TopicClick(i) =>
      if 0 <= c.chapter < |gs| && 0 <= i < |gs[c.chapter].topics| then Cursor(c.chapter, i) else c
  }

  function Run(gs: seq<ChapterGroup>, c: Cursor, clicks: seq<Click>): Cursor
    requires forall g | g in gs :: |g.topics| > 0
    decreases |clicks|
  {
    if clicks == [] then c else Run(gs, Step(gs, c, clicks[0]), clicks[1..])
  }

  /** From an in-bounds cursor, any sequence of clicks keeps the cursor in bounds. */
  lemma {:induction false} RunStaysInBounds(gs: seq<ChapterGroup>, c: Cursor, clicks: seq<Click>)
    requires forall g | g in gs :: |g.topics| > 0
    requires InBounds(gs, c)
    ensures InBounds(gs, Run(gs, c, clicks))
    decreases |clicks|
  {
    if clicks != [] {
      RunStaysInBounds(gs, Step(gs, c, clicks[0]), clicks[1..]);
    }
  }

  /** On a course with at least one record, the page starts at (0, 0) in bounds and
      stays in bounds whatever the learner clicks. */
  lemma CursorAlwaysInBounds(cs: seq<GeneratedChapter>, clicks: seq<Click>)
    requires cs != []
    ensures forall g | g in Grouped(cs) :: |g.topics| > 0
    ensures InBounds(Grouped(cs), Run(Grouped(cs), Cursor(0, 0), clicks))
  {
    GroupedContents(cs);
    var gs := Grouped(cs);
    OrdersMembership(cs, cs[0].order);
    var i :| 0 <= i < |gs| && gs[i].order == cs[0].order;
    assert gs[0] in gs;
    RunStaysInBounds(gs, Cursor(0, 0), clicks);
  }

  /** Within one chapter, Next then Previous returns to the same cursor. */
  lemma NextThenPreviousWithinChapter(gs: seq<ChapterGroup>, c: Cursor)
    requires forall g | g in gs :: |g.topics| > 0
    requires InBounds(gs, c) && c.topic < |gs[c.chapter].topics| - 1
    ensures Previous(gs, Next(gs, c)) == c
  {
  }

  /** Previous from the first topic of a later chapter lands on (chapter - 1, 0), not on
      the last topic that line 119 asks for. */
  lemma PreviousAcrossChapterLandsOnFirstTopic(gs: seq<ChapterGroup>, c: Cursor)
    requires forall g | g in gs :: |g.topics| > 0
    requires InBounds(gs, c) && c.topic == 0 && c.chapter > 0
    ensures PreviousRequest(gs, c) == Some(Cursor(c.chapter - 1, |gs[c.chapter - 1].topics| - 1))
    ensures Previous(gs, c) == Cursor(c.chapter - 1, 0)
  {
  }

  // ---------------------------------------------------------------------------
  // The evidently intended Previous (see README, Findings)

  /** Previous as line 119 means it: into the previous chapter's last topic. */
  function PreviousIntended(gs: seq<ChapterGroup>, c: Cursor): (r: Cursor)
    requires forall g | g in gs :: |g.topics| > 0
    ensures InBounds(gs, c) ==> InBounds(gs, r)
    ensures InBounds(gs, c) ==> (r == c <==> PreviousDisabled(c))
  {
    match PreviousRequest(gs, c)
    case None => c
    case Some(r) => r
  }

  /** The intended Previous undoes every enabled Next ... */
  lemma PreviousIntendedUndoesNext(gs: seq<ChapterGroup>, c: Cursor)
    requires forall g | g in gs :: |g.topics| > 0
    requires InBounds(gs, c) && !NextDisabled(gs, c)
    ensures PreviousIntended(gs, Next(gs, c)) == c
  {
  }

  /** ... and Next undoes every enabled intended Previous. */
  lemma NextUndoesPreviousIntended(gs: seq<ChapterGroup>, c: Cursor)
    requires forall g | g in gs :: |g.topics| > 0
    requires InBounds(gs, c) && !PreviousDisabled(c)
    ensures Next(gs, PreviousIntended(gs, c)) == c
  {
    assert gs[c.chapter] in gs;
    if c.topic == 0 { assert gs[c.chapter - 1] in gs; }
  }

  /** As written, Previous does not undo a Next that crossed into a chapter from one
      with two or more topics. */
  lemma PreviousAsWrittenDoesNotUndoNext(gs: seq<ChapterGroup>, c: Cursor)
    requires forall g | g in gs :: |g.topics| > 0
    requires InBounds(gs, c) && c.chapter < |gs| - 1
    requires c.topic == |gs[c.chapter].topics| - 1 && c.topic > 0
    ensures Previous(gs, Next(gs, c)) != c
  {
  }

  // ===========================================================================
  // The page's state

  class CourseViewer {
    const groups: seq<ChapterGroup>
    var activeChapter: int
    var activeTopic: int

    function Position(): Cursor
      reads this
    {
      Cursor(activeChapter, activeTopic)
    }

    /** The page after a course with these records has been fetched. */
    constructor (chapters: seq<GeneratedChapter>)
      ensures groups == Grouped(chapters)
      ensures Position() == Cursor(0, 0)
    {
      var gs := GroupChapters(chapters);
      groups := gs;
      activeChapter, activeTopic := 0, 0;
    }

    /** The effect at lines 44-46, run after a render whose `activeChapter` differs
        from the one rendered before (`renderedChapter`). */
    method ResetTopicOnChapterChange(renderedChapter: int)
      modifies this`activeTopic
      ensures activeTopic == if activeChapter != renderedChapter then 0 else old(activeTopic)
    {
      if activeChapter != renderedChapter {
        activeTopic := 0;
      }
    }

    /** `handleNextTopic` as written (lines 105-112); `crashed` when
        `currentChapter.topics` throws. */
    method HandleNextTopic() returns (crashed: bool)
      modifies this
      ensures crashed <==> NextRequest(groups, old(Position())).None?
      ensures !crashed ==> Position() == NextRequest(groups, old(Position())).value
      ensures crashed ==> Position() == old(Position())
    {
      if !(0 <= activeChapter < |groups|) {
        return true;
      }
      crashed := false;
      if activeTopic < |groups[activeChapter].topics| - 1 {
        activeTopic := activeTopic + 1;
      } else if activeChapter < |groups| - 1 {
        activeChapter := activeChapter + 1;
        activeTopic := 0;
      }
    }

    /** `handlePreviousTopic` as written (lines 114-121); `crashed` when line 119 reads
        the topics of a chapter that does not exist, after line 118 has moved the chapter. */
    method HandlePreviousTopic() returns (crashed: bool)
      modifies this
      ensures crashed <==> PreviousRequest(groups, old(Position())).None?
      ensures !crashed ==> Position() == PreviousRequest(groups, old(Position())).value
      ensures Position() == PreviousQueued(groups, old(Position()))
    {
      crashed := false;
      if activeTopic > 0 {
        activeTopic := activeTopic - 1;
      } else if activeChapter > 0 {
        activeChapter := activeChapter - 1;
        if activeChapter >= |groups| {
          return true;
        }
        activeTopic := |groups[activeChapter].topics| - 1;
      }
    }

    /** A click on Next Topic followed by the reset effect. */
    method NextTopic() returns (crashed: bool)
      requires forall g | g in groups :: |g.topics| > 0
      modifies this
      ensures Position() == Next(groups, old(Position()))
      ensures crashed <==> !(0 <= old(activeChapter) < |groups|)
    {
      var rendered := activeChapter;
      crashed := HandleNextTopic();
      ResetTopicOnChapterChange(rendered);
    }

    /** A click on Previous Topic followed by the reset effect. */
    method PreviousTopic() returns (crashed: bool)
      requires forall g | g in groups :: |g.topics| > 0
      modifies this
      ensures Position() == Previous(groups, old(Position()))
      ensures crashed <==> PreviousRequest(groups, old(Position())).None?
    {
      var rendered := activeChapter;
      crashed := HandlePreviousTopic();
      ResetTopicOnChapterChange(rendered);
    }

    /** A click on the sidebar entry of chapter `index` (line 181), then the effect. */
    method ClickChapter(index: int)
      requires 0 <= index < |groups|
      modifies this
      ensures Position() == SelectChapter(old(Position()), index)
    {
      var rendered := activeChapter;
      activeChapter := index;
      ResetTopicOnChapterChange(rendered);
    }

    /** A click on topic `index` of the active chapter in the sidebar (line 200). */
    method ClickTopic(index: int)
      requires 0 <= activeChapter < |groups| && 0 <= index < |groups[activeChapter].topics|
      modifies this`activeTopic
      ensures Position() == Cursor(old(activeChapter), index)
    {
      activeTopic := index;
    }
  }
}
