/** The public course preview page (`src/pages/CoursePreview.tsx`): the AI-generated
    layout of one course, its total duration, topic count and numbered chapters. */
module CoursePreview {
  import opened Js
  import opened Api

  datatype LayoutChapter = LayoutChapter(chapterName: string, duration: string, topics: seq<string>)

  datatype CourseLayout = CourseLayout(
    name: string,
    description: string,
    category: string,
    level: string,
    includeVideo: bool,
    noOfChapters: int,
    bannerImagePrompt: string,
    chapters: seq<LayoutChapter>)

  /** The parts of the preview response the page looks at; an absent property is None. */
  datatype PreviewData = PreviewData(aiGeneratedLayout: Option<CourseLayout>)
  datatype PreviewBody = PreviewBody(data: Option<PreviewData>)

  datatype Screen = Loading | NotFound | Show(layout: CourseLayout)

  /** What the page renders for its `loading` and `course` state (lines 58-85). */
  function ScreenFor(loading: bool, course: Option<PreviewBody>): (s: Screen)
    ensures s.Loading? <==> loading
    ensures s.Show? <==> !loading && course.Some? && course.value.data.Some? && course.value.data.value.aiGeneratedLayout.Some?
    ensures s.Show? ==> s.layout == course.value.data.value.aiGeneratedLayout.value
  {
    if loading then Loading
    else if course.None? || course.value.data.None? || course.value.data.value.aiGeneratedLayout.None? then NotFound
    else Show(course.value.data.value.aiGeneratedLayout.value)
  }

  /** JavaScript truthiness of the route parameter `id`: present and non-empty. */
  predicate Present(id: Option<string>) {
    id.Some? && id.value != ""
  }

  /** The screen once the fetch effect (lines 40-56) has finished: without a route id no
      fetch starts and the page keeps loading; a failed request clears the course. */
  function AfterFetch(id: Option<string>, reply: Call<PreviewBody>): (s: Screen)
    ensures !Present(id) ==> s == Loading
    ensures Present(id) && reply.Thrown? ==> s == NotFound
    ensures Present(id) && reply.Resolved? ==> s == ScreenFor(false, Some(reply.body))
  {
    if !Present(id) then Loading
    else match reply
      case Resolved(body) => ScreenFor(false, Some(body))
      case Thrown(_) => ScreenFor(false, None)
  }

  // ---------------------------------------------------------------------------
  // Total duration (lines 147-150)

  /** `s.split(' ')[0]`: everything before the first space. */
  function FirstToken(s: string): (t: string)
    ensures t <= s && ' ' !in t
    ensures |t| < |s| ==> s[|t|] == ' '
  {
    if s == [] || s[0] == ' ' then [] else [s[0]] + FirstToken(s[1..])
  }

  /** The hours a chapter contributes: `parseInt` of the first word of its duration. */
  function ChapterHours(ch: LayoutChapter): (r: Num)
    ensures r.Int? ==> FirstToken(ch.duration) != []
    ensures ch.duration == [] || ch.duration[0] == ' ' ==> r.NaN?
  {
    ParseInt(FirstToken(ch.duration))
  }

  /** The hours of every chapter, in order. */
  function HoursList(chs: seq<LayoutChapter>): (hs: seq<Num>)
    ensures |hs| == |chs|
    ensures forall i :: 0 <= i < |chs| ==> hs[i] == ChapterHours(chs[i])
  {
    seq(|chs|, i requires 0 <= i < |chs| => ChapterHours(chs[i]))
  }

  predicate SomeNaN(ns: seq<Num>) {
    exists i :: 0 <= i < |ns| && ns[i].NaN?
  }

  /** `reduce((total, h) => total + h, 0)` over numbers, first to last. */
  function SumLeft(ns: seq<Num>): (r: Num)
    ensures r.NaN? <==> SomeNaN(ns)
    decreases |ns|
  {
    if ns == [] then Int(0)
    else
      var init := ns[..|ns| - 1];
      assert SomeNaN(ns) <==> SomeNaN(init) || ns[|ns| - 1].NaN? by {
        if SomeNaN(init) {
          var i :| 0 <= i < |init| && init[i].NaN?;
          assert ns[i] == init[i];
        }
        if SomeNaN(ns) {
          var i :| 0 <= i < |ns| && ns[i].NaN?;
          if i < |init| { assert ns[i] == init[i]; }
        }
      }
      Add(SumLeft(init), ns[|ns| - 1])
  }

  /** Reference definition: the integer sum, first element first. */
  function SumInts(ns: seq<Num>): int
    requires !SomeNaN(ns)
  {
    if ns == [] then 0
    else
      assert !SomeNaN(ns[1..]) by {
        forall i | 0 <= i < |ns[1..]| ensures !ns[1..][i].NaN? {
          assert ns[1..][i] == ns[i + 1];
        }
      }
      assert !ns[0].NaN?;
      ns[0].value + SumInts(ns[1..])
  }

  lemma {:induction false} SumIntsSnoc(ns: seq<Num>, n: Num)
    requires !SomeNaN(ns + [n])
    ensures !SomeNaN(ns) && n.Int?
    ensures SumInts(ns + [n]) == SumInts(ns) + n.value
  {
    assert (ns + [n])[|ns|] == n;
    forall i | 0 <= i < |ns| ensures !ns[i].NaN? {
      assert (ns + [n])[i] == ns[i];
    }
    if ns != [] {
      assert (ns + [n])[1..] == ns[1..] + [n];
      assert (ns + [n])[0] == ns[0];
      SumIntsSnoc(ns[1..], n);
    }
  }

  /** Without NaN, the running total is the plain sum. */
  lemma {:induction false} SumLeftIsSum(ns: seq<Num>)
    requires !SomeNaN(ns)
    ensures SumLeft(ns) == Int(SumInts(ns))
    decreases |ns|
  {
    if ns != [] {
      var init := ns[..|ns| - 1];
      assert ns == init + [ns[|ns| - 1]];
      SumIntsSnoc(init, ns[|ns| - 1]);
      SumLeftIsSum(init);
    }
  }

  /** The Total Duration figure. */
  function TotalDuration(chs: seq<LayoutChapter>): (r: Num)
    ensures chs == [] ==> r == Int(0)
    ensures r.NaN? <==> SomeNaN(HoursList(chs))
  {
    SumLeft(HoursList(chs))
  }

  /** The total is NaN exactly when some chapter's duration does not start with a number,
      and otherwise it is the sum of the chapters' hours. */
  lemma TotalDurationMeaning(chs: seq<LayoutChapter>)
    ensures TotalDuration(chs).NaN? <==> exists i :: 0 <= i < |chs| && ChapterHours(chs[i]).NaN?
    ensures !SomeNaN(HoursList(chs)) ==> TotalDuration(chs) == Int(SumInts(HoursList(chs)))
  {
    var hs := HoursList(chs);
    if SomeNaN(hs) {
      var i :| 0 <= i < |hs| && hs[i].NaN?;
      assert ChapterHours(chs[i]).NaN?;
    } else {
      SumLeftIsSum(hs);
    }
  }

  /** A duration whose first word is a whole number counts as that number. */
  lemma HoursOfNumberedDuration(ch: LayoutChapter, digits: string, unit: string)
    requires digits != [] && AllDecimal(digits)
    requires ch.duration == digits + " " + unit
    ensures ChapterHours(ch) == Int(DigitsValue(digits, 10))
  {
    assert ch.duration == digits + (" " + unit);
    FirstTokenOfWord(digits, " " + unit);
    ParseIntOfDecimalPrefix(digits, []);
    assert digits + [] == digits;
    HoursOfFirstWord(ch, digits);
  }

  lemma HoursOfFirstWord(ch: LayoutChapter, w: string)
    requires FirstToken(ch.duration) == w
    ensures ChapterHours(ch) == ParseInt(w)
  {
  }

  lemma {:induction false} FirstTokenOfWord(w: string, rest: string)
    requires ' ' !in w
    requires rest == [] || rest[0] == ' '
    ensures FirstToken(w + rest) == w
  {
    if w == [] {
      assert w + rest == rest;
    } else {
      assert (w + rest)[1..] == w[1..] + rest;
      FirstTokenOfWord(w[1..], rest);
    }
  }

  /** A fractional duration such as "1.5 hours" counts only its whole hours: the
      fraction is dropped. */
  lemma FractionalHoursAreTruncated(ch: LayoutChapter, whole: string, fraction: string, unit: string)
    requires whole != [] && AllDecimal(whole) && ' ' !in fraction
    requires ch.duration == whole + "." + fraction + " " + unit
    ensures ChapterHours(ch) == Int(DigitsValue(whole, 10))
  {
    var w := whole + "." + fraction;
    assert ch.duration == w + (" " + unit);
    assert ' ' !in w by {
      assert forall i | 0 <= i < |w| :: w[i] == (if i < |whole| then whole[i] else if i == |whole| then '.' else fraction[i - |whole| - 1]);
    }
    FirstTokenOfWord(w, " " + unit);
    assert w == whole + ("." + fraction);
    ParseIntOfDecimalPrefix(whole, "." + fraction);
    HoursOfFirstWord(ch, w);
  }

  /** A duration with a leading space has an empty first word, so the total is NaN. */
  lemma LeadingSpaceMakesTotalNaN(chs: seq<LayoutChapter>, i: int)
    requires 0 <= i < |chs| && |chs[i].duration| > 0 && chs[i].duration[0] == ' '
    ensures TotalDuration(chs).NaN?
  {
    assert FirstToken(chs[i].duration) == [];
    assert HoursList(chs)[i].NaN?;
  }

  // ---------------------------------------------------------------------------
  // Topics and chapter numbering (lines 162, 186-192)

  /** `chapters.reduce((total, ch) => total + ch.topics.length, 0)`. */
  function TotalTopics(chs: seq<LayoutChapter>): (n: nat)
    ensures chs == [] ==> n == 0
    ensures forall i | 0 <= i < |chs| :: |chs[i].topics| <= n
    decreases |chs|
  {
    if chs == [] then 0
    else
      var init := chs[..|chs| - 1];
      assert forall i | 0 <= i < |init| :: init[i] == chs[i];
      TotalTopics(init) + |chs[|chs| - 1].topics|
  }

  /** All topic cards, chapter after chapter. */
  function AllTopics(chs: seq<LayoutChapter>): seq<string> {
    if chs == [] then [] else chs[0].topics + AllTopics(chs[1..])
  }

  lemma {:induction false} AllTopicsSnoc(chs: seq<LayoutChapter>, ch: LayoutChapter)
    ensures AllTopics(chs + [ch]) == AllTopics(chs) + ch.topics
  {
    if chs == [] {
      assert [] + [ch] == [ch];
    } else {
      assert (chs + [ch])[1..] == chs[1..] + [ch];
      AllTopicsSnoc(chs[1..], ch);
    }
  }

  /** The Topics figure counts exactly the topic cards listed below it. */
  lemma {:induction false} TotalTopicsCountsCards(chs: seq<LayoutChapter>)
    ensures TotalTopics(chs) == |AllTopics(chs)|
    decreases |chs|
  {
    if chs != [] {
      var init := chs[..|chs| - 1];
      assert chs == init + [chs[|chs| - 1]];
      AllTopicsSnoc(init, chs[|chs| - 1]);
      TotalTopicsCountsCards(init);
    }
  }

  /** The chapter headings: "Chapter n" with n counted from 1 in list order. */
  function ChapterHeadings(chs: seq<LayoutChapter>): (hs: seq<(int, string)>)
    ensures |hs| == |chs|
    ensures forall i :: 0 <= i < |hs| ==> hs[i].0 == i + 1 && hs[i].1 == chs[i].chapterName
    ensures forall i, j :: 0 <= i < j < |hs| ==> hs[i].0 < hs[j].0
  {
    seq(|chs|, i requires 0 <= i < |chs| => (i + 1, chs[i].chapterName))
  }
}
