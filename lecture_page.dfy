/** The lecture page (src/pages/LecturePage.tsx): where the lecture sits in
    its course, the Previous and Next links, what finishing a quiz does, and
    which quiz widget the page shows. The course, lecture, server test and
    grade rows are inputs; a missing course is an empty lecture list. */
module LecturePage {
  import opened Wrappers
  import opened Domain
  import opened Storage
  import opened Seqs

  /** The course's lectures as the page orders them, ascending by order. */
  function OrderedLectures(ls: seq<Lecture>): (r: seq<Lecture>)
    ensures SortedBy(r, LectureOrder)
    ensures multiset(r) == multiset(ls)
  {
    SortByIsSortedPermutation(ls, LectureOrder);
    SortBy(ls, LectureOrder)
  }

  /** `findIndex(l => l.id === lectureId) ?? -1` */
  function IndexOf(ls: seq<Lecture>, lectureId: string): (r: int)
    ensures -1 <= r < |ls|
    ensures r == -1 <==> forall j :: 0 <= j < |ls| ==> ls[j].id != lectureId
    ensures r >= 0 ==> ls[r].id == lectureId && forall j :: 0 <= j < r ==> ls[j].id != lectureId
  {
    if ls == [] then -1
    else if ls[0].id == lectureId then 0
    else
      var i := IndexOf(ls[1..], lectureId);
      assert forall j :: 1 <= j < |ls| ==> ls[j] == ls[1..][j - 1];
      if i == -1 then -1 else i + 1
  }

  /** The lecture before position `i`, if there is one. */
  function Previous(ls: seq<Lecture>, i: int): (r: Option<Lecture>)
    requires -1 <= i < |ls|
    ensures r.Some? <==> i > 0
    ensures r.Some? ==> r.value == ls[i - 1]
  {
    if i > 0 then Some(ls[i - 1]) else None
  }

  /** The lecture after position `i`, if there is one; for a lecture not in
      the list (`i == -1`) that is the first lecture. */
  function Next(ls: seq<Lecture>, i: int): (r: Option<Lecture>)
    requires -1 <= i < |ls|
    ensures r.Some? <==> i < |ls| - 1
    ensures r.Some? ==> r.value == ls[i + 1]
  {
    if i < |ls| - 1 then Some(ls[i + 1]) else None
  }

  /** For a lecture that is in the list, the neighbours are the lectures on
      either side of its first occurrence; the first lecture has no previous
      one and the last no next one. */
  lemma NeighboursOfListedLecture(ls: seq<Lecture>, lectureId: string, i: int)
    requires 0 <= i < |ls| && ls[i].id == lectureId
    requires forall j :: 0 <= j < i ==> ls[j].id != lectureId
    ensures IndexOf(ls, lectureId) == i
    ensures Previous(ls, IndexOf(ls, lectureId)) == (if i == 0 then None else Some(ls[i - 1]))
    ensures Next(ls, IndexOf(ls, lectureId)) == (if i == |ls| - 1 then None else Some(ls[i + 1]))
  {
  }

  /** For a lecture missing from a non-empty list there is no previous
      lecture and the next one is the first. */
  lemma MissingLectureLinksToFirst(ls: seq<Lecture>, lectureId: string)
    requires |ls| > 0 && forall j :: 0 <= j < |ls| ==> ls[j].id != lectureId
    ensures Previous(ls, IndexOf(ls, lectureId)).None?
    ensures Next(ls, IndexOf(ls, lectureId)) == Some(ls[0])
  {
  }

  /** `nextLecture && (!test || grade?.passed)` */
  predicate ShowNextButton(next: Option<Lecture>, hasServerTest: bool, grade: Option<Grade>) {
    next.Some? && (!hasServerTest || (grade.Some? && grade.value.passed))
  }

  /** `handleTestComplete`: the lecture to navigate to, if any. */
  function OnTestComplete(passed: bool, next: Option<Lecture>): (r: Option<string>)
    ensures r.Some? <==> passed && next.Some?
    ensures r.Some? ==> r.value == next.value.id
  {
    if passed && next.Some? then Some(next.value.id) else None
  }

  /** With a server test and no passing grade the Next button is hidden;
      without a server test it is shown whenever there is a next lecture. */
  lemma NextButtonGating(next: Option<Lecture>, hasServerTest: bool, grade: Option<Grade>)
    ensures hasServerTest && (grade.None? || !grade.value.passed) ==> !ShowNextButton(next, hasServerTest, grade)
    ensures !hasServerTest ==> (ShowNextButton(next, hasServerTest, grade) <==> next.Some?)
    ensures ShowNextButton(next, hasServerTest, grade) ==> OnTestComplete(true, next) == Some(next.value.id)
  {
  }

  /** What the quiz area of the page holds. */
  datatype TestWidget =
    | GradeView(grade: Grade)
    | Taker
    | Generator(content: string, transcript: string)

  /** Whether a generated quiz is stored for the lecture. */
  predicate HasStoredTest(entries: map<string, StoredValue>, lectureId: string) {
    TestKey(lectureId) in entries
  }

  /** The quiz area: a server test shows the grade or the taker; otherwise a
      generated quiz shows the taker; otherwise the generator, given the
      lecture's text (missing text is empty). */
  function ChooseTestWidget(hasServerTest: bool, grade: Option<Grade>, testGenerated: bool, lecture: Lecture): (r: TestWidget)
    ensures hasServerTest && grade.Some? ==> r == GradeView(grade.value)
    ensures hasServerTest && grade.None? ==> r == Taker
    ensures !hasServerTest && testGenerated ==> r == Taker
    ensures !hasServerTest && !testGenerated ==> r == Generator(lecture.content, lecture.transcript)
    ensures r.GradeView? ==> hasServerTest
  {
    if hasServerTest then
      if grade.Some? then GradeView(grade.value) else Taker
    else if testGenerated then Taker
    else Generator(lecture.content, lecture.transcript)
  }
}
