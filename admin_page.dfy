/** The course administration console (src/pages/AdminPage.tsx): the fetched
    course tree sorted by order, the expanded-row sets, and the in-memory tree
    updates that follow each successful create, update or delete on the
    backend. Backend replies are inputs. */
module AdminPage {
  import opened Wrappers
  import opened Domain
  import opened Seqs

  const DefaultThumbnail := "https://images.unsplash.com/photo-1497633762265-9d179a990aa6?ixlib=rb-4.0.3&ixid=M3wxMjA3fDB8MHxwaG90by1wYWdlfHx8fGVufDB8fHx8fA%3D%3D&auto=format&fit=crop&w=1200&q=80"

  const LoadFailed := "Failed to load courses. Please try again."
  const CourseTitleRequired := "Course title is required"
  const MustBeLoggedIn := "You must be logged in to add a course"
  const AddCourseFailed := "Failed to add course. Please try again."
  const UpdateCourseFailed := "Failed to update course. Please try again."
  const DeleteCourseFailed := "Failed to delete course. Please try again."
  const SectionTitleRequired := "Section title is required"
  const AddSectionFailed := "Failed to add section. Please try again."
  const UpdateSectionFailed := "Failed to update section. Please try again."
  const DeleteSectionFailed := "Failed to delete section. Please try again."
  const LectureTitleRequired := "Lecture title is required"
  const AddLectureFailed := "Failed to add lecture. Please try again."
  const UpdateLectureFailed := "Failed to update lecture. Please try again."
  const DeleteLectureFailed := "Failed to delete lecture. Please try again."

  // ---------------------------------------------------------------------------
  // Loading.

  /** One fetched course with its sections and its lecture list sorted by
      order; the lecture lists inside the sections are left as fetched. */
  function SortCourse(c: Course): Course {
    c.(sections := SortBy(c.sections, SectionOrder), lectures := SortBy(c.lectures, LectureOrder))
  }

  function PrepareCourses(cs: seq<Course>): (r: seq<Course>)
    ensures |r| == |cs| && forall k :: 0 <= k < |cs| ==> r[k] == SortCourse(cs[k])
  {
    seq(|cs|, k requires 0 <= k < |cs| => SortCourse(cs[k]))
  }

  /** After loading, every course keeps its row fields, and its sections and
      lectures are an ascending rearrangement of the fetched ones. */
  lemma PreparedCourseIsSorted(cs: seq<Course>, k: int)
    requires 0 <= k < |cs|
    ensures var c := PrepareCourses(cs)[k];
      && c == cs[k].(sections := c.sections, lectures := c.lectures)
      && SortedBy(c.sections, SectionOrder) && multiset(c.sections) == multiset(cs[k].sections)
      && SortedBy(c.lectures, LectureOrder) && multiset(c.lectures) == multiset(cs[k].lectures)
  {
    SortByIsSortedPermutation(cs[k].sections, SectionOrder);
    SortByIsSortedPermutation(cs[k].lectures, LectureOrder);
  }

  // ---------------------------------------------------------------------------
  // Order assignment.

  /** `reduce((max, x) => Math.max(max, x.order), 0) || 0` plus one: the
      smallest positive number above every existing order. */
  function NextOrder<T>(s: seq<T>, key: T -> int): (r: int)
    ensures r >= 1
    ensures forall k :: 0 <= k < |s| ==> key(s[k]) < r
    ensures r == 1 || exists k :: 0 <= k < |s| && key(s[k]) == r - 1
  {
    MaxKey(s, key) + 1
  }

  function CourseWithId(id: string): Course -> bool { (c: Course) => c.id == id }

  function SectionWithId(id: string): Section -> bool { (s: Section) => s.id == id }

  /** The sections of the first course with the id, or none. */
  function SectionsOf(cs: seq<Course>, courseId: string): seq<Section> {
    match Find(cs, CourseWithId(courseId))
    case None => []
    case Some(c) => c.sections
  }

  /** Where a new lecture goes: a course and, when the id is non-empty, one of
      its sections. */
  datatype LectureTarget = LectureTarget(courseId: string, sectionId: Option<string>)

  predicate InSection(t: LectureTarget) {
    t.sectionId.Some? && t.sectionId.value != ""
  }

  /** The lectures a new lecture is numbered after: those of the target
      section, or of the course when there is no section. */
  function SiblingLectures(cs: seq<Course>, t: LectureTarget): seq<Lecture> {
    match Find(cs, CourseWithId(t.courseId))
    case None => []
    case Some(c) =>
      if InSection(t) then
        match Find(c.sections, SectionWithId(t.sectionId.value))
        case None => []
        case Some(s) => s.lectures
      else c.lectures
  }

  // ---------------------------------------------------------------------------
  // Rows returned by the backend and the tree updates they cause.

  datatype CourseRow = CourseRow(id: string, title: string, description: string, semester: int, thumbnail: string)

  datatype SectionRow = SectionRow(id: string, title: string, description: string, order: int, courseId: string)

  /** `{ ...course, ...row }`: the row's columns over the course, its
      sections and lectures kept. */
  function MergeCourse(c: Course, row: CourseRow): (r: Course)
    ensures r.sections == c.sections && r.lectures == c.lectures
    ensures r.id == row.id && r.title == row.title && r.description == row.description
    ensures r.semester == row.semester && r.thumbnail == row.thumbnail
  {
    c.(id := row.id, title := row.title, description := row.description,
       semester := row.semester, thumbnail := row.thumbnail)
  }

  /** `{ ...section, ...row }` */
  function MergeSection(s: Section, row: SectionRow): (r: Section)
    ensures r.lectures == s.lectures
    ensures r.id == row.id && r.title == row.title && r.description == row.description
    ensures r.order == row.order && r.courseId == row.courseId
  {
    s.(id := row.id, title := row.title, description := row.description, order := row.order, courseId := row.courseId)
  }

  predicate HasSection(c: Course, sectionId: string) {
    exists i :: 0 <= i < |c.sections| && c.sections[i].id == sectionId
  }

  predicate HasLecture(ls: seq<Lecture>, lectureId: string) {
    exists i :: 0 <= i < |ls| && ls[i].id == lectureId
  }

  predicate SectionsHaveLecture(c: Course, lectureId: string) {
    exists i :: 0 <= i < |c.sections| && HasLecture(c.sections[i].lectures, lectureId)
  }

  /** Applies `f` to the courses with the given id, leaving the rest. */
  function UpdateCourses(cs: seq<Course>, courseId: string, f: Course -> Course): (r: seq<Course>)
    ensures |r| == |cs|
    ensures forall k :: 0 <= k < |cs| ==> r[k] == if cs[k].id == courseId then f(cs[k]) else cs[k]
  {
    seq(|cs|, k requires 0 <= k < |cs| => if cs[k].id == courseId then f(cs[k]) else cs[k])
  }

  /** A course's section list with a new section appended. */
  function AppendSection(c: Course, s: Section): (r: Course)
    ensures r == c.(sections := c.sections + [s])
  {
    c.(sections := c.sections + [s])
  }

  /** The sections of every course that has the section, with it merged. */
  function UpdateSection(cs: seq<Course>, sectionId: string, row: SectionRow): (r: seq<Course>)
    ensures |r| == |cs|
    ensures forall k :: 0 <= k < |cs| ==> r[k] == cs[k].(sections := r[k].sections)
    ensures forall k :: 0 <= k < |cs| ==> |r[k].sections| == |cs[k].sections|
    ensures forall k, i :: 0 <= k < |cs| && 0 <= i < |cs[k].sections| ==>
      r[k].sections[i] == if cs[k].sections[i].id == sectionId then MergeSection(cs[k].sections[i], row) else cs[k].sections[i]
  {
    seq(|cs|, k requires 0 <= k < |cs| =>
      if HasSection(cs[k], sectionId) then
        var ss := cs[k].sections;
        cs[k].(sections := seq(|ss|, i requires 0 <= i < |ss| => if ss[i].id == sectionId then MergeSection(ss[i], row) else ss[i]))
      else cs[k])
  }

  /** One course without the section, when it has it. */
  function WithoutSection(c: Course, sectionId: string): (r: Course)
    ensures r == c.(sections := r.sections)
    ensures !HasSection(r, sectionId)
    ensures !HasSection(c, sectionId) ==> r == c
    ensures forall s :: s in r.sections <==> s in c.sections && s.id != sectionId
    ensures forall s :: multiset(r.sections)[s] == if s.id != sectionId then multiset(c.sections)[s] else 0
    ensures IsSubsequence(r.sections, c.sections)
  {
    if HasSection(c, sectionId) then
      var ss := Filter(c.sections, (s: Section) => s.id != sectionId);
      assert forall i :: 0 <= i < |ss| ==> ss[i] in ss;
      c.(sections := ss)
    else
      SubsequenceOfSelf(c.sections);
      c
  }

  /** `handleDeleteSection`'s update: the section disappears from the courses
      that had it; nothing else changes. */
  function RemoveSection(cs: seq<Course>, sectionId: string): (r: seq<Course>)
    ensures |r| == |cs|
    ensures forall k :: 0 <= k < |cs| ==> r[k] == cs[k].(sections := r[k].sections)
    ensures forall k :: 0 <= k < |cs| ==> !HasSection(r[k], sectionId)
    ensures forall k :: 0 <= k < |cs| && !HasSection(cs[k], sectionId) ==> r[k] == cs[k]
    ensures forall k, s :: 0 <= k < |cs| ==> (s in r[k].sections <==> s in cs[k].sections && s.id != sectionId)
    ensures forall k, s :: 0 <= k < |cs| ==>
      multiset(r[k].sections)[s] == if s.id != sectionId then multiset(cs[k].sections)[s] else 0
    ensures forall k :: 0 <= k < |cs| ==> IsSubsequence(r[k].sections, cs[k].sections)
  {
    seq(|cs|, k requires 0 <= k < |cs| => WithoutSection(cs[k], sectionId))
  }

  /** `handleAddLecture`'s update of the target course: the new lecture goes
      at the end of the target section's list, or of the course's list when
      there is no section. */
  function AddLecture(c: Course, t: LectureTarget, l: Lecture): (r: Course)
    ensures !InSection(t) ==> r == c.(lectures := c.lectures + [l])
    ensures InSection(t) ==> r == c.(sections := r.sections) && |r.sections| == |c.sections|
    ensures InSection(t) ==> forall i :: 0 <= i < |c.sections| ==>
      r.sections[i] == if c.sections[i].id == t.sectionId.value
                       then c.sections[i].(lectures := c.sections[i].lectures + [l]) else c.sections[i]
  {
    if InSection(t) then
      var ss := c.sections;
      c.(sections := seq(|ss|, i requires 0 <= i < |ss| =>
        if ss[i].id == t.sectionId.value then ss[i].(lectures := ss[i].lectures + [l]) else ss[i]))
    else c.(lectures := c.lectures + [l])
  }

  /** A lecture list with every lecture of the id replaced by the row. */
  function ReplaceLecture(ls: seq<Lecture>, lectureId: string, row: Lecture): (r: seq<Lecture>)
    ensures |r| == |ls|
    ensures forall i :: 0 <= i < |ls| ==> r[i] == if ls[i].id == lectureId then row else ls[i]
  {
    seq(|ls|, i requires 0 <= i < |ls| => if ls[i].id == lectureId then row else ls[i])
  }

  function WithoutLecture(ls: seq<Lecture>, lectureId: string): (r: seq<Lecture>)
    ensures forall l :: l in r <==> l in ls && l.id != lectureId
    ensures forall l :: multiset(r)[l] == if l.id != lectureId then multiset(ls)[l] else 0
    ensures !HasLecture(r, lectureId)
    ensures IsSubsequence(r, ls)
  {
    var r := Filter(ls, (l: Lecture) => l.id != lectureId);
    assert forall i :: 0 <= i < |r| ==> r[i] in r;
    r
  }

  /** Every section's lecture list passed through `f`. */
  function MapSectionLectures(ss: seq<Section>, f: seq<Lecture> -> seq<Lecture>): (r: seq<Section>)
    ensures |r| == |ss|
    ensures forall i :: 0 <= i < |ss| ==> r[i] == ss[i].(lectures := f(ss[i].lectures))
  {
    seq(|ss|, i requires 0 <= i < |ss| => ss[i].(lectures := f(ss[i].lectures)))
  }

  /** Sections whose list has the lecture get `f`; the others are kept. */
  function MapSectionsHaving(ss: seq<Section>, lectureId: string, f: seq<Lecture> -> seq<Lecture>): (r: seq<Section>)
    ensures |r| == |ss|
    ensures forall i :: 0 <= i < |ss| ==>
      r[i] == if HasLecture(ss[i].lectures, lectureId) then ss[i].(lectures := f(ss[i].lectures)) else ss[i]
  {
    seq(|ss|, i requires 0 <= i < |ss| =>
      if HasLecture(ss[i].lectures, lectureId) then ss[i].(lectures := f(ss[i].lectures)) else ss[i])
  }

  /** The lecture updates as written: the course's own lecture list is
      checked first and, when it holds the lecture, the sections are not
      looked at. */
  function ChangeLectureAsWritten(c: Course, lectureId: string, f: seq<Lecture> -> seq<Lecture>): (r: Course)
    ensures HasLecture(c.lectures, lectureId) ==> r == c.(lectures := f(c.lectures))
    ensures !HasLecture(c.lectures, lectureId) && SectionsHaveLecture(c, lectureId) ==>
      r == c.(sections := MapSectionsHaving(c.sections, lectureId, f))
    ensures !HasLecture(c.lectures, lectureId) && !SectionsHaveLecture(c, lectureId) ==> r == c
  {
    if HasLecture(c.lectures, lectureId) then c.(lectures := f(c.lectures))
    else if SectionsHaveLecture(c, lectureId) then c.(sections := MapSectionsHaving(c.sections, lectureId, f))
    else c
  }

  /** `handleDeleteLecture`'s update as written. */
  function DeleteLectureAsWritten(c: Course, lectureId: string): Course {
    ChangeLectureAsWritten(c, lectureId, (ls: seq<Lecture>) => WithoutLecture(ls, lectureId))
  }

  /** `handleUpdateLecture`'s update as written. */
  function UpdateLectureAsWritten(c: Course, lectureId: string, row: Lecture): Course {
    ChangeLectureAsWritten(c, lectureId, (ls: seq<Lecture>) => ReplaceLecture(ls, lectureId, row))
  }

  /** The loaded tree lists a course's sectioned lectures twice: the nested
      `lectures (*)` of a course selects every lecture of the course, and the
      one under `sections` those of each section. */
  predicate ListsSectionedLectures(c: Course) {
    forall i, l :: 0 <= i < |c.sections| && l in c.sections[i].lectures ==> l in c.lectures
  }

  /** In a tree as loaded, deleting a lecture that belongs to a section
      removes it from the course list only: the section, which is what the
      console displays, still shows it. */
  lemma DeletedLectureStaysInSection()
    ensures var l := Lecture("L", "Limits", "", "", "", 1, Some("S"), "C");
            var c := Course("C", "Calculus", "", 1, "", [l], [Section("S", "Week 1", "", 1, "C", [l])]);
            && ListsSectionedLectures(c)
            && !HasLecture(DeleteLectureAsWritten(c, "L").lectures, "L")
            && HasLecture(DeleteLectureAsWritten(c, "L").sections[0].lectures, "L")
  {
    var l := Lecture("L", "Limits", "", "", "", 1, Some("S"), "C");
    var c := Course("C", "Calculus", "", 1, "", [l], [Section("S", "Week 1", "", 1, "C", [l])]);
    assert c.lectures[0].id == "L";
    assert DeleteLectureAsWritten(c, "L").sections == c.sections;
    assert c.sections[0].lectures[0].id == "L";
  }

  /** Likewise an edit of a sectioned lecture reaches the course list only,
      and the section keeps showing the old title. */
  lemma UpdatedLectureStaleInSection()
    ensures var l := Lecture("L", "Limits", "", "", "", 1, Some("S"), "C");
            var c := Course("C", "Calculus", "", 1, "", [l], [Section("S", "Week 1", "", 1, "C", [l])]);
            var row := l.(title := "Limits and continuity");
            && ListsSectionedLectures(c)
            && UpdateLectureAsWritten(c, "L", row).lectures == [row]
            && UpdateLectureAsWritten(c, "L", row).sections[0].lectures == [l]
  {
    var l := Lecture("L", "Limits", "", "", "", 1, Some("S"), "C");
    var c := Course("C", "Calculus", "", 1, "", [l], [Section("S", "Week 1", "", 1, "C", [l])]);
    assert c.lectures[0].id == "L";
  }

  /** The lecture delete the model uses: the lecture leaves the course list
      and every section list; every other lecture stays where it was. */
  function DeleteLecture(c: Course, lectureId: string): (r: Course)
    ensures r == c.(lectures := r.lectures, sections := r.sections)
    ensures r.lectures == WithoutLecture(c.lectures, lectureId)
    ensures |r.sections| == |c.sections|
    ensures forall i :: 0 <= i < |c.sections| ==>
      r.sections[i] == c.sections[i].(lectures := WithoutLecture(c.sections[i].lectures, lectureId))
  {
    c.(lectures := WithoutLecture(c.lectures, lectureId),
       sections := MapSectionLectures(c.sections, (ls: seq<Lecture>) => WithoutLecture(ls, lectureId)))
  }

  /** The lecture edit the model uses: every copy of the lecture, in the
      course list and in the sections, becomes the returned row. */
  function UpdateLecture(c: Course, lectureId: string, row: Lecture): (r: Course)
    ensures r == c.(lectures := r.lectures, sections := r.sections)
    ensures r.lectures == ReplaceLecture(c.lectures, lectureId, row)
    ensures |r.sections| == |c.sections|
    ensures forall i :: 0 <= i < |c.sections| ==>
      r.sections[i] == c.sections[i].(lectures := ReplaceLecture(c.sections[i].lectures, lectureId, row))
  {
    c.(lectures := ReplaceLecture(c.lectures, lectureId, row),
       sections := MapSectionLectures(c.sections, (ls: seq<Lecture>) => ReplaceLecture(ls, lectureId, row)))
  }

  /** In a tree as loaded, the corrected edit keeps the sectioned lectures
      listed in the course list too. */
  lemma UpdateKeepsSectionedLecturesListed(c: Course, lectureId: string, row: Lecture)
    requires ListsSectionedLectures(c)
    ensures ListsSectionedLectures(UpdateLecture(c, lectureId, row))
  {
    var r := UpdateLecture(c, lectureId, row);
    forall i, l | 0 <= i < |r.sections| && l in r.sections[i].lectures
      ensures l in r.lectures
    {
      var ls := c.sections[i].lectures;
      var j :| 0 <= j < |ls| && ReplaceLecture(ls, lectureId, row)[j] == l;
      assert ls[j] in c.sections[i].lectures;
      assert ls[j] in c.lectures;
      var m :| 0 <= m < |c.lectures| && c.lectures[m] == ls[j];
      assert r.lectures[m] == l;
    }
  }

  /** In a tree as loaded, the corrected delete keeps the sectioned lectures
      listed in the course list too. */
  lemma DeleteKeepsSectionedLecturesListed(c: Course, lectureId: string)
    requires ListsSectionedLectures(c)
    ensures ListsSectionedLectures(DeleteLecture(c, lectureId))
  {
  }

  // ---------------------------------------------------------------------------
  // Forms and insert requests.

  datatype CourseForm = CourseForm(title: string, description: string, semester: int, thumbnail: string)
  datatype SectionForm = SectionForm(title: string, description: string)
  datatype LectureForm = LectureForm(title: string, videoUrl: string, content: string, transcript: string)

  datatype CourseInsert = CourseInsert(title: string, description: string, semester: int, thumbnail: string)
  datatype SectionInsert = SectionInsert(title: string, description: string, order: int, courseId: string)
  datatype LectureInsert = LectureInsert(
    title: string, videoUrl: string, content: string, transcript: string,
    order: int, sectionId: Option<string>, courseId: string)

  /** The row `handleAddCourse` inserts: an empty description stays empty, a
      zero semester becomes 1, an empty thumbnail becomes the stock image. */
  function CourseInsertFor(form: CourseForm): (r: CourseInsert)
    ensures r.title == form.title && r.description == form.description
    ensures r.semester != 0 && (form.semester != 0 ==> r.semester == form.semester)
    ensures r.thumbnail != "" && (form.thumbnail != "" ==> r.thumbnail == form.thumbnail)
  {
    CourseInsert(form.title, form.description, if form.semester == 0 then 1 else form.semester,
                 if form.thumbnail == "" then DefaultThumbnail else form.thumbnail)
  }

  /** The row `handleAddSection` inserts, numbered after the course's
      sections. */
  function SectionInsertFor(cs: seq<Course>, courseId: string, form: SectionForm): (r: SectionInsert)
    ensures r.title == form.title && r.description == form.description && r.courseId == courseId
    ensures r.order >= 1 && forall s :: s in SectionsOf(cs, courseId) ==> s.order < r.order
  {
    SectionInsert(form.title, form.description, NextOrder(SectionsOf(cs, courseId), SectionOrder), courseId)
  }

  /** The row `handleAddLecture` inserts, numbered after its siblings; an
      empty section id is sent as null. */
  function LectureInsertFor(cs: seq<Course>, t: LectureTarget, form: LectureForm): (r: LectureInsert)
    ensures r.title == form.title && r.courseId == t.courseId
    ensures r.videoUrl == form.videoUrl && r.content == form.content && r.transcript == form.transcript
    ensures r.sectionId == (if InSection(t) then t.sectionId else None)
    ensures r.order >= 1 && forall l :: l in SiblingLectures(cs, t) ==> l.order < r.order
  {
    LectureInsert(form.title, form.videoUrl, form.content, form.transcript,
                  NextOrder(SiblingLectures(cs, t), LectureOrder),
                  if InSection(t) then t.sectionId else None, t.courseId)
  }

  function CourseFromRow(row: CourseRow): Course {
    Course(row.id, row.title, row.description, row.semester, row.thumbnail, [], [])
  }

  function SectionFromRow(row: SectionRow): Section {
    Section(row.id, row.title, row.description, row.order, row.courseId, [])
  }

  // ---------------------------------------------------------------------------
  // The console.

  class AdminConsole {
    var courses: seq<Course>
    var expandedCourses: set<string>
    var expandedSections: set<string>
    var error: Option<string>

    constructor ()
      ensures courses == [] && expandedCourses == {} && expandedSections == {} && error == None
    {
      courses := [];
      expandedCourses := {};
      expandedSections := {};
      error := None;
    }

    /** `loadCourses`, with the fetched tree as input (`None` when the query
        failed). */
    method LoadCourses(fetched: Option<seq<Course>>)
      modifies this
      ensures expandedCourses == old(expandedCourses) && expandedSections == old(expandedSections)
      ensures fetched.Some? ==> courses == PrepareCourses(fetched.value) && error == None
      ensures fetched.None? ==> courses == old(courses) && error == Some(LoadFailed)
    {
      error := None;
      if fetched.Some? {
        courses := PrepareCourses(fetched.value);
      } else {
        error := Some(LoadFailed);
      }
    }

    method ToggleCourseExpanded(courseId: string)
      modifies this
      ensures expandedCourses == Toggle(old(expandedCourses), courseId)
      ensures courses == old(courses) && expandedSections == old(expandedSections) && error == old(error)
    {
      expandedCourses := Toggle(expandedCourses, courseId);
    }

    method ToggleSectionExpanded(sectionId: string)
      modifies this
      ensures expandedSections == Toggle(old(expandedSections), sectionId)
      ensures courses == old(courses) && expandedCourses == old(expandedCourses) && error == old(error)
    {
      expandedSections := Toggle(expandedSections, sectionId);
    }

    /** `handleAddCourse`, with the signed-in check and the insert as inputs.
        Returns the row sent, if any. */
    method HandleAddCourse(form: CourseForm, signedIn: bool, insert: CourseInsert -> Option<CourseRow>)
      returns (sent: Option<CourseInsert>)
      modifies this
      ensures expandedSections == old(expandedSections)
      ensures form.title == "" ==> sent.None? && error == Some(CourseTitleRequired)
      ensures form.title != "" && !signedIn ==> sent.None? && error == Some(MustBeLoggedIn)
      ensures sent.None? || insert(sent.value).None? ==>
        courses == old(courses) && expandedCourses == old(expandedCourses)
      ensures form.title != "" && signedIn ==> sent == Some(CourseInsertFor(form))
      ensures sent.Some? && insert(sent.value).None? ==> error == Some(AddCourseFailed)
      ensures sent.Some? && insert(sent.value).Some? ==>
        && courses == old(courses) + [CourseFromRow(insert(sent.value).value)]
        && expandedCourses == old(expandedCourses) + {insert(sent.value).value.id}
        && error == old(error)
    {
      if form.title == "" {
        error := Some(CourseTitleRequired);
        return None;
      }
      if !signedIn {
        error := Some(MustBeLoggedIn);
        return None;
      }
      var request := CourseInsertFor(form);
      sent := Some(request);
      var row := insert(request);
      if row.None? {
        error := Some(AddCourseFailed);
        return;
      }
      courses := courses + [CourseFromRow(row.value)];
      expandedCourses := expandedCourses + {row.value.id};
    }

    /** `handleUpdateCourse`, with the updated row as input (`None` when the
        update failed). */
    method HandleUpdateCourse(courseId: string, form: CourseForm, updated: Option<CourseRow>)
      modifies this
      ensures expandedCourses == old(expandedCourses) && expandedSections == old(expandedSections)
      ensures form.title == "" ==> courses == old(courses) && error == Some(CourseTitleRequired)
      ensures form.title != "" && updated.None? ==> courses == old(courses) && error == Some(UpdateCourseFailed)
      ensures form.title != "" && updated.Some? ==>
        && courses == UpdateCourses(old(courses), courseId, (c: Course) => MergeCourse(c, updated.value))
        && error == old(error)
    {
      if form.title == "" {
        error := Some(CourseTitleRequired);
        return;
      }
      if updated.None? {
        error := Some(UpdateCourseFailed);
        return;
      }
      courses := UpdateCourses(courses, courseId, (c: Course) => MergeCourse(c, updated.value));
    }

    /** `handleDeleteCourse`, with the confirmation and the backend result as
        inputs. */
    method HandleDeleteCourse(courseId: string, confirmed: bool, deleted: bool)
      modifies this
      ensures expandedSections == old(expandedSections)
      ensures !confirmed ==> courses == old(courses) && expandedCourses == old(expandedCourses) && error == old(error)
      ensures confirmed && !deleted ==>
        courses == old(courses) && expandedCourses == old(expandedCourses) && error == Some(DeleteCourseFailed)
      ensures confirmed && deleted ==>
        && IsSubsequence(courses, old(courses))
        && (forall c :: c in courses <==> c in old(courses) && c.id != courseId)
        && (forall c :: multiset(courses)[c] == if c.id != courseId then multiset(old(courses))[c] else 0)
        && expandedCourses == old(expandedCourses) - {courseId}
        && error == old(error)
    {
      if !confirmed {
        return;
      }
      if !deleted {
        error := Some(DeleteCourseFailed);
        return;
      }
      courses := Filter(courses, (c: Course) => c.id != courseId);
      expandedCourses := expandedCourses - {courseId};
    }

    /** `handleAddSection`: the new section is numbered after the course's
        sections, appended to that course and expanded. */
    method HandleAddSection(courseId: string, form: SectionForm, insert: SectionInsert -> Option<SectionRow>)
      returns (sent: Option<SectionInsert>)
      modifies this
      ensures expandedCourses == old(expandedCourses)
      ensures form.title == "" ==> sent.None? && error == Some(SectionTitleRequired)
      ensures form.title != "" ==> sent == Some(SectionInsertFor(old(courses), courseId, form))
      ensures sent.None? || insert(sent.value).None? ==>
        courses == old(courses) && expandedSections == old(expandedSections)
      ensures sent.Some? && insert(sent.value).None? ==> error == Some(AddSectionFailed)
      ensures sent.Some? && insert(sent.value).Some? ==>
        && courses == UpdateCourses(old(courses), courseId, (c: Course) => AppendSection(c, SectionFromRow(insert(sent.value).value)))
        && expandedSections == old(expandedSections) + {insert(sent.value).value.id}
        && error == old(error)
    {
      if form.title == "" {
        error := Some(SectionTitleRequired);
        return None;
      }
      var request := SectionInsertFor(courses, courseId, form);
      sent := Some(request);
      var row := insert(request);
      if row.None? {
        error := Some(AddSectionFailed);
        return;
      }
      var section := SectionFromRow(row.value);
      courses := UpdateCourses(courses, courseId, (c: Course) => AppendSection(c, section));
      expandedSections := expandedSections + {row.value.id};
    }

    method HandleUpdateSection(sectionId: string, form: SectionForm, updated: Option<SectionRow>)
      modifies this
      ensures expandedCourses == old(expandedCourses) && expandedSections == old(expandedSections)
      ensures form.title == "" ==> courses == old(courses) && error == Some(SectionTitleRequired)
      ensures form.title != "" && updated.None? ==> courses == old(courses) && error == Some(UpdateSectionFailed)
      ensures form.title != "" && updated.Some? ==>
        courses == UpdateSection(old(courses), sectionId, updated.value) && error == old(error)
    {
      if form.title == "" {
        error := Some(SectionTitleRequired);
        return;
      }
      if updated.None? {
        error := Some(UpdateSectionFailed);
        return;
      }
      courses := UpdateSection(courses, sectionId, updated.value);
    }

    method HandleDeleteSection(sectionId: string, confirmed: bool, deleted: bool)
      modifies this
      ensures expandedCourses == old(expandedCourses)
      ensures !confirmed ==> courses == old(courses) && expandedSections == old(expandedSections) && error == old(error)
      ensures confirmed && !deleted ==>
        courses == old(courses) && expandedSections == old(expandedSections) && error == Some(DeleteSectionFailed)
      ensures confirmed && deleted ==>
        && courses == RemoveSection(old(courses), sectionId)
        && expandedSections == old(expandedSections) - {sectionId}
        && error == old(error)
    {
      if !confirmed {
        return;
      }
      if !deleted {
        error := Some(DeleteSectionFailed);
        return;
      }
      courses := RemoveSection(courses, sectionId);
      expandedSections := expandedSections - {sectionId};
    }

    /** `handleAddLecture`: does nothing unless a target is open; the new
        lecture is numbered after its siblings and appended where it
        belongs. */
    method HandleAddLecture(target: Option<LectureTarget>, form: LectureForm, insert: LectureInsert -> Option<Lecture>)
      returns (sent: Option<LectureInsert>)
      modifies this
      ensures expandedCourses == old(expandedCourses) && expandedSections == old(expandedSections)
      ensures target.None? ==> sent.None? && courses == old(courses) && error == old(error)
      ensures target.Some? && form.title == "" ==> sent.None? && error == Some(LectureTitleRequired)
      ensures target.Some? && form.title != "" ==> sent == Some(LectureInsertFor(old(courses), target.value, form))
      ensures sent.None? || insert(sent.value).None? ==> courses == old(courses)
      ensures sent.Some? && insert(sent.value).None? ==> error == Some(AddLectureFailed)
      ensures sent.Some? && insert(sent.value).Some? ==>
        && courses == UpdateCourses(old(courses), target.value.courseId,
                                    (c: Course) => AddLecture(c, target.value, insert(sent.value).value))
        && error == old(error)
    {
      if target.None? {
        return None;
      }
      if form.title == "" {
        error := Some(LectureTitleRequired);
        return None;
      }
      var t := target.value;
      var request := LectureInsertFor(courses, t, form);
      sent := Some(request);
      var row := insert(request);
      if row.None? {
        error := Some(AddLectureFailed);
        return;
      }
      var lecture := row.value;
      courses := UpdateCourses(courses, t.courseId, (c: Course) => AddLecture(c, t, lecture));
    }

    /** `handleUpdateLecture`, with every copy of the lecture updated. */
    method HandleUpdateLecture(lectureId: string, form: LectureForm, updated: Option<Lecture>)
      modifies this
      ensures expandedCourses == old(expandedCourses) && expandedSections == old(expandedSections)
      ensures form.title == "" ==> courses == old(courses) && error == Some(LectureTitleRequired)
      ensures form.title != "" && updated.None? ==> courses == old(courses) && error == Some(UpdateLectureFailed)
      ensures form.title != "" && updated.Some? ==>
        && |courses| == |old(courses)| && error == old(error)
        && forall k :: 0 <= k < |courses| ==> courses[k] == UpdateLecture(old(courses)[k], lectureId, updated.value)
    {
      if form.title == "" {
        error := Some(LectureTitleRequired);
        return;
      }
      if updated.None? {
        error := Some(UpdateLectureFailed);
        return;
      }
      var row := updated.value;
      courses := seq(|courses|, k requires 0 <= k < |courses| reads this => UpdateLecture(courses[k], lectureId, row));
    }

    /** `handleDeleteLecture`, with the lecture removed from every list. */
    method HandleDeleteLecture(lectureId: string, confirmed: bool, deleted: bool)
      modifies this
      ensures expandedCourses == old(expandedCourses) && expandedSections == old(expandedSections)
      ensures !confirmed ==> courses == old(courses) && error == old(error)
      ensures confirmed && !deleted ==> courses == old(courses) && error == Some(DeleteLectureFailed)
      ensures confirmed && deleted ==>
        && |courses| == |old(courses)| && error == old(error)
        && forall k :: 0 <= k < |courses| ==> courses[k] == DeleteLecture(old(courses)[k], lectureId)
    {
      if !confirmed {
        return;
      }
      if !deleted {
        error := Some(DeleteLectureFailed);
        return;
      }
      var before := courses;
      courses := seq(|before|, k requires 0 <= k < |before| => DeleteLecture(before[k], lectureId));
    }
  }
}
