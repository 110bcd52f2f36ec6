/** The course outline page (src/pages/CourseLecturesPage.tsx): the course's
    sections and lectures in order, every section expanded at first, and the
    lectures grouped under their sections, with the unsectioned ones apart.
    The course row is an input. */
module CourseLecturesPage {
  import opened Wrappers
  import opened Domain
  import opened Seqs

  /** The fetched course with its sections and lectures sorted by order. */
  function PrepareCourse(c: Course): (r: Course)
    ensures r == c.(sections := r.sections, lectures := r.lectures)
    ensures SortedBy(r.sections, SectionOrder) && multiset(r.sections) == multiset(c.sections)
    ensures SortedBy(r.lectures, LectureOrder) && multiset(r.lectures) == multiset(c.lectures)
  {
    SortByIsSortedPermutation(c.sections, SectionOrder);
    SortByIsSortedPermutation(c.lectures, LectureOrder);
    c.(sections := SortBy(c.sections, SectionOrder), lectures := SortBy(c.lectures, LectureOrder))
  }

  /** `new Set(sections.map(s => s.id))` */
  function SectionIds(ss: seq<Section>): (r: set<string>)
    ensures forall i :: 0 <= i < |ss| ==> ss[i].id in r
    ensures forall id :: id in r ==> exists i :: 0 <= i < |ss| && ss[i].id == id
  {
    set i | 0 <= i < |ss| :: ss[i].id
  }

  /** `!lecture.section_id`: no section, or an empty id. */
  predicate Unsectioned(l: Lecture) {
    l.sectionId.None? || l.sectionId.value == ""
  }

  /** The lectures listed apart from the sections, in course order. */
  function UnsectionedLectures(ls: seq<Lecture>): (r: seq<Lecture>)
    ensures IsSubsequence(r, ls)
    ensures forall l :: l in r <==> l in ls && Unsectioned(l)
    ensures forall l :: multiset(r)[l] == if Unsectioned(l) then multiset(ls)[l] else 0
  {
    Filter(ls, (l: Lecture) => Unsectioned(l))
  }

  /** The lectures listed under a section: those whose section id is the
      section's, in course order. */
  function SectionLectures(ls: seq<Lecture>, sectionId: string): (r: seq<Lecture>)
    ensures IsSubsequence(r, ls)
    ensures forall l :: l in r <==> l in ls && l.sectionId == Some(sectionId)
    ensures forall l :: multiset(r)[l] == if l.sectionId == Some(sectionId) then multiset(ls)[l] else 0
  {
    Filter(ls, (l: Lecture) => l.sectionId == Some(sectionId))
  }

  /** The sections drawn: those with at least one lecture. */
  function VisibleSections(c: Course): (r: seq<Section>)
    ensures IsSubsequence(r, c.sections)
    ensures forall s :: s in r <==> s in c.sections && SectionLectures(c.lectures, s.id) != []
    ensures forall s :: multiset(r)[s] == if SectionLectures(c.lectures, s.id) != [] then multiset(c.sections)[s] else 0
  {
    Filter(c.sections, (s: Section) => SectionLectures(c.lectures, s.id) != [])
  }

  /** A lecture of the course appears under a visible section exactly when
      its section id names a section of the course, and apart from the
      sections exactly when it has no section id; a lecture whose section id
      names no section of the course is not shown at all. */
  lemma WhereALectureIsShown(c: Course, l: Lecture)
    requires l in c.lectures
    ensures l in UnsectionedLectures(c.lectures) <==> Unsectioned(l)
    ensures forall s :: s in VisibleSections(c) ==> (l in SectionLectures(c.lectures, s.id) <==> l.sectionId == Some(s.id))
    ensures !Unsectioned(l) && (forall s :: s in c.sections ==> l.sectionId != Some(s.id)) ==>
      && l !in UnsectionedLectures(c.lectures)
      && forall s :: s in VisibleSections(c) ==> l !in SectionLectures(c.lectures, s.id)
    ensures forall s :: s in c.sections && l.sectionId == Some(s.id) ==>
      s in VisibleSections(c) && l in SectionLectures(c.lectures, s.id)
  {
    forall s | s in c.sections && l.sectionId == Some(s.id)
      ensures s in VisibleSections(c) && l in SectionLectures(c.lectures, s.id)
    {
      assert l in SectionLectures(c.lectures, s.id);
    }
  }

  /** The groups keep the sorted order of the course's lectures. */
  lemma GroupsAreSorted(c: Course, sectionId: string)
    requires SortedBy(c.lectures, LectureOrder)
    ensures SortedBy(UnsectionedLectures(c.lectures), LectureOrder)
    ensures SortedBy(SectionLectures(c.lectures, sectionId), LectureOrder)
  {
    FilterKeepsSorted(c.lectures, (l: Lecture) => Unsectioned(l), LectureOrder);
    FilterKeepsSorted(c.lectures, (l: Lecture) => l.sectionId == Some(sectionId), LectureOrder);
  }

  /** Reordering the sections does not change the set of their ids. */
  lemma SameSectionsSameIds(a: seq<Section>, b: seq<Section>)
    requires multiset(a) == multiset(b)
    ensures SectionIds(a) == SectionIds(b)
  {
    forall id | id in SectionIds(a) ensures id in SectionIds(b) {
      var i :| 0 <= i < |a| && a[i].id == id;
      assert a[i] in multiset(b);
      var j :| 0 <= j < |b| && b[j] == a[i];
    }
    forall id | id in SectionIds(b) ensures id in SectionIds(a) {
      var j :| 0 <= j < |b| && b[j].id == id;
      assert b[j] in multiset(a);
      var i :| 0 <= i < |a| && a[i] == b[j];
    }
  }

  /** The page's state once the course is loaded. */
  class CourseOutline {
    var course: Option<Course>
    var expandedSections: set<string>

    constructor ()
      ensures course == None && expandedSections == {}
    {
      course := None;
      expandedSections := {};
    }

    /** The fetch completing: the sorted course, with every section expanded. */
    method Load(fetched: Course)
      modifies this
      ensures course == Some(PrepareCourse(fetched))
      ensures expandedSections == SectionIds(fetched.sections)
    {
      var prepared := PrepareCourse(fetched);
      SameSectionsSameIds(prepared.sections, fetched.sections);
      course := Some(prepared);
      expandedSections := SectionIds(prepared.sections);
    }

    /** `toggleSection` */
    method ToggleSection(sectionId: string)
      modifies this
      ensures expandedSections == Toggle(old(expandedSections), sectionId)
      ensures course == old(course)
    {
      expandedSections := Toggle(expandedSections, sectionId);
    }
  }
}
