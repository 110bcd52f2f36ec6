/** The course catalogue page (src/pages/CoursesPage.tsx): filtering the
    fetched courses by semester and search text, and the list of semesters the
    filter offers. */
module CoursesPage {
  import opened Wrappers
  import opened JsText
  import opened Domain
  import opened Seqs

  /** The semester selector: 'all' or one semester number. */
  datatype SemesterFilter = AllSemesters | OnlySemester(semester: int)

  predicate InSemester(c: Course, f: SemesterFilter) {
    f.AllSemesters? || c.semester == f.semester
  }

  /** The search test for an already lower-cased needle: it occurs in the
      lower-cased title, or in the lower-cased description when there is one. */
  predicate MatchesSearch(c: Course, needle: string) {
    Includes(ToLower(c.title), needle) || (c.description != "" && Includes(ToLower(c.description), needle))
  }

  /** Whether a course is listed: right semester, and, for a query that is
      not blank, a match for the query lower-cased but not trimmed. */
  predicate Listed(c: Course, f: SemesterFilter, query: string) {
    InSemester(c, f) && (IsBlank(query) || MatchesSearch(c, ToLower(query)))
  }

  /** `filterCourses`: the listed courses, in their fetched order. */
  function FilterCourses(courses: seq<Course>, f: SemesterFilter, query: string): (r: seq<Course>)
    ensures IsSubsequence(r, courses)
    ensures forall c :: c in r <==> c in courses && Listed(c, f, query)
    ensures forall c :: multiset(r)[c] == if Listed(c, f, query) then multiset(courses)[c] else 0
  {
    if f.AllSemesters? then
      if IsBlank(query) then SubsequenceOfSelf(courses); courses
      else
        var needle := ToLower(query);
        Filter(courses, (c: Course) => MatchesSearch(c, needle))
    else
      var n := f.semester;
      var bySemester := Filter(courses, (c: Course) => c.semester == n);
      if IsBlank(query) then bySemester
      else
        var needle := ToLower(query);
        FilterFusion(courses, (c: Course) => c.semester == n, (c: Course) => MatchesSearch(c, needle),
                     (c: Course) => c.semester == n && MatchesSearch(c, needle));
        Filter(bySemester, (c: Course) => MatchesSearch(c, needle))
  }

  /** With no semester chosen and a blank query the whole catalogue is listed,
      in order. */
  lemma NoFilterListsAll(courses: seq<Course>, query: string)
    requires IsBlank(query)
    ensures FilterCourses(courses, AllSemesters, query) == courses
  {
  }

  /** Surrounding blanks are not trimmed from a non-blank query: a query that
      starts with a blank lists no course whose title and description hold no
      blank, whatever the trimmed query would have matched. */
  lemma QueryIsNotTrimmed(courses: seq<Course>, f: SemesterFilter, query: string, c: Course)
    requires |query| > 0 && IsJsWhitespace(query[0]) && !IsBlank(query)
    requires forall i :: 0 <= i < |c.title| ==> !IsJsWhitespace(c.title[i])
    requires forall i :: 0 <= i < |c.description| ==> !IsJsWhitespace(c.description[i])
    ensures c !in FilterCourses(courses, f, query)
  {
    NoBlankNoMatch(c.title, query);
    NoBlankNoMatch(c.description, query);
  }

  /** Lower-casing keeps blanks and non-blanks apart, so a needle that starts
      with a blank does not occur in a text without one. */
  lemma NoBlankNoMatch(text: string, query: string)
    requires |query| > 0 && IsJsWhitespace(query[0])
    requires forall i :: 0 <= i < |text| ==> !IsJsWhitespace(text[i])
    ensures !Includes(ToLower(text), ToLower(query))
  {
    forall i: nat | i < |text|
      ensures !OccursAt(ToLower(text), i, ToLower(query))
    {
      assert IsJsWhitespace(ToLower(query)[0]) && !IsJsWhitespace(ToLower(text)[i]);
    }
  }

  /** The semester list of `loadCourses`: 1 up to the larger of 4 and the
      highest course semester. */
  function AvailableSemesters(courses: seq<Course>): (r: seq<int>)
    ensures |r| >= 4
    ensures forall i :: 0 <= i < |r| ==> r[i] == i + 1
    ensures forall c :: c in courses && c.semester >= 1 ==> c.semester in r
    ensures |r| == 4 || exists c :: c in courses && c.semester == |r|
  {
    var highest := Max(MaxKey(courses, (c: Course) => c.semester), 4);
    var r := seq(highest, i requires 0 <= i < highest => i + 1);
    assert forall c :: c in courses && c.semester >= 1 ==> r[c.semester - 1] == c.semester;
    r
  }
}
