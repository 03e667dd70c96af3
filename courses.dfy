/** Victorian course data and the lookups the scorecard makes over it: search by text, lookup
    by id, and a tee's pars with their total. The course list is fixed when the service is made. */
module Courses {
  import opened Wrappers
  import opened Text
  import opened Seqs

  /** One tee of a course: its name and per-hole data. */
  datatype TeePars = TeePars(
    name: string,
    par: seq<int>,
    yardage: Option<seq<int>>,
    strokeIndex: Option<seq<int>>,
    slope: Option<int>)

  datatype VicCourse = VicCourse(
    id: string,
    club: string,
    course: string,
    suburb: string,
    state: string,
    tees: seq<TeePars>)

  /** A non-blank query matches a course when the lower-cased club, course or suburb
      includes the lower-cased query. */
  predicate Matches(c: VicCourse, lowerQuery: string)
    ensures Matches(c, lowerQuery) <==>
      || (exists i :: OccursAt(Lower(c.club), lowerQuery, i))
      || (exists i :: OccursAt(Lower(c.course), lowerQuery, i))
      || (exists i :: OccursAt(Lower(c.suburb), lowerQuery, i))
  {
    ContainsOccurs(Lower(c.club), lowerQuery);
    ContainsOccurs(Lower(c.course), lowerQuery);
    ContainsOccurs(Lower(c.suburb), lowerQuery);
    Contains(Lower(c.club), lowerQuery)
    || Contains(Lower(c.course), lowerQuery)
    || Contains(Lower(c.suburb), lowerQuery)
  }

  /** A query is blank when it is absent, empty or only white space (`!query || query.trim() === ''`). */
  predicate IsBlankQuery(query: Option<string>)
    ensures IsBlankQuery(query) <==> query.None? || forall i :: 0 <= i < |query.value| ==> IsSpace(query.value[i])
  {
    query.None? || (TrimEmpty(query.value); Trim(query.value) == [])
  }

  datatype CourseService = CourseService(courses: seq<VicCourse>) {

    /** `listVicCourses`: every course for a blank query; otherwise the courses that match the
        lower-cased query (untrimmed), in list order. */
    function ListVicCourses(query: Option<string>): (r: seq<VicCourse>)
      ensures IsBlankQuery(query) ==> r == courses
      ensures !IsBlankQuery(query) ==>
        && Subsequence(r, courses)
        && (forall i :: 0 <= i < |r| ==> Matches(r[i], Lower(query.value)))
        && (forall i :: 0 <= i < |courses| && Matches(courses[i], Lower(query.value)) ==> courses[i] in r)
        && (forall i :: 0 <= i < |courses| && Matches(courses[i], Lower(query.value)) ==>
              multiset(r)[courses[i]] == multiset(courses)[courses[i]])
    {
      if IsBlankQuery(query) then courses
      else
        var lowerQuery := Lower(query.value);
        Filter(courses, c => Matches(c, lowerQuery))
    }

    /** `getCourseById`: the first course with that id, or none exactly when no course has it. */
    function GetCourseById(id: string): (r: Option<VicCourse>)
      ensures r.None? <==> forall i :: 0 <= i < |courses| ==> courses[i].id != id
      ensures r.Some? ==> exists i :: 0 <= i < |courses| && courses[i] == r.value && r.value.id == id
                                        && forall j :: 0 <= j < i ==> courses[j].id != id
    {
      match FirstWhere(courses, (c: VicCourse) => c.id == id)
      case None => None
      case Some(i) => Some(courses[i])
    }
  }

  /** `getTee`: the first tee with that name, or none exactly when no tee has it. */
  function GetTee(course: VicCourse, teeName: string): (r: Option<TeePars>)
    ensures r.None? <==> forall i :: 0 <= i < |course.tees| ==> course.tees[i].name != teeName
    ensures r.Some? ==> exists i :: 0 <= i < |course.tees| && course.tees[i] == r.value && r.value.name == teeName
                                      && forall j :: 0 <= j < i ==> course.tees[j].name != teeName
  {
    match FirstWhere(course.tees, (t: TeePars) => t.name == teeName)
    case None => None
    case Some(i) => Some(course.tees[i])
  }

  /** `getPars`: the named tee's pars; failing that, the first tee's; failing that, none. */
  function GetPars(course: VicCourse, teeName: string): (pars: seq<int>)
    ensures GetTee(course, teeName).Some? ==> pars == GetTee(course, teeName).value.par
    ensures GetTee(course, teeName).None? && course.tees != [] ==> pars == course.tees[0].par
    ensures course.tees == [] ==> pars == []
  {
    match GetTee(course, teeName)
    case Some(tee) => tee.par
    case None => if course.tees != [] then course.tees[0].par else []
  }

  /** `getTotalPar`: the sum of the pars `getPars` picks. */
  function GetTotalPar(course: VicCourse, teeName: string): (total: int)
    ensures course.tees == [] ==> total == 0
  {
    Sum(GetPars(course, teeName))
  }

  /** An 18-hole tee whose holes are all par 3 to 5 has a total par between 54 and 90. */
  lemma TotalParBounds(course: VicCourse, teeName: string)
    requires |GetPars(course, teeName)| == 18
    requires forall i :: 0 <= i < 18 ==> 3 <= GetPars(course, teeName)[i] <= 5
    ensures 54 <= GetTotalPar(course, teeName) <= 90
  {
    SumBounds(GetPars(course, teeName), 3, 5);
  }

  /** Searching is case-insensitive in the query: lower-casing it first changes nothing. */
  lemma ListIgnoresQueryCase(service: CourseService, query: string)
    ensures service.ListVicCourses(Some(Lower(query))) == service.ListVicCourses(Some(query))
  {
    TrimEmpty(query);
    TrimEmpty(Lower(query));
    LowerIdempotent(query);
  }
}
