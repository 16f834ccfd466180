/**
 * The Courses page: the enrolled-course table, sortable by any column
 * (units numerically, status by rank, every other column by collation of
 * its text).
 */
module Courses {
  import opened Wrappers
  import opened Sorting
  import opened TableSort

  datatype CourseRow = CourseRow(
    name: string,
    code: string,
    professor: string,
    schedule: string,
    room: string,
    units: int,
    status: RowStatus)

  /** `keyof CourseRow`. */
  datatype CourseSortKey = Name | Code | Professor | Schedule | Room | Units | Status

  /** The page's mock `data`. */
  const Data: seq<CourseRow> := [
    CourseRow("Data Structures", "CS201", "Dr. Santos", "Wed 3:00–5:00 PM", "Room 201", 3, Ongoing),
    CourseRow("UI/UX Intro", "DES110", "Prof. Reyes", "Tue 1:00–3:00 PM", "Room 305", 2, Ongoing),
    CourseRow("Database Systems", "CS210", "Dr. Cruz", "Thu 9:00–11:00 AM", "Lab 2", 3, Completed),
    CourseRow("Discrete Math", "MATH130", "Prof. Dela Peña", "Mon 10:00–12:00 PM", "Room 104", 3, Ongoing)
  ]

  /** `String(row[key])` for the columns compared as text. */
  function TextOf(key: CourseSortKey, c: CourseRow): string
    requires key != Units && key != Status
  {
    match key
    case Name => c.name
    case Code => c.code
    case Professor => c.professor
    case Schedule => c.schedule
    case Room => c.room
  }

  /** The comparator for one column, before the direction is applied. */
  function CourseCmp(key: CourseSortKey, collate: (string, string) -> int): (cmp: (CourseRow, CourseRow) -> int)
    ensures key == Units ==> forall a, b :: cmp(a, b) == a.units - b.units
    ensures key == Status ==> forall a, b :: cmp(a, b) == StatusRank(a.status) - StatusRank(b.status)
    ensures key != Units && key != Status ==> forall a, b :: cmp(a, b) == collate(TextOf(key, a), TextOf(key, b))
  {
    match key
    case Units => ByInt((c: CourseRow) => c.units)
    case Status => ByInt((c: CourseRow) => StatusRank(c.status))
    case _ => Through(collate, (c: CourseRow) => TextOf(key, c))
  }

  /** `a` is not after `b` in ascending order of the column `key`. */
  ghost predicate InKeyOrder(key: CourseSortKey, collate: (string, string) -> int, a: CourseRow, b: CourseRow) {
    match key
    case Units => a.units <= b.units
    case Status => StatusRank(a.status) <= StatusRank(b.status)
    case _ => collate(TextOf(key, a), TextOf(key, b)) <= 0
  }

  /** `sorted`: a copy of `data` in its order until a column is chosen, else a reordering of the same rows. */
  function SortedCourses(data: seq<CourseRow>, st: SortState<CourseSortKey>, collate: (string, string) -> int)
    : (r: seq<CourseRow>)
    ensures multiset(r) == multiset(data)
    ensures st.key.None? || st.direction.None? ==> r == data
  {
    if st.key.None? || st.direction.None? then data
    else SortBy(data, Directed(CourseCmp(st.key.value, collate), st.direction.value))
  }

  lemma CourseCmpIsComparator(key: CourseSortKey, collate: (string, string) -> int)
    requires IsComparator(collate)
    ensures IsComparator(CourseCmp(key, collate))
  {
    match key
    case Units => ByIntIsComparator((c: CourseRow) => c.units);
    case Status => ByIntIsComparator((c: CourseRow) => StatusRank(c.status));
    case _ => ThroughIsComparator(collate, (c: CourseRow) => TextOf(key, c));
  }

  /**
   * With a column and a direction chosen, the rows come out in ascending
   * order of that column for "asc" and in descending order for "desc".
   */
  lemma SortedCoursesOrdered(data: seq<CourseRow>, st: SortState<CourseSortKey>, collate: (string, string) -> int)
    requires IsComparator(collate)
    requires st.key.Some? && st.direction.Some?
    ensures st.direction == Some(Asc) ==>
      forall i, j :: 0 <= i < j < |data| ==>
        InKeyOrder(st.key.value, collate, SortedCourses(data, st, collate)[i], SortedCourses(data, st, collate)[j])
    ensures st.direction == Some(Desc) ==>
      forall i, j :: 0 <= i < j < |data| ==>
        InKeyOrder(st.key.value, collate, SortedCourses(data, st, collate)[j], SortedCourses(data, st, collate)[i])
  {
    var key, d := st.key.value, st.direction.value;
    var cmp := CourseCmp(key, collate);
    CourseCmpIsComparator(key, collate);
    DirectedIsComparator(cmp, d);
    var r := SortedCourses(data, st, collate);
    SortBySorted(data, Directed(cmp, d));
    forall i, j | 0 <= i < j < |data|
      ensures d == Asc ==> InKeyOrder(key, collate, r[i], r[j])
      ensures d == Desc ==> InKeyOrder(key, collate, r[j], r[i])
    {
      assert Directed(cmp, d)(r[i], r[j]) <= 0;
      if d == Desc {
        assert cmp(r[j], r[i]) <= 0;
      }
    }
  }

  /** "No courses found." is shown exactly when there is no course to list, whatever the sort. */
  lemma NoCoursesRowIff(data: seq<CourseRow>, st: SortState<CourseSortKey>, collate: (string, string) -> int)
    ensures |SortedCourses(data, st, collate)| == 0 <==> data == []
  {
    var r := SortedCourses(data, st, collate);
    assert |multiset(r)| == |multiset(data)|;
  }

  /** The page's state: the two sort fields over the fixed course list. */
  class CoursesPage {
    const data: seq<CourseRow>
    const collate: (string, string) -> int
    var sortKey: Option<CourseSortKey>
    var direction: Option<Direction>

    function State(): SortState<CourseSortKey>
      reads this
    {
      SortState(sortKey, direction)
    }

    constructor (collate: (string, string) -> int)
      ensures data == Data && this.collate == collate
      ensures State() == Initial()
    {
      data := Data;
      this.collate := collate;
      sortKey, direction := None, None;
    }

    /** `toggleSort(key)`. */
    method ToggleSort(k: CourseSortKey)
      modifies this
      ensures State() == Toggle(old(State()), k)
    {
      var next := Toggle(State(), k);
      sortKey, direction := next.key, next.direction;
    }

    function Sorted(): (r: seq<CourseRow>)
      reads this
      ensures multiset(r) == multiset(data)
    {
      SortedCourses(data, State(), collate)
    }

    function AriaSort(k: CourseSortKey): (r: string)
      reads this
      ensures r != "none" <==> sortKey == Some(k) && direction.Some?
    {
      AriaSortFor(State(), k)
    }
  }
}
