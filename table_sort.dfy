/**
 * The column-sort controls that the Modules and Courses pages both carry
 * (each page has its own copy of `toggleSort` and `ariaSortFor` over its own
 * key type): a two-field state machine over the active key and the direction,
 * the `aria-sort` value of a column header, and the status rank both tables
 * sort by.
 */
module TableSort {
  import opened Wrappers
  import opened Sorting

  datatype Direction = Asc | Desc

  /** `sortKey` and `direction`, both `null` until a header is first clicked. */
  datatype SortState<K> = SortState(key: Option<K>, direction: Option<Direction>)

  function Initial<K>(): (s: SortState<K>)
    ensures s.key == None && s.direction == None
  {
    SortState(None, None)
  }

  /** Either no column is active, or one is, with a direction. */
  predicate Consistent<K>(s: SortState<K>) {
    s.key.Some? <==> s.direction.Some?
  }

  /** `toggleSort(key)`: a new column starts descending; the active column flips. */
  function Toggle<K(==)>(s: SortState<K>, k: K): (r: SortState<K>)
    ensures r.key == Some(k) && r.direction.Some?
    ensures s.key != Some(k) ==> r.direction == Some(Desc)
    ensures s.key == Some(k) && s.direction == Some(Desc) ==> r.direction == Some(Asc)
    ensures s.key == Some(k) && s.direction == Some(Asc) ==> r.direction == Some(Desc)
  {
    if s.key != Some(k) then SortState(Some(k), Some(Desc))
    else SortState(s.key, if s.direction == Some(Desc) then Some(Asc) else Some(Desc))
  }

  /** Toggling keeps the state consistent: a key is always set together with a direction. */
  lemma ToggleConsistent<K>(s: SortState<K>, k: K)
    ensures Consistent(Toggle(s, k))
  {
  }

  /** Clicking the active column twice returns to where it was. */
  lemma ToggleTwiceRestores<K>(s: SortState<K>, k: K)
    requires s.key == Some(k) && s.direction.Some?
    ensures Toggle(Toggle(s, k), k) == s
  {
    match s.direction.value
    case Asc => assert Toggle(s, k) == SortState(Some(k), Some(Desc));
    case Desc => assert Toggle(s, k) == SortState(Some(k), Some(Asc));
  }

  /** Clicking the same column repeatedly alternates the direction. */
  lemma ToggleAlternates<K>(s: SortState<K>, k: K)
    ensures Toggle(Toggle(s, k), k).direction != Toggle(s, k).direction
    ensures Toggle(Toggle(s, k), k).key == Some(k)
  {
  }

  /** `ariaSortFor(key)`: the `aria-sort` attribute of a column header. */
  function AriaSortFor<K(==)>(s: SortState<K>, k: K): (r: string)
    ensures r == "none" || r == "ascending" || r == "descending"
    ensures r != "none" <==> s.key == Some(k) && s.direction.Some?
    ensures r == "ascending" <==> s.key == Some(k) && s.direction == Some(Asc)
    ensures r == "descending" <==> s.key == Some(k) && s.direction == Some(Desc)
  {
    assert |"none"| == 4 && |"ascending"| == 9 && |"descending"| == 10;
    if s.key != Some(k) || s.direction.None? then "none"
    else match s.direction.value
      case Asc => "ascending"
      case Desc => "descending"
  }

  /** At most one column header announces a sort order. */
  lemma AtMostOneHeaderSorted<K>(s: SortState<K>, k1: K, k2: K)
    requires AriaSortFor(s, k1) != "none" && AriaSortFor(s, k2) != "none"
    ensures k1 == k2
  {
  }

  /** `direction === "asc" ? cmp : -cmp`: the comparator handed to the sort. */
  function Directed<T(!new)>(cmp: (T, T) -> int, d: Direction): (r: (T, T) -> int)
    ensures forall a, b :: r(a, b) == if d == Asc then cmp(a, b) else -cmp(a, b)
  {
    match d
    case Asc => cmp
    case Desc => Negated(cmp)
  }

  /** Either direction of a consistent comparator is consistent. */
  lemma DirectedIsComparator<T(!new)>(cmp: (T, T) -> int, d: Direction)
    requires IsComparator(cmp)
    ensures IsComparator(Directed(cmp, d))
  {
    if d == Desc {
      NegatedIsComparator(cmp);
    }
  }

  /** The row status shared by both tables. */
  datatype RowStatus = Ongoing | Completed

  /** `statusRank`: Ongoing sorts before Completed. */
  function StatusRank(s: RowStatus): (r: int)
    ensures 1 <= r <= 2
    ensures r == 1 <==> s == Ongoing
  {
    match s
    case Ongoing => 1
    case Completed => 2
  }
}
