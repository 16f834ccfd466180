/**
 * The Modules page of one course: the course lookup, the sortable module
 * table (by title, status or progress/score), and the accordion that groups
 * the sorted rows by term in a fixed term order.
 */
module Modules {
  import opened Wrappers
  import opened Sorting
  import opened TableSort
  import opened JsObject

  datatype Term = Prelim | Midterms | Prefinals | Finals

  datatype AssignmentLink = AssignmentLink(title: string, url: string)

  /** One row of the table; a missing `assignments` list is the empty one. */
  datatype ModuleRow = ModuleRow(
    title: string,
    status: RowStatus,
    score: Option<int>,
    progress: int,
    handoutUrl: Option<string>,
    term: Term,
    assignments: seq<AssignmentLink>)

  datatype ModuleSortKey = Title | Status | ProgressScore

  /** `MODULES_BY_COURSE`: the mock data, by course code. */
  function ModulesByCourse(): map<string, seq<ModuleRow>> {
    map[
      "CS201" := [
        ModuleRow("Arrays & Lists", Completed, Some(92), 100, Some("/handouts/cs201-arrays-lists.pdf"), Prelim,
          [AssignmentLink("Array Drills", "/assignments/cs201-array-drills"),
           AssignmentLink("List Ops", "/assignments/cs201-list-ops")]),
        ModuleRow("Stacks & Queues", Ongoing, None, 40, Some("/handouts/cs201-stacks-queues.pdf"), Midterms,
          [AssignmentLink("Queue Simulator", "/assignments/cs201-queue-sim")]),
        ModuleRow("Trees & Graphs", Ongoing, None, 10, None, Prefinals,
          [AssignmentLink("BST Basics", "/assignments/cs201-bst-basics")])
      ],
      "DES110" := [
        ModuleRow("Flexbox Layout", Ongoing, None, 60, Some("/handouts/des110-flexbox-layout.pdf"), Prelim,
          [AssignmentLink("Flex Demo Page", "/assignments/des110-flex-demo")]),
        ModuleRow("Color & Contrast", Ongoing, None, 20, None, Midterms,
          [AssignmentLink("Color Tokens", "/assignments/des110-color-tokens")])
      ],
      "CS210" := [
        ModuleRow("SQL Joins", Completed, Some(88), 100, Some("/handouts/cs210-sql-joins.pdf"), Prelim,
          [AssignmentLink("Join Practice", "/assignments/cs210-join-practice")]),
        ModuleRow("Indexes & Query Plans", Ongoing, None, 30, Some("/handouts/cs210-indexes-query-plans.pdf"), Finals,
          [AssignmentLink("Explain Plan", "/assignments/cs210-explain-plan")])
      ],
      "MATH130" := [
        ModuleRow("Set Theory Basics", Ongoing, None, 50, Some("/handouts/math130-set-theory-basics.pdf"), Prelim,
          [AssignmentLink("Set Proofs 1", "/assignments/math130-set-proofs-1")])
      ]
    ]
  }

  /**
   * What `MODULES_BY_COURSE[courseCode] ?? []` gives the page: the rows to
   * list, or an error when the code names a member inherited from
   * `Object.prototype` (not nullish, so `??` keeps it, and the first render's
   * `modules.slice()` throws).
   */
  datatype CourseModules = Listed(rows: seq<ModuleRow>) | RenderError

  /** An unknown course lists no modules, every known one lists some, and an inherited name fails to render. */
  function ModulesFor(code: string): (r: CourseModules)
    ensures r == Listed([]) <==> code !in ModulesByCourse() && code !in PrototypeNames
    ensures code in ModulesByCourse() ==> r == Listed(ModulesByCourse()[code])
    ensures r.RenderError? <==> code !in ModulesByCourse() && code in PrototypeNames
  {
    match Get(ModulesByCourse(), code)
    case Own(rows) => Listed(rows)
    case Inherited(_) => RenderError
    case Undefined => Listed([])
  }

  /** `valueOfProgressScore`: the score of a completed module (none counts as 0), else its progress. */
  function ValueOfProgressScore(m: ModuleRow): (v: int)
    ensures m.status == Ongoing ==> v == m.progress
    ensures m.status == Completed && m.score.Some? ==> v == m.score.value
    ensures m.status == Completed && m.score.None? ==> v == 0
  {
    if m.status == Completed then m.score.GetOr(0) else m.progress
  }

  /** The comparator for one column, before the direction is applied. */
  function ModuleCmp(key: ModuleSortKey, collate: (string, string) -> int): (cmp: (ModuleRow, ModuleRow) -> int)
    ensures key == Title ==> forall a, b :: cmp(a, b) == collate(a.title, b.title)
    ensures key == Status ==> forall a, b :: cmp(a, b) == StatusRank(a.status) - StatusRank(b.status)
    ensures key == ProgressScore ==> forall a, b :: cmp(a, b) == ValueOfProgressScore(a) - ValueOfProgressScore(b)
  {
    match key
    case Title => Through(collate, (m: ModuleRow) => m.title)
    case Status => ByInt((m: ModuleRow) => StatusRank(m.status))
    case ProgressScore => ByInt(ValueOfProgressScore)
  }

  /** `a` is not after `b` in ascending order of the column `key`. */
  ghost predicate InKeyOrder(key: ModuleSortKey, collate: (string, string) -> int, a: ModuleRow, b: ModuleRow) {
    match key
    case Title => collate(a.title, b.title) <= 0
    case Status => StatusRank(a.status) <= StatusRank(b.status)
    case ProgressScore => ValueOfProgressScore(a) <= ValueOfProgressScore(b)
  }

  /** `sorted`: a copy in the original order until a column is chosen, else a reordering of the same rows. */
  function SortedModules(modules: seq<ModuleRow>, st: SortState<ModuleSortKey>, collate: (string, string) -> int)
    : (r: seq<ModuleRow>)
    ensures multiset(r) == multiset(modules)
    ensures st.key.None? || st.direction.None? ==> r == modules
  {
    if st.key.None? || st.direction.None? then modules
    else SortBy(modules, Directed(ModuleCmp(st.key.value, collate), st.direction.value))
  }

  lemma ModuleCmpIsComparator(key: ModuleSortKey, collate: (string, string) -> int)
    requires IsComparator(collate)
    ensures IsComparator(ModuleCmp(key, collate))
  {
    match key
    case Title => ThroughIsComparator(collate, (m: ModuleRow) => m.title);
    case Status => ByIntIsComparator((m: ModuleRow) => StatusRank(m.status));
    case ProgressScore => ByIntIsComparator(ValueOfProgressScore);
  }

  /**
   * With a column and a direction chosen, the rows come out in ascending
   * order of that column for "asc" and in descending order for "desc".
   */
  lemma SortedModulesOrdered(modules: seq<ModuleRow>, st: SortState<ModuleSortKey>, collate: (string, string) -> int)
    requires IsComparator(collate)
    requires st.key.Some? && st.direction.Some?
    ensures st.direction == Some(Asc) ==>
      forall i, j :: 0 <= i < j < |modules| ==>
        InKeyOrder(st.key.value, collate, SortedModules(modules, st, collate)[i], SortedModules(modules, st, collate)[j])
    ensures st.direction == Some(Desc) ==>
      forall i, j :: 0 <= i < j < |modules| ==>
        InKeyOrder(st.key.value, collate, SortedModules(modules, st, collate)[j], SortedModules(modules, st, collate)[i])
  {
    var key, d := st.key.value, st.direction.value;
    var cmp := ModuleCmp(key, collate);
    ModuleCmpIsComparator(key, collate);
    DirectedIsComparator(cmp, d);
    var r := SortedModules(modules, st, collate);
    SortBySorted(modules, Directed(cmp, d));
    forall i, j | 0 <= i < j < |modules|
      ensures d == Asc ==> InKeyOrder(key, collate, r[i], r[j])
      ensures d == Desc ==> InKeyOrder(key, collate, r[j], r[i])
    {
      assert Directed(cmp, d)(r[i], r[j]) <= 0;
      if d == Desc {
        assert cmp(r[j], r[i]) <= 0;
      }
    }
  }

  /** The rows of one term, in the order given (`groups[m.term].push(m)` for the rows of that term). */
  function OfTerm(rows: seq<ModuleRow>, t: Term): (r: seq<ModuleRow>)
    ensures |r| <= |rows|
    ensures forall m :: m in r <==> m in rows && m.term == t
  {
    if rows == [] then []
    else OfTerm(rows[..|rows| - 1], t) + (if rows[|rows| - 1].term == t then [rows[|rows| - 1]] else [])
  }

  const AllTerms: set<Term> := {Prelim, Midterms, Prefinals, Finals}

  lemma TermInAllTerms(t: Term)
    ensures t in AllTerms
  {
    match t
    case Prelim =>
    case Midterms =>
    case Prefinals =>
    case Finals =>
  }

  /** `grouped`: one pass over the sorted rows, pushing each onto the list of its term. */
  method GroupByTerm(sorted: seq<ModuleRow>) returns (groups: map<Term, seq<ModuleRow>>)
    ensures groups.Keys == AllTerms
    ensures forall t :: t in groups ==> groups[t] == OfTerm(sorted, t)
  {
    groups := map[Prelim := [], Midterms := [], Prefinals := [], Finals := []];
    for i := 0 to |sorted|
      invariant groups.Keys == AllTerms
      invariant forall t :: t in groups ==> groups[t] == OfTerm(sorted[..i], t)
    {
      var m := sorted[i];
      TermInAllTerms(m.term);
      assert sorted[..i + 1][..i] == sorted[..i];
      groups := groups[m.term := groups[m.term] + [m]];
    }
    assert sorted[..|sorted|] == sorted;
  }

  /** Grouping keeps order: the group of a concatenation is the concatenation of the groups. */
  lemma {:induction false} OfTermAppend(a: seq<ModuleRow>, b: seq<ModuleRow>, t: Term)
    ensures OfTerm(a + b, t) == OfTerm(a, t) + OfTerm(b, t)
    decreases |b|
  {
    if b != [] {
      var b' := b[..|b| - 1];
      assert (a + b)[..|a + b| - 1] == a + b';
      OfTermAppend(a, b', t);
    } else {
      assert a + b == a;
    }
  }

  /** Every row lands in exactly the group of its own term, as often as it occurs. */
  lemma {:induction false} OfTermCounts(rows: seq<ModuleRow>, t: Term, m: ModuleRow)
    ensures multiset(OfTerm(rows, t))[m] == if m.term == t then multiset(rows)[m] else 0
    decreases |rows|
  {
    if rows != [] {
      var init := rows[..|rows| - 1];
      OfTermCounts(init, t, m);
      assert rows == init + [rows[|rows| - 1]];
    }
  }

  /** The four groups together hold every row once: their sizes add up to the total. */
  lemma {:induction false} GroupSizesSum(rows: seq<ModuleRow>)
    ensures |OfTerm(rows, Prelim)| + |OfTerm(rows, Midterms)| + |OfTerm(rows, Prefinals)| + |OfTerm(rows, Finals)|
            == |rows|
    decreases |rows|
  {
    if rows != [] {
      GroupSizesSum(rows[..|rows| - 1]);
    }
  }

  /** `TERM_ORDER`. */
  const TermOrder: seq<Term> := [Prelim, Midterms, Prefinals, Finals]

  function TermIndex(t: Term): (i: nat)
    ensures i < |TermOrder| && TermOrder[i] == t
  {
    match t
    case Prelim => 0
    case Midterms => 1
    case Prefinals => 2
    case Finals => 3
  }

  /** The terms of `ts` whose group is non-empty, in the order of `ts` (`ts.filter(...)`). */
  function NonEmptyTerms(ts: seq<Term>, groups: map<Term, seq<ModuleRow>>): (r: seq<Term>)
    requires forall t :: t in ts ==> t in groups
    ensures |r| <= |ts|
  {
    if ts == [] then []
    else (if |groups[ts[0]]| > 0 then [ts[0]] else []) + NonEmptyTerms(ts[1..], groups)
  }

  lemma {:induction false} NonEmptyTermsMembers(ts: seq<Term>, groups: map<Term, seq<ModuleRow>>, t: Term)
    requires forall t :: t in ts ==> t in groups
    ensures t in NonEmptyTerms(ts, groups) <==> t in ts && |groups[t]| > 0
  {
    if ts != [] {
      NonEmptyTermsMembers(ts[1..], groups, t);
      assert t in ts <==> t == ts[0] || t in ts[1..];
    }
  }

  /** The terms appear in strictly increasing position of `TERM_ORDER`. */
  ghost predicate InTermOrder(ts: seq<Term>) {
    forall i, j :: 0 <= i < j < |ts| ==> TermIndex(ts[i]) < TermIndex(ts[j])
  }

  lemma HeadBeforeTail(ts: seq<Term>)
    requires ts != [] && InTermOrder(ts)
    ensures InTermOrder(ts[1..])
    ensures forall x :: x in ts[1..] ==> TermIndex(ts[0]) < TermIndex(x)
  {
    forall i, j | 0 <= i < j < |ts[1..]| ensures TermIndex(ts[1..][i]) < TermIndex(ts[1..][j]) {
      assert ts[1..][i] == ts[i + 1] && ts[1..][j] == ts[j + 1];
    }
    forall x | x in ts[1..] ensures TermIndex(ts[0]) < TermIndex(x) {
      var m :| 0 <= m < |ts[1..]| && ts[1..][m] == x;
      assert ts[m + 1] == x;
    }
  }

  lemma PrependInTermOrder(h: Term, rest: seq<Term>)
    requires InTermOrder(rest)
    requires forall x :: x in rest ==> TermIndex(h) < TermIndex(x)
    ensures InTermOrder([h] + rest)
  {
    var r := [h] + rest;
    forall i, j | 0 <= i < j < |r| ensures TermIndex(r[i]) < TermIndex(r[j]) {
      assert r[j] == rest[j - 1];
      if i > 0 {
        assert r[i] == rest[i - 1];
      }
    }
  }

  lemma {:induction false} NonEmptyTermsOrdered(ts: seq<Term>, groups: map<Term, seq<ModuleRow>>)
    requires forall t :: t in ts ==> t in groups
    requires InTermOrder(ts)
    ensures InTermOrder(NonEmptyTerms(ts, groups))
  {
    if ts != [] {
      var rest := NonEmptyTerms(ts[1..], groups);
      HeadBeforeTail(ts);
      NonEmptyTermsOrdered(ts[1..], groups);
      if |groups[ts[0]]| > 0 {
        forall x | x in rest ensures TermIndex(ts[0]) < TermIndex(x) {
          NonEmptyTermsMembers(ts[1..], groups, x);
        }
        PrependInTermOrder(ts[0], rest);
      } else {
        assert NonEmptyTerms(ts, groups) == rest;
      }
    }
  }

  /** `defaultOpen`: exactly the terms with modules, in the order Prelim, Midterms, Prefinals, Finals. */
  function DefaultOpen(groups: map<Term, seq<ModuleRow>>): (r: seq<Term>)
    requires groups.Keys == AllTerms
    ensures forall t :: t in r <==> t in groups && |groups[t]| > 0
    ensures InTermOrder(r)
  {
    var r := NonEmptyTerms(TermOrder, groups);
    forall t ensures t in r <==> t in groups && |groups[t]| > 0 {
      TermInAllTerms(t);
      assert TermOrder[TermIndex(t)] == t;
      NonEmptyTermsMembers(TermOrder, groups, t);
    }
    NonEmptyTermsOrdered(TermOrder, groups);
    r
  }

  /** The page's state: the course shown, the collator, and the two sort fields. */
  class ModulesPage {
    const courseCode: string
    const modules: seq<ModuleRow>
    const collate: (string, string) -> int
    var sortKey: Option<ModuleSortKey>
    var direction: Option<Direction>

    function State(): SortState<ModuleSortKey>
      reads this
    {
      SortState(sortKey, direction)
    }

    /** The page for a course code that renders. */
    constructor (code: string, collate: (string, string) -> int)
      requires ModulesFor(code).Listed?
      ensures courseCode == code && modules == ModulesFor(code).rows && this.collate == collate
      ensures State() == Initial()
    {
      courseCode := code;
      modules := ModulesFor(code).rows;
      this.collate := collate;
      sortKey, direction := None, None;
    }

    /** `toggleSort(key)`. */
    method ToggleSort(k: ModuleSortKey)
      modifies this
      ensures State() == Toggle(old(State()), k)
    {
      var next := Toggle(State(), k);
      sortKey, direction := next.key, next.direction;
    }

    function Sorted(): (r: seq<ModuleRow>)
      reads this
      ensures multiset(r) == multiset(modules)
    {
      SortedModules(modules, State(), collate)
    }

    function AriaSort(k: ModuleSortKey): (r: string)
      reads this
      ensures r != "none" <==> sortKey == Some(k) && direction.Some?
    {
      AriaSortFor(State(), k)
    }

    /** The accordion's sections and the ones open at first. */
    method Grouped() returns (groups: map<Term, seq<ModuleRow>>, open: seq<Term>)
      ensures groups.Keys == AllTerms
      ensures forall t :: t in groups ==> groups[t] == OfTerm(Sorted(), t)
      ensures forall t :: t in open <==> t in groups && |groups[t]| > 0
    {
      groups := GroupByTerm(Sorted());
      open := DefaultOpen(groups);
    }
  }
}
