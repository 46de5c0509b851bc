/** The row selections and per-state tables behind the dashboard's map
    pages: job distribution by category, skill demand, and regional
    employment trends (by employment type and by industry). */
module Views {
  import opened Wrappers
  import opened Seqs
  import opened JobRecords
  import opened States
  import opened LocationCounts

  /** Rows of one job category. */
  function CategoryMask(role: string): Row -> bool
  {
    (r: Row) => r.category == Some(role)
  }

  /** Rows of one industry. */
  function IndustryMask(industry: string): Row -> bool
  {
    (r: Row) => r.industry == Some(industry)
  }

  /** Rows of one employment type. */
  function TypeMask(employmentType: string): Row -> bool
  {
    (r: Row) => r.employmentType == Some(employmentType)
  }

  /** Some selected skill is in the parsed skill list. */
  predicate MatchesAny(skills: seq<string>, selected: seq<string>)
  {
    exists i :: 0 <= i < |selected| && selected[i] in skills
  }

  /** Rows whose parsed skill list holds one of the selected skills. */
  function SkillMask(selected: seq<string>): Row -> bool
  {
    (r: Row) => r.skills.SkillList? && MatchesAny(r.skills.skills, selected)
  }

  /** The rows the job-distribution page shows for `role`: their number, and
      the per-state table of them. */
  function JobDistribution(rows: seq<Row>, role: string, states: seq<string>): (d: (nat, seq<StateCount>))
    ensures d.0 == CountWhere(rows, CategoryMask(role))
    ensures |d.1| == |Filter(states, NotRemote)|
    ensures forall i :: 0 <= i < |d.1| ==>
              d.1[i].location == Filter(states, NotRemote)[i] &&
              d.1[i].count == CountAt(Filter(rows, CategoryMask(role)), d.1[i].location)
  {
    var selected := Filter(rows, CategoryMask(role));
    FilterLength(rows, CategoryMask(role));
    (|selected|, MergeLocationData(selected, states))
  }

  /** The per-state counts of the selected category add up to the total the
      page reports, less the rows that are remote or outside the reference
      states; and the two agree when every such row has a reference state. */
  lemma JobDistributionTotals(rows: seq<Row>, role: string, states: seq<string>)
    requires Distinct(states)
    ensures var (total, table) := JobDistribution(rows, role, states);
            var selected := Filter(rows, CategoryMask(role));
            && total == CountWhere(rows, CategoryMask(role))
            && Total(table) <= total
            && (Total(table) == total <==>
                  forall k :: 0 <= k < |selected| ==>
                    selected[k].location.Some? && selected[k].location.value in states &&
                    NotRemote(selected[k].location.value))
  {
    FilterLength(rows, CategoryMask(role));
    TotalBound(Filter(rows, CategoryMask(role)), states);
  }

  /** Over the dashboard's reference list, the page's per-state counts add
      up to at most the reported total, and to exactly the total when every
      row of the category is located at a reference state. */
  lemma JobDistributionReferenceTotals(rows: seq<Row>, role: string)
    ensures var (total, table) := JobDistribution(rows, role, AllStates);
            var selected := Filter(rows, CategoryMask(role));
            && total == CountWhere(rows, CategoryMask(role))
            && Total(table) <= total
            && (Total(table) == total <==>
                  forall k :: 0 <= k < |selected| ==>
                    selected[k].location.Some? && selected[k].location.value in AllStates)
  {
    FilterLength(rows, CategoryMask(role));
    ReferenceTotalBound(Filter(rows, CategoryMask(role)));
  }

  /** The rows `skill_distribution` maps: those holding any selected skill.
      Every row's skills must already be parsed, as the dashboard does
      before any page is drawn. */
  function SkillFilter(rows: seq<Row>, selected: seq<string>): (kept: seq<Row>)
    requires forall k :: 0 <= k < |rows| ==> rows[k].skills.SkillList?
    ensures |kept| <= |rows|
    ensures forall r :: r in kept ==> r in rows && MatchesAny(r.skills.skills, selected)
  {
    Filter(rows, SkillMask(selected))
  }

  /** The skill page's table, or `None` when no skill is selected (the page
      then shows a prompt instead of a map). */
  function SkillDistribution(rows: seq<Row>, selected: seq<string>, states: seq<string>): (r: Option<seq<StateCount>>)
    requires forall k :: 0 <= k < |rows| ==> rows[k].skills.SkillList?
    ensures r.None? <==> selected == []
    ensures r.Some? ==> |r.value| == |Filter(states, NotRemote)|
    ensures r.Some? ==> forall i :: 0 <= i < |r.value| ==>
              r.value[i].location == Filter(states, NotRemote)[i] &&
              r.value[i].count == CountAt(SkillFilter(rows, selected), r.value[i].location)
  {
    if selected == [] then None else Some(MergeLocationData(SkillFilter(rows, selected), states))
  }

  /** A row is kept exactly when it holds a selected skill, and kept rows
      stay in their order. */
  lemma {:induction false} SkillFilterSelects(rows: seq<Row>, selected: seq<string>)
    requires forall k :: 0 <= k < |rows| ==> rows[k].skills.SkillList?
    ensures forall r :: r in SkillFilter(rows, selected) <==>
              r in rows && MatchesAny(r.skills.skills, selected)
    ensures IsSubsequence(SkillFilter(rows, selected), rows)
  {
    FilterIsSubsequence(rows, SkillMask(selected));
  }

  /** Selecting more skills never lowers a state's count. */
  lemma SkillSelectionMonotone(rows: seq<Row>, selected: seq<string>, more: seq<string>, loc: string)
    requires forall k :: 0 <= k < |rows| ==> rows[k].skills.SkillList?
    requires forall i :: 0 <= i < |selected| ==> selected[i] in more
    ensures CountAt(SkillFilter(rows, selected), loc) <= CountAt(SkillFilter(rows, more), loc)
  {
    forall r | SkillMask(selected)(r)
      ensures SkillMask(more)(r)
    {
      var i :| 0 <= i < |selected| && selected[i] in r.skills.skills;
      var j :| 0 <= j < |more| && more[j] == selected[i];
    }
    CountAtFilterMonotone(rows, SkillMask(selected), SkillMask(more), loc);
  }

  /** The employment types the regional page maps, in page order. */
  const EmploymentTypes: seq<string> := ["full-time", "part-time", "contract"]

  /** The row's employment type is one the regional page maps. */
  predicate HasListedType(r: Row)
  {
    r.employmentType.Some? && r.employmentType.value in EmploymentTypes
  }

  /** The rows whose employment type is one the regional page maps. */
  function EmploymentData(rows: seq<Row>): (data: seq<Row>)
    ensures |data| <= |rows|
    ensures forall r :: r in data <==> r in rows && HasListedType(r)
  {
    Filter(rows, HasListedType)
  }

  /** The number of rows of `data` grouped under location `loc` and
      employment type `employmentType`. */
  function GroupSize(data: seq<Row>, loc: string, employmentType: string): (n: nat)
    ensures n <= |data|
    ensures n == 0 <==> forall k :: 0 <= k < |data| ==> !GroupMask(loc, employmentType)(data[k])
  {
    if data == [] then 0
    else
      var r := data[|data| - 1];
      GroupSize(data[..|data| - 1], loc, employmentType) +
        (if LocatedAt(r, loc) && r.employmentType == Some(employmentType) then 1 else 0)
  }

  /** Rows at location `loc` of employment type `employmentType`. */
  function GroupMask(loc: string, employmentType: string): Row -> bool
  {
    (r: Row) => LocatedAt(r, loc) && r.employmentType == Some(employmentType)
  }

  /** A group size is the general count of rows with the group's mask. */
  lemma {:induction false} GroupSizeIsCountWhere(data: seq<Row>, loc: string, employmentType: string)
    ensures GroupSize(data, loc, employmentType) == CountWhere(data, GroupMask(loc, employmentType))
  {
    if data != [] {
      GroupSizeIsCountWhere(data[..|data| - 1], loc, employmentType);
    }
  }

  /** The regional page's table for one employment type: the group sizes
      left-joined onto `states`, zero for a state without the group. This
      inline join keeps every reference state, "Remote" included. */
  function EmploymentTypeTable(rows: seq<Row>, states: seq<string>, employmentType: string): (m: seq<StateCount>)
    ensures |m| == |states|
    ensures forall i :: 0 <= i < |m| ==> m[i].location == states[i]
  {
    if states == [] then []
    else
      var last := states[|states| - 1];
      EmploymentTypeTable(rows, states[..|states| - 1], employmentType) +
        [StateCount(last, GroupSize(EmploymentData(rows), last, employmentType))]
  }

  /** The three tables of the regional page, one per employment type, each
      with one entry per reference state in order. */
  function RegionalEmploymentTrends(rows: seq<Row>, states: seq<string>): (tables: seq<seq<StateCount>>)
    ensures |tables| == |EmploymentTypes|
    ensures forall j :: 0 <= j < |tables| ==> |tables[j]| == |states|
  {
    seq(|EmploymentTypes|, j requires 0 <= j < |EmploymentTypes| =>
      EmploymentTypeTable(rows, states, EmploymentTypes[j]))
  }

  /** A group size is the number of rows of that employment type at that
      location. */
  lemma {:induction false} GroupSizeCounts(rows: seq<Row>, loc: string, employmentType: string)
    requires employmentType in EmploymentTypes
    ensures GroupSize(EmploymentData(rows), loc, employmentType) == CountAt(Filter(rows, TypeMask(employmentType)), loc)
  {
    if rows != [] {
      var init, last := rows[..|rows| - 1], rows[|rows| - 1];
      GroupSizeCounts(init, loc, employmentType);
      var d, di := EmploymentData(rows), EmploymentData(init);
      var f, fi := Filter(rows, TypeMask(employmentType)), Filter(init, TypeMask(employmentType));
      if HasListedType(last) {
        assert d == di + [last] && d[..|d| - 1] == di;
      } else {
        assert d == di;
      }
      if TypeMask(employmentType)(last) {
        assert f == fi + [last] && f[..|f| - 1] == fi;
      } else {
        assert f == fi;
      }
    }
  }

  /** A per-state row that `merge_location_data` keeps. */
  predicate KeptRow(sc: StateCount)
  {
    NotRemote(sc.location)
  }

  /** The inline join of the regional page is `merge_location_data` applied
      to the rows of that employment type, except that it keeps "Remote". */
  lemma {:induction false} EmploymentTableIsMerge(rows: seq<Row>, states: seq<string>, employmentType: string)
    requires employmentType in EmploymentTypes
    ensures Filter(EmploymentTypeTable(rows, states, employmentType), KeptRow) ==
            MergeLocationData(Filter(rows, TypeMask(employmentType)), states)
  {
    if states != [] {
      var init, last := states[..|states| - 1], states[|states| - 1];
      EmploymentTableIsMerge(rows, init, employmentType);
      GroupSizeCounts(rows, last, employmentType);
      var t := EmploymentTypeTable(rows, states, employmentType);
      assert t[..|t| - 1] == EmploymentTypeTable(rows, init, employmentType);
    }
  }

  /** Each entry of an employment type's table counts the rows of that type
      at the entry's state. */
  lemma {:induction false} EmploymentTableCounts(rows: seq<Row>, states: seq<string>, employmentType: string)
    requires employmentType in EmploymentTypes
    ensures forall i :: 0 <= i < |states| ==>
              EmploymentTypeTable(rows, states, employmentType)[i].count ==
              CountAt(Filter(rows, TypeMask(employmentType)), states[i])
  {
    if states != [] {
      var init, last := states[..|states| - 1], states[|states| - 1];
      EmploymentTableCounts(rows, init, employmentType);
      GroupSizeCounts(rows, last, employmentType);
      var t := EmploymentTypeTable(rows, states, employmentType);
      assert t[..|t| - 1] == EmploymentTypeTable(rows, init, employmentType);
    }
  }

  /** Table `j` of the regional page is for the `j`-th employment type:
      entry `i` is the `i`-th reference state with the number of rows of
      that employment type located there. */
  lemma RegionalTablesCount(rows: seq<Row>, states: seq<string>)
    ensures var tables := RegionalEmploymentTrends(rows, states);
            forall j, i :: 0 <= j < |tables| && 0 <= i < |tables[j]| ==>
              tables[j][i].location == states[i] &&
              tables[j][i].count == CountAt(Filter(rows, TypeMask(EmploymentTypes[j])), states[i])
  {
    forall j | 0 <= j < |EmploymentTypes| {
      EmploymentTableCounts(rows, states, EmploymentTypes[j]);
    }
  }

  /** The industry table of the regional page. */
  function IndustryTrends(rows: seq<Row>, industry: string, states: seq<string>): (m: seq<StateCount>)
    ensures |m| == |Filter(states, NotRemote)|
    ensures forall i :: 0 <= i < |m| ==> m[i].location == Filter(states, NotRemote)[i]
    ensures forall i :: 0 <= i < |m| ==> m[i].count == CountAt(Filter(rows, IndustryMask(industry)), m[i].location)
  {
    MergeLocationData(Filter(rows, IndustryMask(industry)), states)
  }

  /** A state's count for an industry is at most the state's count over all
      rows, and equals it when every row at that state is of the industry. */
  lemma IndustryTrendsBound(rows: seq<Row>, industry: string, states: seq<string>, i: nat)
    requires i < |IndustryTrends(rows, industry, states)|
    ensures var sc := IndustryTrends(rows, industry, states)[i];
            && sc.count <= CountAt(rows, sc.location)
            && ((forall k :: 0 <= k < |rows| && LocatedAt(rows[k], sc.location) ==> rows[k].industry == Some(industry))
                ==> sc.count == CountAt(rows, sc.location))
  {
    var sc := IndustryTrends(rows, industry, states)[i];
    CountAtFilter(rows, IndustryMask(industry), sc.location);
  }
}
