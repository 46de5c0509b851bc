/** Per-state aggregation (`merge_location_data`): count the rows per
    location, left-join the counts onto the reference states with zero for a
    state without rows, and leave out "Remote". */
module LocationCounts {
  import opened Seqs
  import opened JobRecords
  import opened States

  /** One row of a per-state table. */
  datatype StateCount = StateCount(location: string, count: nat)

  /** `value_counts()` of the "Location" column looked up at `loc`: the number
      of rows located at `loc` (a missing location is not counted). */
  function CountAt(rows: seq<Row>, loc: string): (n: nat)
    ensures n <= |rows|
    ensures n == 0 <==> forall k :: 0 <= k < |rows| ==> !LocatedAt(rows[k], loc)
  {
    if rows == [] then 0
    else CountAt(rows[..|rows| - 1], loc) + (if LocatedAt(rows[|rows| - 1], loc) then 1 else 0)
  }

  /** Rows located at `loc`. */
  function AtMask(loc: string): Row -> bool
  {
    (r: Row) => LocatedAt(r, loc)
  }

  /** A location's count is the general count of rows with the mask of
      that location. */
  lemma {:induction false} CountAtIsCountWhere(rows: seq<Row>, loc: string)
    ensures CountAt(rows, loc) == CountWhere(rows, AtMask(loc))
  {
    if rows != [] {
      CountAtIsCountWhere(rows[..|rows| - 1], loc);
    }
  }

  /** The places the per-state tables keep. */
  predicate NotRemote(loc: string)
  {
    loc != Remote
  }

  /** The per-state table of a map: for each reference state in `states`
      other than "Remote", its number of rows (zero when it has none). */
  function MergeLocationData(rows: seq<Row>, states: seq<string>): (m: seq<StateCount>)
    ensures |m| == |Filter(states, NotRemote)|
    ensures forall i :: 0 <= i < |m| ==>
              m[i].location == Filter(states, NotRemote)[i] && m[i].count == CountAt(rows, m[i].location)
  {
    if states == [] then []
    else
      var last := states[|states| - 1];
      MergeLocationData(rows, states[..|states| - 1]) +
        (if NotRemote(last) then [StateCount(last, CountAt(rows, last))] else [])
  }

  /** Sum of the counts of a per-state table. */
  function Total(m: seq<StateCount>): nat
  {
    if m == [] then 0 else Total(m[..|m| - 1]) + m[|m| - 1].count
  }

  /** Number of rows located at one of `places`. */
  function CountIn(rows: seq<Row>, places: seq<string>): (n: nat)
    ensures n <= |rows|
    ensures n == |rows| <==> forall k :: 0 <= k < |rows| ==>
                                rows[k].location.Some? && rows[k].location.value in places
  {
    if rows == [] then 0
    else
      var r := rows[|rows| - 1];
      CountIn(rows[..|rows| - 1], places) + (if r.location.Some? && r.location.value in places then 1 else 0)
  }

  /** Adding a new place to `places` adds the rows located there. */
  lemma {:induction false} CountInSnoc(rows: seq<Row>, places: seq<string>, loc: string)
    requires loc !in places
    ensures CountIn(rows, places + [loc]) == CountIn(rows, places) + CountAt(rows, loc)
  {
    if rows != [] {
      CountInSnoc(rows[..|rows| - 1], places, loc);
    }
  }

  /** Over distinct reference states, the counts add up to the number of rows
      located at a reference state other than "Remote". */
  lemma {:induction false} MergeTotal(rows: seq<Row>, states: seq<string>)
    requires Distinct(states)
    ensures Total(MergeLocationData(rows, states)) == CountIn(rows, Filter(states, NotRemote))
  {
    if states != [] {
      var init, last := states[..|states| - 1], states[|states| - 1];
      MergeTotal(rows, init);
      var fi := Filter(init, NotRemote);
      var m0 := MergeLocationData(rows, init);
      var m := MergeLocationData(rows, states);
      if NotRemote(last) {
        assert Filter(states, NotRemote) == fi + [last];
        assert m == m0 + [StateCount(last, CountAt(rows, last))];
        assert m[..|m| - 1] == m0;
        forall k | 0 <= k < |init|
          ensures init[k] != last
        {
          assert init[k] == states[k];
        }
        assert last !in fi;
        CountInSnoc(rows, fi, last);
      } else {
        assert Filter(states, NotRemote) == fi;
        assert m == m0;
      }
    } else {
      CountInNowhere(rows);
    }
  }

  /** No row is located in an empty list of places. */
  lemma {:induction false} CountInNowhere(rows: seq<Row>)
    ensures CountIn(rows, []) == 0
  {
    if rows != [] {
      CountInNowhere(rows[..|rows| - 1]);
    }
  }

  /** The counts sum to at most the number of input rows, with equality
      exactly when every row is located at a reference state other than
      "Remote". */
  lemma TotalBound(rows: seq<Row>, states: seq<string>)
    requires Distinct(states)
    ensures Total(MergeLocationData(rows, states)) <= |rows|
    ensures Total(MergeLocationData(rows, states)) == |rows| <==>
              forall k :: 0 <= k < |rows| ==>
                rows[k].location.Some? && rows[k].location.value in states && NotRemote(rows[k].location.value)
  {
    MergeTotal(rows, states);
  }

  /** Over the dashboard's reference list, the counts sum to at most the
      number of rows, with equality exactly when every row is located at a
      reference state. */
  lemma ReferenceTotalBound(rows: seq<Row>)
    ensures Total(MergeLocationData(rows, AllStates)) <= |rows|
    ensures Total(MergeLocationData(rows, AllStates)) == |rows| <==>
              forall k :: 0 <= k < |rows| ==> rows[k].location.Some? && rows[k].location.value in AllStates
  {
    ReferenceStatesApart();
    ReferenceStatesNormal();
    TotalBound(rows, AllStates);
  }

  /** Over the dashboard's reference list: one row per reference state, in
      the list's order, each with its number of rows, zero for a state no row
      is located at. */
  lemma MergeOverReference(rows: seq<Row>)
    ensures var m := MergeLocationData(rows, AllStates);
            && |m| == |AllStates|
            && (forall i :: 0 <= i < |m| ==> m[i].location == AllStates[i] && m[i].count == CountAt(rows, AllStates[i]))
            && (forall i :: 0 <= i < |m| ==>
                  (m[i].count == 0 <==> forall k :: 0 <= k < |rows| ==> !LocatedAt(rows[k], AllStates[i])))
  {
    ReferenceStatesNormal();
    MergeKeepsEveryState(rows, AllStates);
  }

  /** When no state is "Remote", the merge has one row per state, in order. */
  lemma MergeKeepsEveryState(rows: seq<Row>, states: seq<string>)
    requires Remote !in states
    ensures var m := MergeLocationData(rows, states);
            && |m| == |states|
            && (forall i :: 0 <= i < |m| ==> m[i].location == states[i] && m[i].count == CountAt(rows, states[i]))
  {
    FilterAll(states, NotRemote);
  }

  /** A selection of rows never has more rows at a location than the whole
      table, and has as many when every row there is selected. */
  lemma {:induction false} CountAtFilter(rows: seq<Row>, p: Row -> bool, loc: string)
    ensures CountAt(Filter(rows, p), loc) <= CountAt(rows, loc)
    ensures (forall k :: 0 <= k < |rows| && LocatedAt(rows[k], loc) ==> p(rows[k]))
            ==> CountAt(Filter(rows, p), loc) == CountAt(rows, loc)
  {
    if rows != [] {
      var init, last := rows[..|rows| - 1], rows[|rows| - 1];
      CountAtFilter(init, p, loc);
      var f, fi := Filter(rows, p), Filter(init, p);
      assert CountAt(rows, loc) == CountAt(init, loc) + (if LocatedAt(last, loc) then 1 else 0);
      if p(last) {
        assert f == fi + [last];
        assert f[..|f| - 1] == fi;
        assert CountAt(f, loc) == CountAt(fi, loc) + (if LocatedAt(last, loc) then 1 else 0);
      } else {
        assert f == fi;
      }
    }
  }

  /** A narrower selection never has more rows at a location than a wider one. */
  lemma {:induction false} CountAtFilterMonotone(rows: seq<Row>, p: Row -> bool, q: Row -> bool, loc: string)
    requires forall r :: p(r) ==> q(r)
    ensures CountAt(Filter(rows, p), loc) <= CountAt(Filter(rows, q), loc)
  {
    if rows != [] {
      var init, last := rows[..|rows| - 1], rows[|rows| - 1];
      CountAtFilterMonotone(init, p, q, loc);
      var fp, fpi := Filter(rows, p), Filter(init, p);
      var fq, fqi := Filter(rows, q), Filter(init, q);
      if p(last) {
        assert fp == fpi + [last] && fp[..|fp| - 1] == fpi;
      } else {
        assert fp == fpi;
      }
      if q(last) {
        assert fq == fqi + [last] && fq[..|fq| - 1] == fqi;
      } else {
        assert fq == fqi;
      }
    }
  }
}
