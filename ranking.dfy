/** The top-companies page: the companies with the most postings for a job
    category, in one location or in all of them (`value_counts().head(20)`
    of the "Company Name" column). */
module Ranking {
  import opened Wrappers
  import opened Seqs
  import opened JobRecords

  /** The location choice that stands for no location filter. */
  const AllStatesOption: string := "All States"

  /** How many companies the page ranks. */
  const TopN: nat := 20

  /** One row of a `value_counts()` result: a company and its number of postings. */
  datatype CompanyCount = CompanyCount(company: string, jobCount: nat)

  /** The rows the page ranks: those of the chosen category, and of the
      chosen location unless that is "All States". */
  function SelectionMask(role: string, location: string): Row -> bool
  {
    (r: Row) => r.category == Some(role) && (location == AllStatesOption || r.location == Some(location))
  }

  /** Rows of one company. */
  function CompanyMask(company: string): Row -> bool
  {
    (r: Row) => r.company == Some(company)
  }

  /** The company names of the rows that have one, in row order
      (`value_counts` drops missing values). */
  function CompanyNames(rows: seq<Row>): (names: seq<string>)
    ensures forall c :: c in names ==> exists k :: 0 <= k < |rows| && rows[k].company == Some(c)
    ensures forall k :: 0 <= k < |rows| && rows[k].company.Some? ==> rows[k].company.value in names
  {
    if rows == [] then []
    else
      var last := rows[|rows| - 1];
      CompanyNames(rows[..|rows| - 1]) + (if last.company.Some? then [last.company.value] else [])
  }

  /** A company occurs in the names as often as it has rows. */
  lemma {:induction false} CompanyNamesCount(rows: seq<Row>, c: string)
    ensures multiset(CompanyNames(rows))[c] == CountWhere(rows, CompanyMask(c))
  {
    if rows != [] {
      CompanyNamesCount(rows[..|rows| - 1], c);
    }
  }

  /** Each distinct name once, in order of first appearance. */
  function Uniques(names: seq<string>): (u: seq<string>)
    ensures Distinct(u)
    ensures forall c :: c in u <==> c in names
  {
    if names == [] then []
    else
      var init, last := names[..|names| - 1], names[|names| - 1];
      Uniques(init) + (if last in init then [] else [last])
  }

  /** Each distinct name with its number of occurrences, before ranking:
      one entry per company, every name has an entry, and each count is the
      name's number of occurrences. */
  function Tally(names: seq<string>): (t: seq<CompanyCount>)
    ensures |t| == |Uniques(names)|
    ensures forall i, j :: 0 <= i < j < |t| ==> t[i].company != t[j].company
    ensures forall c :: c in names <==> exists i :: 0 <= i < |t| && t[i].company == c
    ensures forall i :: 0 <= i < |t| ==>
              t[i].company in names && t[i].jobCount == multiset(names)[t[i].company] >= 1
  {
    var u := Uniques(names);
    var t := seq(|u|, i requires 0 <= i < |u| => CompanyCount(u[i], multiset(names)[u[i]]));
    assert forall i :: 0 <= i < |t| ==> t[i].company == u[i] && u[i] in u;
    assert forall c :: c in u ==> exists i :: 0 <= i < |t| && t[i].company == c by {
      forall c | c in u ensures exists i :: 0 <= i < |t| && t[i].company == c {
        var i :| 0 <= i < |u| && u[i] == c;
        assert t[i].company == c;
      }
    }
    t
  }

  /** Counts never increase along `s`. */
  predicate SortedDesc(s: seq<CompanyCount>)
  {
    forall i, j :: 0 <= i < j < |s| ==> s[i].jobCount >= s[j].jobCount
  }

  /** Inserts `x` into a ranking after every entry with at least its count. */
  function Insert(x: CompanyCount, s: seq<CompanyCount>): (r: seq<CompanyCount>)
    requires SortedDesc(s)
    ensures |r| == |s| + 1
    ensures r[0] == x || (s != [] && r[0] == s[0])
    ensures SortedDesc(r)
    ensures multiset(r) == multiset(s) + multiset{x}
  {
    if s == [] then [x]
    else if x.jobCount > s[0].jobCount then [x] + s
    else
      var rest := Insert(x, s[1..]);
      assert s == [s[0]] + s[1..];
      assert rest[0].jobCount <= s[0].jobCount;
      [s[0]] + rest
  }

  /** Orders entries by count, higher first; entries with equal counts keep
      their relative order. */
  function SortDesc(s: seq<CompanyCount>): (r: seq<CompanyCount>)
    ensures SortedDesc(r)
    ensures multiset(r) == multiset(s)
  {
    if s == [] then []
    else
      assert s == s[..|s| - 1] + [s[|s| - 1]];
      Insert(s[|s| - 1], SortDesc(s[..|s| - 1]))
  }

  /** `value_counts()`: every distinct name with its count, highest first. */
  function ValueCounts(names: seq<string>): (ranked: seq<CompanyCount>)
    ensures SortedDesc(ranked)
    ensures multiset(ranked) == multiset(Tally(names))
  {
    SortDesc(Tally(names))
  }

  /** The table of the top-companies page, before percentages are added. */
  function TopCompanies(rows: seq<Row>, role: string, location: string): (top: seq<CompanyCount>)
    ensures |top| <= TopN
    ensures SortedDesc(top)
  {
    Head(ValueCounts(CompanyNames(Filter(rows, SelectionMask(role, location)))), TopN)
  }

  /** Equal elements give a count of two or more. */
  lemma RepeatCounted<T>(s: seq<T>, i: nat, j: nat)
    requires i < j < |s| && s[i] == s[j]
    ensures multiset(s)[s[i]] >= 2
  {
    assert s == s[..j] + s[j..];
    assert s[i] in s[..j];
    assert s[j] in s[j..];
  }

  /** A sequence without repeats counts each element at most once. */
  lemma {:induction false} DistinctCountsOnce<T>(s: seq<T>, x: T)
    requires Distinct(s)
    ensures multiset(s)[x] <= 1
  {
    if s != [] {
      var init := s[..|s| - 1];
      assert s == init + [s[|s| - 1]];
      DistinctCountsOnce(init, x);
      if x == s[|s| - 1] {
        assert x !in init;
      }
    }
  }

  /** Every entry of `value_counts()` is a name with its number of
      occurrences, and there is one entry per distinct name. */
  lemma RankedEntries(names: seq<string>)
    ensures |ValueCounts(names)| == |Uniques(names)|
    ensures forall y :: y in ValueCounts(names) ==>
              y.company in names && y.jobCount == multiset(names)[y.company] >= 1
  {
    var tally, ranked := Tally(names), ValueCounts(names);
    assert |multiset(ranked)| == |multiset(tally)|;
    forall y | y in ranked
      ensures y.company in names && y.jobCount == multiset(names)[y.company] >= 1
    {
      assert y in multiset(tally);
      var i :| 0 <= i < |tally| && tally[i] == y;
    }
  }

  /** No company has two entries in `value_counts()`. */
  lemma RankedDistinct(names: seq<string>)
    ensures forall i, j :: 0 <= i < j < |ValueCounts(names)| ==>
              ValueCounts(names)[i].company != ValueCounts(names)[j].company
  {
    var tally, ranked := Tally(names), ValueCounts(names);
    RankedEntries(names);
    forall i, j | 0 <= i < j < |ranked| ensures ranked[i].company != ranked[j].company {
      assert ranked[i] in ranked && ranked[j] in ranked;
      if ranked[i].company == ranked[j].company {
        RepeatCounted(ranked, i, j);
        DistinctCountsOnce(tally, ranked[i]);
      }
    }
  }

  /** Every name has an entry in `value_counts()`. */
  lemma RankedComplete(names: seq<string>, c: string)
    requires c in names
    ensures exists p :: 0 <= p < |ValueCounts(names)| && ValueCounts(names)[p].company == c
  {
    var tally, ranked := Tally(names), ValueCounts(names);
    var k :| 0 <= k < |tally| && tally[k].company == c;
    assert tally[k] in multiset(ranked);
    var p :| 0 <= p < |ranked| && ranked[p] == tally[k];
  }

  /** The entries `value_counts().head(n)` keeps. */
  function Head(ranked: seq<CompanyCount>, n: nat): seq<CompanyCount>
  {
    ranked[..if |ranked| <= n then |ranked| else n]
  }

  /** An entry left out of the head of a ranking has no higher count than
      any entry kept. */
  lemma LeftOutOfHead(ranked: seq<CompanyCount>, n: nat, p: nat)
    requires SortedDesc(ranked) && p < |ranked|
    requires forall i :: 0 <= i < |Head(ranked, n)| ==> Head(ranked, n)[i].company != ranked[p].company
    ensures forall i :: 0 <= i < |Head(ranked, n)| ==> ranked[p].jobCount <= Head(ranked, n)[i].jobCount
  {
    var top := Head(ranked, n);
    forall i | 0 <= i < |top|
      ensures ranked[p].jobCount <= top[i].jobCount
    {
      assert top[i] == ranked[i];
    }
  }

  /** A name left out of the head of `value_counts()` occurs no more often
      than any name in it. */
  lemma LeftOutRanksLower(names: seq<string>, n: nat, c: string)
    requires c in names
    requires forall i :: 0 <= i < |Head(ValueCounts(names), n)| ==> Head(ValueCounts(names), n)[i].company != c
    ensures forall i :: 0 <= i < |Head(ValueCounts(names), n)| ==>
              multiset(names)[c] <= Head(ValueCounts(names), n)[i].jobCount
  {
    var ranked := ValueCounts(names);
    RankedComplete(names, c);
    var p :| 0 <= p < |ranked| && ranked[p].company == c;
    RankedEntries(names);
    assert ranked[p] in ranked;
    LeftOutOfHead(ranked, n, p);
  }

  /** The head of a ranking is a ranking of entries of it, and keeps its
      companies distinct. */
  lemma HeadKeepsRanking(ranked: seq<CompanyCount>, n: nat)
    requires SortedDesc(ranked)
    requires forall i, j :: 0 <= i < j < |ranked| ==> ranked[i].company != ranked[j].company
    ensures SortedDesc(Head(ranked, n))
    ensures forall i, j :: 0 <= i < j < |Head(ranked, n)| ==> Head(ranked, n)[i].company != Head(ranked, n)[j].company
    ensures forall y :: y in Head(ranked, n) ==> y in ranked
  {
  }

  /** The first `TopN` entries of `value_counts()`: one per name, highest
      count first, each with its number of occurrences, as many as there are
      distinct names up to `TopN`, and no name left out occurs more often
      than a name kept. */
  lemma TopOfValueCounts(names: seq<string>)
    ensures var top := Head(ValueCounts(names), TopN);
            && |top| == (if |Uniques(names)| <= TopN then |Uniques(names)| else TopN)
            && SortedDesc(top)
            && (forall i :: 0 <= i < |top| ==>
                  top[i].company in names && top[i].jobCount == multiset(names)[top[i].company] >= 1)
            && (forall i, j :: 0 <= i < j < |top| ==> top[i].company != top[j].company)
            && (forall c :: c in names && (forall i :: 0 <= i < |top| ==> top[i].company != c) ==>
                  forall i :: 0 <= i < |top| ==> multiset(names)[c] <= top[i].jobCount)
  {
    var ranked := ValueCounts(names);
    var top := Head(ranked, TopN);
    RankedEntries(names);
    RankedDistinct(names);
    HeadKeepsRanking(ranked, TopN);
    forall i | 0 <= i < |top|
      ensures top[i].company in names && top[i].jobCount == multiset(names)[top[i].company] >= 1
    {
      assert top[i] in top;
    }
    forall c | c in names && (forall i :: 0 <= i < |top| ==> top[i].company != c)
      ensures forall i :: 0 <= i < |top| ==> multiset(names)[c] <= top[i].jobCount
    {
      LeftOutRanksLower(names, TopN, c);
    }
  }

  /** The ranking of the page: at most twenty entries, one per company,
      highest count first, each count the number of selected rows of that
      company; there are fewer than twenty only when fewer companies have
      selected rows; and no company left out has more postings than any
      company listed. */
  lemma TopCompaniesRanking(rows: seq<Row>, role: string, location: string)
    ensures var selected := Filter(rows, SelectionMask(role, location));
            var names := CompanyNames(selected);
            var top := TopCompanies(rows, role, location);
            && |top| == (if |Uniques(names)| <= TopN then |Uniques(names)| else TopN)
            && SortedDesc(top)
            && (forall i :: 0 <= i < |top| ==>
                  top[i].company in names &&
                  top[i].jobCount == CountWhere(selected, CompanyMask(top[i].company)) >= 1)
            && (forall i, j :: 0 <= i < j < |top| ==> top[i].company != top[j].company)
            && (forall c :: c in names && (forall i :: 0 <= i < |top| ==> top[i].company != c) ==>
                  forall i :: 0 <= i < |top| ==> CountWhere(selected, CompanyMask(c)) <= top[i].jobCount)
  {
    var selected := Filter(rows, SelectionMask(role, location));
    var names := CompanyNames(selected);
    TopOfValueCounts(names);
    forall c {
      CompanyNamesCount(selected, c);
    }
  }
}
