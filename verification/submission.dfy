/** Submission rows and the two operations the validator and the evaluator
    both perform on them: grouping the rows by query (a `defaultdict(list)`,
    whose keys keep their order of first insertion) and sorting one query's
    `(rank, product_id)` entries by rank with Python's stable `sorted`. */
module Submission {
  import opened Common

  /** A well-formed submission row: all three fields are present. */
  datatype Row = Row(queryId: string, rank: int, productId: string)

  /** The `(rank, product_id)` tuple a row contributes to its query's group. */
  datatype Entry = Entry(rank: int, productId: string)

  function EntryOf(r: Row): Entry
  {
    Entry(r.rank, r.productId)
  }

  /** The set of query ids that occur in `rows`. */
  function QidSet(rows: seq<Row>): set<string>
  {
    set r | r in rows :: r.queryId
  }

  /** The distinct query ids of `rows` in order of first appearance. */
  function Qids(rows: seq<Row>): (qs: seq<string>)
    ensures forall i, j :: 0 <= i < j < |qs| ==> qs[i] != qs[j]
    ensures forall q :: q in qs <==> q in QidSet(rows)
  {
    if rows == [] then []
    else
      var prev := Qids(rows[..|rows| - 1]);
      var q := rows[|rows| - 1].queryId;
      assert rows == rows[..|rows| - 1] + [rows[|rows| - 1]];
      if q in prev then prev else prev + [q]
  }

  /** The entries of query q, in submission order. */
  function EntriesOf(rows: seq<Row>, q: string): (es: seq<Entry>)
    ensures |es| <= |rows|
    ensures es == [] <==> q !in QidSet(rows)
  {
    if rows == [] then []
    else
      var last := rows[|rows| - 1];
      assert rows == rows[..|rows| - 1] + [last];
      EntriesOf(rows[..|rows| - 1], q) + (if last.queryId == q then [EntryOf(last)] else [])
  }

  /** Total number of entries over the groups of the queries qs. */
  function TotalSize(rows: seq<Row>, qs: seq<string>): nat
  {
    if qs == [] then 0 else TotalSize(rows, qs[..|qs| - 1]) + |EntriesOf(rows, qs[|qs| - 1])|
  }

  /** Adding one row to a list of queries grows the total by one exactly
      when the row's query is among them (each at most once). */
  lemma {:induction false} TotalSizeStep(rows: seq<Row>, r: Row, qs: seq<string>)
    requires forall i, j :: 0 <= i < j < |qs| ==> qs[i] != qs[j]
    ensures TotalSize(rows + [r], qs) == TotalSize(rows, qs) + (if r.queryId in qs then 1 else 0)
  {
    if qs != [] {
      var init := qs[..|qs| - 1];
      var q := qs[|qs| - 1];
      TotalSizeStep(rows, r, init);
      assert (rows + [r])[..|rows + [r]| - 1] == rows;
      assert r.queryId in qs <==> r.queryId in init || r.queryId == q;
      assert r.queryId == q ==> r.queryId !in init;
    }
  }

  /** Every row lands in exactly one group: the group sizes add up to the
      number of rows. */
  lemma {:induction false} GroupSizesSum(rows: seq<Row>)
    ensures TotalSize(rows, Qids(rows)) == |rows|
  {
    if rows != [] {
      var init := rows[..|rows| - 1];
      var r := rows[|rows| - 1];
      assert rows == init + [r];
      GroupSizesSum(init);
      TotalSizeStep(init, r, Qids(init));
      if r.queryId !in Qids(init) {
        assert EntriesOf(init, r.queryId) == [];
        var qs := Qids(init) + [r.queryId];
        assert qs[..|qs| - 1] == Qids(init);
      }
    }
  }

  /** The number of groups is the number of distinct query ids. */
  lemma {:induction false} QidsCount(rows: seq<Row>)
    ensures |Qids(rows)| == |QidSet(rows)|
  {
    if rows != [] {
      var init := rows[..|rows| - 1];
      var r := rows[|rows| - 1];
      assert rows == init + [r];
      QidsCount(init);
      assert QidSet(rows) == QidSet(init) + {r.queryId};
      if r.queryId in QidSet(init) {
        assert QidSet(rows) == QidSet(init);
        assert Qids(rows) == Qids(init);
      } else {
        assert Qids(rows) == Qids(init) + [r.queryId];
        assert |QidSet(init) + {r.queryId}| == |QidSet(init)| + 1;
      }
    }
  }

  /** Every entry of a group comes from a row of that query. */
  lemma {:induction false} EntriesOfSource(rows: seq<Row>, q: string, e: Entry)
    requires e in EntriesOf(rows, q)
    ensures exists i :: 0 <= i < |rows| && rows[i].queryId == q && EntryOf(rows[i]) == e
  {
    var init := rows[..|rows| - 1];
    var last := rows[|rows| - 1];
    if e in EntriesOf(init, q) {
      EntriesOfSource(init, q, e);
      var i :| 0 <= i < |init| && init[i].queryId == q && EntryOf(init[i]) == e;
      assert rows[i] == init[i];
    } else {
      assert rows[|rows| - 1].queryId == q && EntryOf(rows[|rows| - 1]) == e;
    }
  }

  /** No (query id, product id) pair occurs in two rows. */
  predicate DistinctPairs(rows: seq<Row>)
  {
    forall i, j :: 0 <= i < j < |rows| ==> !(rows[i].queryId == rows[j].queryId && rows[i].productId == rows[j].productId)
  }

  /** The product ids of a list of entries. */
  function ProductSet(es: seq<Entry>): set<string>
  {
    set e | e in es :: e.productId
  }

  /** No product id occurs twice among the entries. */
  predicate DistinctProducts(es: seq<Entry>)
  {
    |ProductSet(es)| == |es|
  }

  lemma {:induction false} ProductSetSize(es: seq<Entry>)
    ensures |ProductSet(es)| <= |es|
  {
    if es != [] {
      ProductSetSize(es[1..]);
      ProductSetCons(es);
    }
  }

  lemma ProductSetCons(es: seq<Entry>)
    requires es != []
    ensures ProductSet(es) == {es[0].productId} + ProductSet(es[1..])
  {
    assert es == [es[0]] + es[1..];
  }

  /** Without repeated products, the first product is not repeated later
      and the rest has no repeated product either. */
  lemma DistinctTail(es: seq<Entry>)
    requires es != [] && DistinctProducts(es)
    ensures DistinctProducts(es[1..]) && es[0].productId !in ProductSet(es[1..])
  {
    ProductSetCons(es);
    ProductSetSize(es[1..]);
  }

  /** A permutation keeps the products distinct. */
  lemma PermutationDistinct(a: seq<Entry>, b: seq<Entry>)
    requires multiset(a) == multiset(b) && DistinctProducts(a)
    ensures DistinctProducts(b)
  {
    assert |a| == |multiset(a)| == |b|;
    forall p | p in ProductSet(b) ensures p in ProductSet(a) {
      var e :| e in b && e.productId == p;
      assert e in multiset(a);
    }
    forall p | p in ProductSet(a) ensures p in ProductSet(b) {
      var e :| e in a && e.productId == p;
      assert e in multiset(b);
    }
    assert ProductSet(a) == ProductSet(b);
  }

  /** Distinct pairs make the products of every group distinct. */
  lemma {:induction false} EntriesDistinct(rows: seq<Row>, q: string)
    requires DistinctPairs(rows)
    ensures DistinctProducts(EntriesOf(rows, q))
  {
    if rows != [] {
      var init := rows[..|rows| - 1];
      var last := rows[|rows| - 1];
      assert DistinctPairs(init) by {
        assert forall i :: 0 <= i < |init| ==> init[i] == rows[i];
      }
      EntriesDistinct(init, q);
      var es := EntriesOf(init, q);
      if last.queryId != q {
        assert EntriesOf(rows, q) == es + [] == es;
      } else {
        LastIsNewProduct(rows, q);
        AppendDistinct(es, EntryOf(last));
      }
    }
  }

  /** The last row's product is new to its group. */
  lemma LastIsNewProduct(rows: seq<Row>, q: string)
    requires DistinctPairs(rows) && rows != [] && rows[|rows| - 1].queryId == q
    ensures rows[|rows| - 1].productId !in ProductSet(EntriesOf(rows[..|rows| - 1], q))
  {
    var init := rows[..|rows| - 1];
    var last := rows[|rows| - 1];
    forall e | e in EntriesOf(init, q) ensures e.productId != last.productId {
      EntriesOfSource(init, q, e);
      var i :| 0 <= i < |init| && init[i].queryId == q && EntryOf(init[i]) == e;
      assert rows[i] == init[i];
    }
  }

  lemma AppendDistinct(es: seq<Entry>, e: Entry)
    requires DistinctProducts(es) && e.productId !in ProductSet(es)
    ensures DistinctProducts(es + [e])
  {
    assert ProductSet(es + [e]) == ProductSet(es) + {e.productId} by {
      assert forall x :: x in es + [e] <==> x in es || x == e;
    }
  }

  /** Python's `defaultdict(list)` keyed by query id, together with the
      order in which its keys were first inserted. */
  datatype Grouping = Grouping(groups: map<string, seq<Entry>>, order: seq<string>)

  /** `per_query[r.queryId].append((r.rank, r.productId))`. */
  function Append(g: Grouping, r: Row): (a: Grouping)
    ensures a.groups.Keys == g.groups.Keys + {r.queryId}
    ensures a.groups[r.queryId] == (if r.queryId in g.groups then g.groups[r.queryId] else []) + [EntryOf(r)]
    ensures forall q :: q in g.groups && q != r.queryId ==> a.groups[q] == g.groups[q]
    ensures a.order == if r.queryId in g.groups then g.order else g.order + [r.queryId]
  {
    if r.queryId in g.groups then
      Grouping(g.groups[r.queryId := g.groups[r.queryId] + [EntryOf(r)]], g.order)
    else
      Grouping(g.groups[r.queryId := [EntryOf(r)]], g.order + [r.queryId])
  }

  /** g is the grouping of `rows`: its keys are the rows' query ids in
      order of first appearance, and each key holds that query's entries. */
  ghost predicate Groups(g: Grouping, rows: seq<Row>)
  {
    && g.order == Qids(rows)
    && (forall q :: q in g.groups <==> q in g.order)
    && (forall q :: q in g.groups ==> g.groups[q] == EntriesOf(rows, q))
  }

  lemma EmptyGroups()
    ensures Groups(Grouping(map[], []), [])
  {
  }

  /** Appending a row to the grouping of some rows gives the grouping of
      those rows followed by that row. */
  lemma AppendGroups(g: Grouping, rows: seq<Row>, r: Row)
    requires Groups(g, rows)
    ensures Groups(Append(g, r), rows + [r])
  {
    var rows' := rows + [r];
    assert rows'[..|rows'| - 1] == rows;
    if r.queryId !in g.groups {
      assert EntriesOf(rows, r.queryId) == [];
    }
  }

  // ----- Stable sort by rank -----

  predicate SortedByRank(es: seq<Entry>)
  {
    forall i, j :: 0 <= i < j < |es| ==> es[i].rank <= es[j].rank
  }

  /** Inserts e after every entry whose rank is at most e's. */
  function InsertByRank(e: Entry, es: seq<Entry>): (r: seq<Entry>)
    ensures |r| == |es| + 1
    ensures multiset(r) == multiset(es) + multiset{e}
  {
    if es == [] then [e]
    else if e.rank < es[0].rank then [e] + es
    else
      assert es == [es[0]] + es[1..];
      [es[0]] + InsertByRank(e, es[1..])
  }

  /** Inserting into a sorted list keeps it sorted. */
  lemma {:induction false} InsertByRankSorted(e: Entry, es: seq<Entry>)
    requires SortedByRank(es)
    ensures SortedByRank(InsertByRank(e, es))
  {
    if es == [] {
    } else if e.rank < es[0].rank {
      ConsSortedByRank(e, es);
    } else {
      InsertByRankSorted(e, es[1..]);
      InsertByRankBounded(e, es[1..], es[0].rank);
      ConsSortedByRank(es[0], InsertByRank(e, es[1..]));
    }
  }

  /** A lower bound on the ranks survives an insertion that respects it. */
  lemma {:induction false} InsertByRankBounded(e: Entry, es: seq<Entry>, lo: int)
    requires lo <= e.rank
    requires forall i :: 0 <= i < |es| ==> lo <= es[i].rank
    ensures forall i :: 0 <= i < |InsertByRank(e, es)| ==> lo <= InsertByRank(e, es)[i].rank
  {
    if es != [] && e.rank >= es[0].rank {
      InsertByRankBounded(e, es[1..], lo);
      var t := InsertByRank(e, es[1..]);
      assert forall i :: 1 <= i < |[es[0]] + t| ==> ([es[0]] + t)[i] == t[i - 1];
    }
  }

  /** An entry whose rank is at most every rank of a sorted list can lead it. */
  lemma ConsSortedByRank(x: Entry, es: seq<Entry>)
    requires SortedByRank(es)
    requires forall i :: 0 <= i < |es| ==> x.rank <= es[i].rank
    ensures SortedByRank([x] + es)
  {
    var r := [x] + es;
    forall i, j | 0 <= i < j < |r| ensures r[i].rank <= r[j].rank {
      assert r[j] == es[j - 1];
      if i > 0 {
        assert r[i] == es[i - 1];
      }
    }
  }

  /** Python's `sorted(rows, key=lambda x: x[0])`: an insertion sort that
      keeps entries of equal rank in their original order. */
  function SortByRank(es: seq<Entry>): (s: seq<Entry>)
    ensures |s| == |es|
    ensures multiset(s) == multiset(es)
    ensures SortedByRank(s)
  {
    if es == [] then []
    else
      assert es == es[..|es| - 1] + [es[|es| - 1]];
      InsertByRankSorted(es[|es| - 1], SortByRank(es[..|es| - 1]));
      InsertByRank(es[|es| - 1], SortByRank(es[..|es| - 1]))
  }

  /** The entries of rank r, in order. */
  function WithRank(es: seq<Entry>, r: int): seq<Entry>
  {
    if es == [] then [] else (if es[0].rank == r then [es[0]] else []) + WithRank(es[1..], r)
  }

  lemma {:induction false} WithRankAppend(es: seq<Entry>, e: Entry, r: int)
    ensures WithRank(es + [e], r) == WithRank(es, r) + (if e.rank == r then [e] else [])
  {
    if es != [] {
      assert (es + [e])[1..] == es[1..] + [e];
      WithRankAppend(es[1..], e, r);
    }
  }

  lemma {:induction false} WithRankAbove(es: seq<Entry>, r: int)
    requires forall i :: 0 <= i < |es| ==> r < es[i].rank
    ensures WithRank(es, r) == []
  {
    if es != [] {
      WithRankAbove(es[1..], r);
    }
  }

  lemma {:induction false} WithRankInsert(e: Entry, es: seq<Entry>, r: int)
    requires SortedByRank(es)
    ensures WithRank(InsertByRank(e, es), r) == WithRank(es, r) + (if e.rank == r then [e] else [])
  {
    if es == [] {
      WithRankCons(e, [], r);
    } else if e.rank < es[0].rank {
      assert InsertByRank(e, es) == [e] + es;
      WithRankInFront(e, es, r);
    } else {
      WithRankInsert(e, es[1..], r);
      WithRankBehind(e, es, r);
    }
  }

  /** The step of the insertion past the first entry. */
  lemma WithRankBehind(e: Entry, es: seq<Entry>, r: int)
    requires es != [] && e.rank >= es[0].rank
    requires WithRank(InsertByRank(e, es[1..]), r) == WithRank(es[1..], r) + (if e.rank == r then [e] else [])
    ensures WithRank(InsertByRank(e, es), r) == WithRank(es, r) + (if e.rank == r then [e] else [])
  {
    var head := if es[0].rank == r then [es[0]] else [];
    var added := if e.rank == r then [e] else [];
    var w := WithRank(es[1..], r);
    var tail := InsertByRank(e, es[1..]);
    assert InsertByRank(e, es) == [es[0]] + tail;
    WithRankCons(es[0], tail, r);
    assert WithRank(InsertByRank(e, es), r) == head + (w + added);
    WithRankCons(es[0], es[1..], r);
    assert [es[0]] + es[1..] == es;
    ConcatAssoc(head, w, added);
  }

  /** An entry ranked below a sorted list adds itself, if of rank r, to
      the list's entries of rank r; whether put first or last makes no
      difference. */
  lemma WithRankInFront(e: Entry, es: seq<Entry>, r: int)
    requires SortedByRank(es) && es != [] && e.rank < es[0].rank
    ensures WithRank([e] + es, r) == WithRank(es, r) + (if e.rank == r then [e] else [])
  {
    WithRankCons(e, es, r);
    if e.rank == r {
      WithRankAbove(es, r);
    }
  }

  lemma WithRankCons(x: Entry, es: seq<Entry>, r: int)
    ensures WithRank([x] + es, r) == (if x.rank == r then [x] else []) + WithRank(es, r)
  {
    assert ([x] + es)[1..] == es;
  }

  /** The sort is stable: among entries of any one rank, the sorted list
      keeps their submission order. */
  lemma {:induction false} SortByRankStable(es: seq<Entry>, r: int)
    ensures WithRank(SortByRank(es), r) == WithRank(es, r)
  {
    if es != [] {
      var init := es[..|es| - 1];
      var e := es[|es| - 1];
      assert es == init + [e];
      SortByRankStable(init, r);
      WithRankInsert(e, SortByRank(init), r);
      WithRankAppend(init, e, r);
    }
  }
}
