/** Ground-truth relevance labels and the lookup the evaluator builds from
    them: the grade of each (query, product) pair, and how many label rows
    of each query are relevant. */
module Labels {
  import opened Common

  /** One label row: a product's relevance grade for a query. */
  datatype Label = Label(queryId: string, productId: string, relevance: nat)

  /** The query ids that have at least one label row. */
  function LabelQids(labels: seq<Label>): set<string>
  {
    set l | l in labels :: l.queryId
  }

  /** The grade of the last label row for (q, p), if any. */
  function LastRelevance(labels: seq<Label>, q: string, p: string): (r: Option<nat>)
    ensures r.Some? ==> q in LabelQids(labels)
  {
    if labels == [] then None
    else
      var last := labels[|labels| - 1];
      if last.queryId == q && last.productId == p then Some(last.relevance)
      else LastRelevance(labels[..|labels| - 1], q, p)
  }

  /** The number of label rows of query q whose grade is at least 1. */
  function RelevantCount(labels: seq<Label>, q: string): (n: nat)
    ensures n <= |labels|
    ensures n > 0 ==> q in LabelQids(labels)
  {
    if labels == [] then 0
    else
      var last := labels[|labels| - 1];
      RelevantCount(labels[..|labels| - 1], q) + (if last.queryId == q && last.relevance >= 1 then 1 else 0)
  }

  /** The products of query q whose final grade is at least 1. */
  function RelevantProducts(labels: seq<Label>, q: string): set<string>
  {
    if labels == [] then {}
    else
      var last := labels[|labels| - 1];
      var prev := RelevantProducts(labels[..|labels| - 1], q);
      if last.queryId != q then prev
      else if last.relevance >= 1 then prev + {last.productId}
      else prev - {last.productId}
  }

  /** The grade the evaluator gives product p for query q: that of its
      last label row, and 0 when it has none. */
  function LabelGrade(labels: seq<Label>, q: string, p: string): (g: nat)
    ensures g > 0 ==> q in LabelQids(labels)
  {
    match LastRelevance(labels, q, p)
    case None => 0
    case Some(g) => g
  }

  /** The lookup's entry for (q, p), if any. */
  function Find(lookup: map<string, map<string, nat>>, q: string, p: string): Option<nat>
  {
    if q in lookup && p in lookup[q] then Some(lookup[q][p]) else None
  }

  /** `lookup[qid][pid] = rel` on a `defaultdict(dict)`: creates the
      query's entry if needed and sets only that pair. */
  function Put(lookup: map<string, map<string, nat>>, q: string, p: string, g: nat): (r: map<string, map<string, nat>>)
    ensures r.Keys == lookup.Keys + {q}
    ensures forall q', p' :: Find(r, q', p') == (if q' == q && p' == p then Some(g) else Find(lookup, q', p'))
  {
    var inner := if q in lookup then lookup[q] else map[];
    lookup[q := inner[p := g]]
  }

  /** `label_lookup[qid].get(pid, 0)`: unlabeled pairs get grade 0. */
  function Grade(lookup: map<string, map<string, nat>>, q: string, p: string): (g: nat)
    ensures g > 0 ==> q in lookup && p in lookup[q]
  {
    match Find(lookup, q, p)
    case None => 0
    case Some(g) => g
  }

  /** `relevant_counts[qid]`: 0 for a query that has no relevant row. */
  function Count(counts: map<string, nat>, q: string): nat
  {
    if q in counts then counts[q] else 0
  }

  /** `_build_label_lookup`: one pass over the labels that records each
      pair's grade, later rows overwriting earlier ones, and counts the
      relevant rows of each query. */
  method BuildLabelLookup(labels: seq<Label>) returns (lookup: map<string, map<string, nat>>, counts: map<string, nat>)
    ensures forall q :: q in lookup <==> q in LabelQids(labels)
    ensures forall q, p :: Find(lookup, q, p) == LastRelevance(labels, q, p)
    ensures forall q :: q in counts <==> RelevantCount(labels, q) > 0
    ensures forall q :: Count(counts, q) == RelevantCount(labels, q)
  {
    lookup := map[];
    counts := map[];
    for i := 0 to |labels|
      invariant LookupOf(lookup, labels[..i])
      invariant CountsOf(counts, labels[..i])
    {
      var row := labels[i];
      ghost var done := labels[..i];
      TakeOneMore(labels, i);
      LabelStep(done, row);
      LookupStep(lookup, done, row);
      lookup := Put(lookup, row.queryId, row.productId, row.relevance);
      if row.relevance >= 1 {
        CountsStep(counts, done, row);
        counts := counts[row.queryId := Count(counts, row.queryId) + 1];
      } else {
        CountsSkip(counts, done, row);
      }
    }
    assert labels[..|labels|] == labels;
  }

  /** The lookup holds the grade of every labelled pair of these rows. */
  ghost predicate LookupOf(lookup: map<string, map<string, nat>>, labels: seq<Label>)
  {
    && (forall q :: q in lookup <==> q in LabelQids(labels))
    && (forall q, p :: Find(lookup, q, p) == LastRelevance(labels, q, p))
  }

  /** The counts hold the number of relevant rows of every query. */
  ghost predicate CountsOf(counts: map<string, nat>, labels: seq<Label>)
  {
    && (forall q :: q in counts <==> RelevantCount(labels, q) > 0)
    && (forall q :: Count(counts, q) == RelevantCount(labels, q))
  }

  /** Recording one more row keeps the lookup in step with the rows. */
  lemma LookupStep(lookup: map<string, map<string, nat>>, labels: seq<Label>, row: Label)
    requires LookupOf(lookup, labels)
    ensures LookupOf(Put(lookup, row.queryId, row.productId, row.relevance), labels + [row])
  {
    LabelStep(labels, row);
  }

  /** Counting one more relevant row keeps the counts in step. */
  lemma CountsStep(counts: map<string, nat>, labels: seq<Label>, row: Label)
    requires CountsOf(counts, labels) && row.relevance >= 1
    ensures CountsOf(counts[row.queryId := Count(counts, row.queryId) + 1], labels + [row])
  {
    LabelStep(labels, row);
  }

  /** A row with grade 0 leaves the counts in step unchanged. */
  lemma CountsSkip(counts: map<string, nat>, labels: seq<Label>, row: Label)
    requires CountsOf(counts, labels) && row.relevance == 0
    ensures CountsOf(counts, labels + [row])
  {
    LabelStep(labels, row);
  }

  /** What one more label row changes in each specification function. */
  lemma LabelStep(labels: seq<Label>, row: Label)
    ensures LabelQids(labels + [row]) == LabelQids(labels) + {row.queryId}
    ensures forall q, p :: LastRelevance(labels + [row], q, p)
                          == (if row.queryId == q && row.productId == p then Some(row.relevance) else LastRelevance(labels, q, p))
    ensures forall q :: RelevantCount(labels + [row], q)
                       == RelevantCount(labels, q) + (if row.queryId == q && row.relevance >= 1 then 1 else 0)
  {
    DropLast(labels, row);
  }

  /** No label row for (q, p) means no grade. */
  lemma {:induction false} LastRelevanceNoneIff(labels: seq<Label>, q: string, p: string)
    ensures LastRelevance(labels, q, p) == None <==>
      forall j :: 0 <= j < |labels| ==> !(labels[j].queryId == q && labels[j].productId == p)
  {
    if labels != [] {
      var init := labels[..|labels| - 1];
      LastRelevanceNoneIff(init, q, p);
      assert forall j :: 0 <= j < |init| ==> init[j] == labels[j];
    }
  }

  /** Later rows overwrite earlier ones: the grade of (q, p) is that of the
      last row for the pair. */
  lemma {:induction false} LastRelevanceIsLast(labels: seq<Label>, j: nat)
    requires j < |labels|
    requires forall k :: j < k < |labels| ==>
      !(labels[k].queryId == labels[j].queryId && labels[k].productId == labels[j].productId)
    ensures LastRelevance(labels, labels[j].queryId, labels[j].productId) == Some(labels[j].relevance)
  {
    if j < |labels| - 1 {
      var init := labels[..|labels| - 1];
      assert init[j] == labels[j];
      assert forall k :: j < k < |init| ==> init[k] == labels[k];
      LastRelevanceIsLast(init, j);
    }
  }

  /** A product is among the relevant products of q exactly when its
      final grade is at least 1. */
  lemma {:induction false} RelevantProductsIff(labels: seq<Label>, q: string, p: string)
    ensures p in RelevantProducts(labels, q) <==> LastRelevance(labels, q, p).Some? && LastRelevance(labels, q, p).value >= 1
  {
    if labels != [] {
      RelevantProductsIff(labels[..|labels| - 1], q, p);
    }
  }

  /** Every relevant product has at least one relevant row, so the count of
      relevant rows is at least the number of relevant products. */
  lemma {:induction false} RelevantCountBound(labels: seq<Label>, q: string)
    ensures |RelevantProducts(labels, q)| <= RelevantCount(labels, q)
  {
    if labels != [] {
      var init := labels[..|labels| - 1];
      var last := labels[|labels| - 1];
      RelevantCountBound(init, q);
      var prev := RelevantProducts(init, q);
      if last.queryId == q && last.relevance >= 1 {
        assert |prev + {last.productId}| <= |prev| + 1;
      } else if last.queryId == q {
        assert prev - {last.productId} <= prev;
      }
    }
  }
}
