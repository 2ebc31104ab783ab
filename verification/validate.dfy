/** The submission validator: one pass over the submitted rows that
    collects every defect it finds (malformed rows, unknown products,
    duplicate (query id, product id) pairs), then a coverage check against
    the required queries, a per-query check of depth and rank continuity,
    and the final status. */
module Validate {
  import opened Common
  import opened Submission

  // ----- Inputs -----

  /** One element of the submitted JSON array: either not an object, or an
      object whose three fields may each be absent (or null). */
  datatype RawRow =
    | NonObject
    | Object(queryId: Option<string>, rank: Option<int>, productId: Option<string>)

  /** The submission file: absent, parsed to something other than an array,
      or an array of elements. */
  datatype SubmissionFile = FileMissing | NotAnArray | Array(raws: seq<RawRow>)

  /** One object of an object-style catalog; its `product_id` may be absent. */
  datatype ProductObject = ProductObject(productId: Option<string>)

  /** The parsed product catalog: not a list, a list of product-id strings,
      or a list of objects. */
  datatype Catalog = NotAList | Strings(ids: seq<string>) | Objects(objects: seq<ProductObject>)

  // ----- Report -----

  /** A (query id, product id) pair. */
  datatype Pair = Pair(queryId: string, productId: string)

  /** The validator's errors, one constructor per message it can add. */
  datatype Error =
    | SubmissionNotFound
    | NotAnArrayOfObjects
    | RowNotObject
    | RowMissingFields(row: RawRow)
    | UnknownProduct(queryId: string, productId: string)
    | MissingQueries(count: nat)
    | TooFewResults(queryId: string, count: nat)
    | RanksNotContinuous(queryId: string, found: int, expected: int)
    | DuplicatePairs(sample: seq<Pair>)

  /** The only warning: a sample of the missing query ids. */
  datatype Warning = MissingQueriesSample(sample: seq<string>)

  datatype Status = Passed | Failed

  datatype Report = Report(team: string, status: Status, errors: seq<Error>, warnings: seq<Warning>,
                           queriesChecked: nat, avgDepth: Option<real>)

  /** A query needs at least this many ranked products. */
  const MinResults: nat := 30
  /** At most this many missing query ids are listed in the warning. */
  const MissingSampleSize: nat := 20
  /** At most this many duplicate pairs are listed in the error. */
  const DuplicateSampleSize: nat := 10

  // ----- Catalog -----

  /** `_extract_products` as a value: the strings of a string list, the
      non-empty `product_id`s of an object list, and nothing otherwise. */
  function ProductIds(cat: Catalog): set<string>
  {
    match cat
    case NotAList => {}
    case Strings(ids) => set p | p in ids
    case Objects(objects) => set o | o in objects && o.productId.Some? && o.productId.value != "" :: o.productId.value
  }

  /** `_extract_products`: a string list is turned into a set at once, an
      object list is scanned for truthy `product_id`s. */
  method ExtractProducts(cat: Catalog) returns (ids: set<string>)
    ensures ids == ProductIds(cat)
    ensures forall p :: p in ids <==>
      || (cat.Strings? && exists i :: 0 <= i < |cat.ids| && cat.ids[i] == p)
      || (cat.Objects? && p != "" && exists i :: 0 <= i < |cat.objects| && cat.objects[i].productId == Some(p))
  {
    ids := {};
    match cat
    case NotAList =>
    case Strings(list) =>
      if list == [] {
        return;
      }
      ids := set p | p in list;
    case Objects(objects) =>
      if objects == [] {
        return;
      }
      for i := 0 to |objects|
        invariant forall p :: p in ids <==> p != "" && exists j :: 0 <= j < i && objects[j].productId == Some(p)
      {
        var pid := objects[i].productId;
        if pid.Some? && pid.value != "" {
          ids := ids + {pid.value};
        }
      }
  }

  // ----- Required queries -----

  /** The union of the real query ids (none without a real query file) and
      the synthetic ones. */
  function RequiredQueries(realIds: Option<seq<string>>, synth: seq<string>): set<string>
  {
    (if realIds.Some? then set q | q in realIds.value else {}) + set q | q in synth
  }

  /** The two loops that collect the required query ids. */
  method CollectRequired(realIds: Option<seq<string>>, synth: seq<string>) returns (required: set<string>)
    ensures required == RequiredQueries(realIds, synth)
    ensures forall q :: q in required <==> (realIds.Some? && q in realIds.value) || q in synth
  {
    var ids := if realIds.Some? then realIds.value else [];
    required := {};
    for i := 0 to |ids|
      invariant required == set q | q in ids[..i]
    {
      TakeOneMore(ids, i);
      required := required + {ids[i]};
    }
    assert ids[..|ids|] == ids;
    ghost var fromReal := required;
    for i := 0 to |synth|
      invariant required == fromReal + set q | q in synth[..i]
    {
      TakeOneMore(synth, i);
      required := required + {synth[i]};
    }
    assert synth[..|synth|] == synth;
  }

  // ----- Row scan -----

  /** The row a raw element stands for, when it is an object with all three
      fields. */
  function Parse(raw: RawRow): (r: Option<Row>)
    ensures r.Some? <==> raw.Object? && raw.queryId.Some? && raw.rank.Some? && raw.productId.Some?
  {
    match raw
    case NonObject => None
    case Object(q, k, p) =>
      if q.None? || k.None? || p.None? then None else Some(Row(q.value, k.value, p.value))
  }

  /** The well-formed rows, in order: the rows the validator records. */
  function Accepted(raws: seq<RawRow>): (rows: seq<Row>)
    ensures |rows| <= |raws|
  {
    if raws == [] then []
    else
      var prev := Accepted(raws[..|raws| - 1]);
      match Parse(raws[|raws| - 1])
      case None => prev
      case Some(r) => prev + [r]
  }

  /** The errors one element adds during the scan. */
  function RowError(raw: RawRow, valid: set<string>): (errs: seq<Error>)
    ensures |errs| <= 1
  {
    match raw
    case NonObject => [RowNotObject]
    case Object(q, k, p) =>
      if q.None? || k.None? || p.None? then [RowMissingFields(raw)]
      else if p.value !in valid then [UnknownProduct(q.value, p.value)]
      else []
  }

  /** The errors of the scan, in row order. */
  function RowErrors(raws: seq<RawRow>, valid: set<string>): seq<Error>
  {
    if raws == [] then [] else RowErrors(raws[..|raws| - 1], valid) + RowError(raws[|raws| - 1], valid)
  }

  function PairOf(r: Row): Pair
  {
    Pair(r.queryId, r.productId)
  }

  /** `seen_pairs` after the rows. */
  function PairSet(rows: seq<Row>): set<Pair>
  {
    set r | r in rows :: PairOf(r)
  }

  /** `duplicate_pairs`: the pair of every row whose pair an earlier row
      already had, in row order. */
  function Duplicates(rows: seq<Row>): seq<Pair>
  {
    if rows == [] then []
    else
      var init := rows[..|rows| - 1];
      var p := PairOf(rows[|rows| - 1]);
      Duplicates(init) + (if p in PairSet(init) then [p] else [])
  }

  /** What one more element changes in each specification function of the
      scan. */
  lemma ScanStep(raws: seq<RawRow>, raw: RawRow, valid: set<string>)
    ensures Accepted(raws + [raw]) == Accepted(raws) + (if Parse(raw).Some? then [Parse(raw).value] else [])
    ensures RowErrors(raws + [raw], valid) == RowErrors(raws, valid) + RowError(raw, valid)
  {
    DropLast(raws, raw);
  }

  lemma PairStep(rows: seq<Row>, r: Row)
    ensures PairSet(rows + [r]) == PairSet(rows) + {PairOf(r)}
    ensures Duplicates(rows + [r]) == Duplicates(rows) + (if PairOf(r) in PairSet(rows) then [PairOf(r)] else [])
  {
    DropLast(rows, r);
    assert forall x :: x in rows + [r] <==> x in rows || x == r;
  }

  /** The row loop of `validate_submission`: reports malformed elements and
      unknown products, groups the well-formed rows by query, and collects
      the repeated pairs. */
  method ScanRows(raws: seq<RawRow>, valid: set<string>) returns (errors: seq<Error>, g: Grouping, dups: seq<Pair>)
    ensures errors == RowErrors(raws, valid)
    ensures Groups(g, Accepted(raws))
    ensures dups == Duplicates(Accepted(raws))
  {
    errors := [];
    g := Grouping(map[], []);
    dups := [];
    var seen: set<Pair> := {};
    EmptyGroups();
    for i := 0 to |raws|
      invariant errors == RowErrors(raws[..i], valid)
      invariant Groups(g, Accepted(raws[..i]))
      invariant seen == PairSet(Accepted(raws[..i]))
      invariant dups == Duplicates(Accepted(raws[..i]))
    {
      var raw := raws[i];
      TakeOneMore(raws, i);
      ScanStep(raws[..i], raw, valid);
      ghost var done := Accepted(raws[..i]);
      match raw
      case NonObject =>
        errors := errors + [RowNotObject];
      case Object(qid, rank, pid) =>
        if qid.None? || rank.None? || pid.None? {
          errors := errors + [RowMissingFields(raw)];
        } else {
          var row := Row(qid.value, rank.value, pid.value);
          PairStep(done, row);
          var pair := Pair(qid.value, pid.value);
          if pair in seen {
            dups := dups + [pair];
          }
          seen := seen + {pair};
          if pid.value !in valid {
            errors := errors + [UnknownProduct(qid.value, pid.value)];
          }
          AppendGroups(g, done, row);
          g := Append(g, row);
        }
    }
    assert raws[..|raws|] == raws;
  }

  // ----- Coverage -----

  /** The coverage error: how many required queries have no row. */
  function CoverageErrors(required: set<string>, rows: seq<Row>): seq<Error>
  {
    var missing := required - QidSet(rows);
    if |missing| > 0 then [MissingQueries(|missing|)] else []
  }

  /** `missing_queries`: every required query id without a group, each
      once, in the (unspecified) iteration order of the required set. */
  method ListMissing(required: set<string>, g: Grouping) returns (missing: seq<string>)
    ensures forall q :: q in missing <==> q in required && q !in g.groups
    ensures forall i, j :: 0 <= i < j < |missing| ==> missing[i] != missing[j]
    ensures |missing| == |required - g.groups.Keys|
  {
    missing := [];
    var rest := required;
    ghost var found: set<string> := {};
    while rest != {}
      invariant rest <= required
      invariant forall q :: q in found <==> q in required && q !in rest && q !in g.groups
      invariant forall q :: q in missing <==> q in found
      invariant forall i, j :: 0 <= i < j < |missing| ==> missing[i] != missing[j]
      invariant |missing| == |found|
      decreases rest
    {
      var q :| q in rest;
      if q !in g.groups {
        NewElement(missing, found, q);
        missing := missing + [q];
        found := found + {q};
      }
      rest := rest - {q};
    }
    assert found == required - g.groups.Keys;
  }

  /** Appending an element not yet listed keeps the list free of repeats
      and its length equal to the size of its set. */
  lemma NewElement(xs: seq<string>, s: set<string>, x: string)
    requires forall y :: y in xs <==> y in s
    requires forall i, j :: 0 <= i < j < |xs| ==> xs[i] != xs[j]
    requires |xs| == |s| && x !in s
    ensures forall i, j :: 0 <= i < j < |xs + [x]| ==> (xs + [x])[i] != (xs + [x])[j]
    ensures |xs + [x]| == |s + {x}|
  {
  }

  /** The coverage check: one error counting the required queries without
      rows, and one warning listing up to twenty of them. */
  method CheckCoverage(required: set<string>, g: Grouping, ghost rows: seq<Row>)
    returns (errors: seq<Error>, warnings: seq<Warning>)
    requires Groups(g, rows)
    ensures errors == CoverageErrors(required, rows)
    ensures required - QidSet(rows) == {} ==> warnings == []
    ensures required - QidSet(rows) != {} ==>
      |warnings| == 1 && IsSample(warnings[0].sample, required - QidSet(rows), MissingSampleSize)
  {
    var missing := ListMissing(required, g);
    assert g.groups.Keys == QidSet(rows);
    if |missing| > 0 {
      errors := [MissingQueries(|missing|)];
      var sample := PyPrefix(missing, MissingSampleSize);
      SampleOfList(missing, required - QidSet(rows), MissingSampleSize);
      warnings := [MissingQueriesSample(sample)];
    } else {
      errors := [];
      warnings := [];
    }
  }

  /** The first n elements of a repeat-free listing of a set are a sample
      of it. */
  lemma SampleOfList(xs: seq<string>, s: set<string>, n: nat)
    requires forall y :: y in xs <==> y in s
    requires forall i, j :: 0 <= i < j < |xs| ==> xs[i] != xs[j]
    requires |xs| == |s|
    ensures IsSample(PyPrefix(xs, n), s, n)
  {
    var p := PyPrefix(xs, n);
    assert forall i :: 0 <= i < |p| ==> p[i] == xs[i];
  }

  /** A warning sample: at most n distinct elements of the set. */
  predicate IsSample(sample: seq<string>, of: set<string>, n: nat)
  {
    && |sample| == Cut(n, |of|)
    && (forall i :: 0 <= i < |sample| ==> sample[i] in of)
    && (forall i, j :: 0 <= i < j < |sample| ==> sample[i] != sample[j])
  }

  // ----- Per-query checks -----

  /** The position of the first entry, from the front, whose rank is not
      start plus its position. */
  function FirstGap(es: seq<Entry>, start: int): (gap: Option<nat>)
    ensures gap.None? <==> forall i :: 0 <= i < |es| ==> es[i].rank == start + i
    ensures gap.Some? ==> gap.value < |es| && es[gap.value].rank != start + gap.value
                          && forall i :: 0 <= i < gap.value ==> es[i].rank == start + i
    decreases |es|
  {
    if es == [] then None
    else if es[0].rank != start then Some(0)
    else
      match FirstGap(es[1..], start + 1)
      case None => None
      case Some(k) => Some(k + 1)
  }

  /** The ranks are exactly 1, 2, ..., n. */
  predicate RanksOneToN(es: seq<Entry>)
  {
    forall i :: 0 <= i < |es| ==> es[i].rank == i + 1
  }

  /** The continuity loop: walks the sorted entries with the expected rank
      and stops at the first mismatch. */
  method CheckContinuity(es: seq<Entry>) returns (gap: Option<nat>)
    ensures gap == FirstGap(es, 1)
  {
    gap := None;
    var expected := 1;
    var i := 0;
    while i < |es|
      invariant 0 <= i <= |es| && expected == i + 1
      invariant forall j :: 0 <= j < i ==> es[j].rank == j + 1
    {
      if es[i].rank != expected {
        gap := Some(i);
        break;
      }
      expected := expected + 1;
      i := i + 1;
    }
  }

  /** The errors of one query's sorted entries: too few of them, and the
      first break in the ranks. */
  function QueryErrors(q: string, sorted: seq<Entry>): (es: seq<Error>)
    ensures |es| <= 2
  {
    (if |sorted| < MinResults then [TooFewResults(q, |sorted|)] else [])
    + match FirstGap(sorted, 1)
      case None => []
      case Some(k) => [RanksNotContinuous(q, sorted[k].rank, k + 1)]
  }

  /** The per-query errors of the queries qs, in order. */
  function PerQueryErrors(rows: seq<Row>, qs: seq<string>): seq<Error>
  {
    if qs == [] then []
    else
      var q := qs[|qs| - 1];
      PerQueryErrors(rows, qs[..|qs| - 1]) + QueryErrors(q, SortByRank(EntriesOf(rows, q)))
  }

  /** The checks of one group. */
  method CheckQuery(q: string, entries: seq<Entry>) returns (errors: seq<Error>, depth: nat)
    ensures errors == QueryErrors(q, SortByRank(entries))
    ensures depth == |entries|
  {
    var sorted := SortByRank(entries);
    depth := |sorted|;
    errors := CheckSorted(q, sorted);
  }

  /** The two checks on a query's entries sorted by rank: the depth check,
      then the continuity check. */
  method CheckSorted(q: string, sorted: seq<Entry>) returns (errors: seq<Error>)
    ensures errors == QueryErrors(q, sorted)
  {
    var depthErrors: seq<Error> := [];
    if |sorted| < MinResults {
      depthErrors := [TooFewResults(q, |sorted|)];
    }
    var gap := CheckContinuity(sorted);
    var rankErrors: seq<Error> := [];
    if gap.Some? {
      rankErrors := [RanksNotContinuous(q, sorted[gap.value].rank, gap.value + 1)];
    }
    errors := depthErrors + rankErrors;
  }

  /** The per-query loop: checks every group in order of first appearance,
      counting the groups and summing their sizes. */
  method CheckQueries(g: Grouping, ghost rows: seq<Row>) returns (errors: seq<Error>, qcount: nat, depth: nat)
    requires Groups(g, rows)
    ensures errors == PerQueryErrors(rows, Qids(rows))
    ensures qcount == |QidSet(rows)|
    ensures depth == |rows|
  {
    errors := [];
    qcount := 0;
    depth := 0;
    for i := 0 to |g.order|
      invariant errors == PerQueryErrors(rows, g.order[..i])
      invariant qcount == i
      invariant depth == TotalSize(rows, g.order[..i])
    {
      var q := g.order[i];
      GroupAt(g, rows, i);
      var errs, size := CheckQuery(q, g.groups[q]);
      PerQueryStep(rows, g.order, i);
      qcount := qcount + 1;
      depth := depth + size;
      errors := errors + errs;
    }
    CheckedAll(g, rows);
  }

  /** The group of the i-th query in order holds that query's entries. */
  lemma GroupAt(g: Grouping, rows: seq<Row>, i: nat)
    requires Groups(g, rows) && i < |g.order|
    ensures g.order[i] in g.groups && g.groups[g.order[i]] == EntriesOf(rows, g.order[i])
  {
  }

  /** Once every group is checked, the count is that of the distinct
      queries and the summed depth is the number of rows. */
  lemma CheckedAll(g: Grouping, rows: seq<Row>)
    requires Groups(g, rows)
    ensures g.order[..|g.order|] == Qids(rows)
    ensures |g.order| == |QidSet(rows)|
    ensures TotalSize(rows, g.order[..|g.order|]) == |rows|
  {
    assert g.order[..|g.order|] == g.order;
    QidsCount(rows);
    GroupSizesSum(rows);
  }

  /** Checking the i-th query appends its errors and adds its size. */
  lemma PerQueryStep(rows: seq<Row>, qs: seq<string>, i: nat)
    requires i < |qs|
    ensures PerQueryErrors(rows, qs[..i + 1]) == PerQueryErrors(rows, qs[..i]) + QueryErrors(qs[i], SortByRank(EntriesOf(rows, qs[i])))
    ensures TotalSize(rows, qs[..i + 1]) == TotalSize(rows, qs[..i]) + |EntriesOf(rows, qs[i])|
  {
    TakeOneMore(qs, i);
    DropLast(qs[..i], qs[i]);
  }

  // ----- Aggregates and status -----

  /** The duplicate error, listing the first ten repeated pairs. */
  function DuplicateErrors(dups: seq<Pair>): (es: seq<Error>)
    ensures es == [] <==> dups == []
    ensures es != [] ==>
      |es| == 1 && es[0].DuplicatePairs?
      && |es[0].sample| == (if |dups| < DuplicateSampleSize then |dups| else DuplicateSampleSize)
  {
    if dups == [] then [] else [DuplicatePairs(PyPrefix(dups, DuplicateSampleSize))]
  }

  /** All the errors of a submission array, in the order they are added. */
  function ErrorsOf(raws: seq<RawRow>, valid: set<string>, required: set<string>): seq<Error>
  {
    var rows := Accepted(raws);
    RowErrors(raws, valid) + CoverageErrors(required, rows)
    + PerQueryErrors(rows, Qids(rows)) + DuplicateErrors(Duplicates(rows))
  }

  lemma ErrorsOfParts(raws: seq<RawRow>, valid: set<string>, required: set<string>)
    ensures var rows := Accepted(raws);
      ErrorsOf(raws, valid, required)
      == RowErrors(raws, valid) + CoverageErrors(required, rows) + PerQueryErrors(rows, Qids(rows))
         + DuplicateErrors(Duplicates(rows))
  {
  }

  /** `avg_depth`: rows per checked query, 0 without queries. */
  function AvgDepth(rows: seq<Row>): (a: real)
    ensures a >= 0.0
    ensures a == 0.0 <==> rows == []
  {
    assert rows != [] ==> rows[0].queryId in QidSet(rows);
    if |QidSet(rows)| == 0 then 0.0 else |rows| as real / |QidSet(rows)| as real
  }

  /** `validate_submission`. A missing file or a non-array submission ends
      the validation with that one error; otherwise every error of the scan,
      the coverage check, the per-query checks and the duplicate check is
      reported, and the submission passes exactly when there is none. */
  method ValidateSubmission(sub: SubmissionFile, cat: Catalog, realIds: Option<seq<string>>, synth: seq<string>,
                            team: string) returns (rep: Report)
    ensures sub.FileMissing? ==> rep == Report(team, Failed, [SubmissionNotFound], [], 0, None)
    ensures sub.NotAnArray? ==> rep == Report(team, Failed, [NotAnArrayOfObjects], [], 0, None)
    ensures sub.Array? ==>
      var rows := Accepted(sub.raws);
      var missing := RequiredQueries(realIds, synth) - QidSet(rows);
      && rep.team == team
      && rep.errors == ErrorsOf(sub.raws, ProductIds(cat), RequiredQueries(realIds, synth))
      && rep.queriesChecked == |QidSet(rows)|
      && rep.avgDepth == Some(AvgDepth(rows))
      && (missing == {} ==> rep.warnings == [])
      && (missing != {} ==> |rep.warnings| == 1 && IsSample(rep.warnings[0].sample, missing, MissingSampleSize))
    ensures rep.status == Passed <==> rep.errors == []
  {
    if sub.FileMissing? {
      return Report(team, Failed, [SubmissionNotFound], [], 0, None);
    }
    var valid := ExtractProducts(cat);
    var required := CollectRequired(realIds, synth);
    if sub.NotAnArray? {
      return Report(team, Failed, [NotAnArrayOfObjects], [], 0, None);
    }
    ghost var rows := Accepted(sub.raws);
    var errors, g, dups := ScanRows(sub.raws, valid);
    var coverageErrors, warnings := CheckCoverage(required, g, rows);
    errors := errors + coverageErrors;
    var queryErrors, qcount, depth := CheckQueries(g, rows);
    errors := errors + queryErrors;
    var avg := if qcount == 0 then 0.0 else depth as real / qcount as real;
    var duplicateErrors: seq<Error> := [];
    if dups != [] {
      duplicateErrors := [DuplicatePairs(PyPrefix(dups, DuplicateSampleSize))];
    }
    errors := errors + duplicateErrors;
    ErrorsOfParts(sub.raws, valid, required);
    var status := if errors == [] then Passed else Failed;
    rep := Report(team, status, errors, warnings, qcount, Some(avg));
  }

  // ----- Properties -----

  /** The scan reports nothing exactly when every element is an object with
      all three fields whose product is in the catalog. */
  lemma {:induction false} RowErrorsEmptyIff(raws: seq<RawRow>, valid: set<string>)
    ensures RowErrors(raws, valid) == [] <==>
      forall i :: 0 <= i < |raws| ==> Parse(raws[i]).Some? && Parse(raws[i]).value.productId in valid
  {
    if raws != [] {
      var init := raws[..|raws| - 1];
      RowErrorsEmptyIff(init, valid);
      assert forall i :: 0 <= i < |init| ==> init[i] == raws[i];
    }
  }

  /** The rows whose product is not in the catalog. */
  function Unknown(rows: seq<Row>, valid: set<string>): (r: seq<Row>)
    ensures |r| <= |rows|
  {
    if rows == [] then []
    else
      var last := rows[|rows| - 1];
      Unknown(rows[..|rows| - 1], valid) + (if last.productId in valid then [] else [last])
  }

  /** Every malformed element adds one error and every well-formed row with
      an unknown product adds one, duplicates included. */
  lemma {:induction false} RowErrorsCount(raws: seq<RawRow>, valid: set<string>)
    ensures |RowErrors(raws, valid)| == (|raws| - |Accepted(raws)|) + |Unknown(Accepted(raws), valid)|
  {
    if raws != [] {
      var init := raws[..|raws| - 1];
      var raw := raws[|raws| - 1];
      RowErrorsCount(init, valid);
      assert raws == init + [raw];
      ScanStep(init, raw, valid);
      if Parse(raw).Some? {
        DropLast(Accepted(init), Parse(raw).value);
      }
    }
  }

  /** An unknown-product error names a well-formed row whose product is not
      in the catalog, and every such row has one. */
  lemma {:induction false} UnknownProductIff(raws: seq<RawRow>, valid: set<string>, q: string, p: string)
    ensures UnknownProduct(q, p) in RowErrors(raws, valid) <==> p !in valid && Pair(q, p) in PairSet(Accepted(raws))
  {
    if raws != [] {
      var init := raws[..|raws| - 1];
      var raw := raws[|raws| - 1];
      UnknownProductIff(init, valid, q, p);
      assert raws == init + [raw];
      ScanStep(init, raw, valid);
      if Parse(raw).Some? {
        PairStep(Accepted(init), Parse(raw).value);
      }
    }
  }

  /** Each row either brings a new pair or is listed as a duplicate. */
  lemma {:induction false} DuplicatesCount(rows: seq<Row>)
    ensures |Duplicates(rows)| + |PairSet(rows)| == |rows|
  {
    if rows != [] {
      var init := rows[..|rows| - 1];
      var r := rows[|rows| - 1];
      DuplicatesCount(init);
      assert rows == init + [r];
      PairStep(init, r);
      if PairOf(r) !in PairSet(init) {
        assert |PairSet(init) + {PairOf(r)}| == |PairSet(init)| + 1;
      } else {
        assert PairSet(init) + {PairOf(r)} == PairSet(init);
      }
    }
  }

  /** A pair is listed as a duplicate exactly when two rows have it. */
  lemma {:induction false} DuplicateIff(rows: seq<Row>, p: Pair)
    ensures p in Duplicates(rows) <==>
      exists i, j :: 0 <= i < j < |rows| && PairOf(rows[i]) == p && PairOf(rows[j]) == p
  {
    if rows != [] {
      var init := rows[..|rows| - 1];
      var r := rows[|rows| - 1];
      DuplicateIff(init, p);
      assert forall i :: 0 <= i < |init| ==> init[i] == rows[i];
      if PairOf(r) == p && p in PairSet(init) {
        var x :| x in init && PairOf(x) == p;
        var i :| 0 <= i < |init| && init[i] == x;
        assert PairOf(rows[i]) == p && PairOf(rows[|rows| - 1]) == p;
      }
      if exists i, j :: 0 <= i < j < |rows| && PairOf(rows[i]) == p && PairOf(rows[j]) == p {
        var i, j :| 0 <= i < j < |rows| && PairOf(rows[i]) == p && PairOf(rows[j]) == p;
        if j == |rows| - 1 {
          assert init[i] in init;
        }
      }
    }
  }

  /** No duplicate is reported exactly when the pairs are distinct. */
  lemma DuplicatesEmptyIff(rows: seq<Row>)
    ensures Duplicates(rows) == [] <==> DistinctPairs(rows)
  {
    if Duplicates(rows) != [] {
      DuplicateIff(rows, Duplicates(rows)[0]);
    }
    if !DistinctPairs(rows) {
      var i, j :| 0 <= i < j < |rows| && rows[i].queryId == rows[j].queryId && rows[i].productId == rows[j].productId;
      DuplicateIff(rows, PairOf(rows[i]));
    }
  }

  /** A query passes its checks when it has enough entries and its ranks,
      once sorted, are 1, 2, ..., n. */
  predicate QueryOk(rows: seq<Row>, q: string)
  {
    |EntriesOf(rows, q)| >= MinResults && RanksOneToN(SortByRank(EntriesOf(rows, q)))
  }

  /** A query gets at most two errors: "too few results" exactly when it
      has fewer than 30 entries, and a continuity error exactly when its
      sorted ranks are not 1..n. */
  lemma QueryErrorsShape(q: string, sorted: seq<Entry>)
    ensures |QueryErrors(q, sorted)| <= 2
    ensures TooFewResults(q, |sorted|) in QueryErrors(q, sorted) <==> |sorted| < MinResults
    ensures (exists i :: 0 <= i < |QueryErrors(q, sorted)| && QueryErrors(q, sorted)[i].RanksNotContinuous?)
            <==> !RanksOneToN(sorted)
    ensures QueryErrors(q, sorted) == [] <==> |sorted| >= MinResults && RanksOneToN(sorted)
  {
    var errs := QueryErrors(q, sorted);
    if !RanksOneToN(sorted) {
      assert errs[|errs| - 1].RanksNotContinuous?;
    }
  }

  /** The per-query checks report nothing exactly when every query passes. */
  lemma {:induction false} PerQueryErrorsEmptyIff(rows: seq<Row>, qs: seq<string>)
    ensures PerQueryErrors(rows, qs) == [] <==> forall q :: q in qs ==> QueryOk(rows, q)
  {
    if qs != [] {
      var init := qs[..|qs| - 1];
      var q := qs[|qs| - 1];
      assert qs == init + [q];
      PerQueryErrorsEmptyIff(rows, init);
      var a := PerQueryErrors(rows, init);
      var b := QueryErrors(q, SortByRank(EntriesOf(rows, q)));
      assert PerQueryErrors(rows, qs) == a + b;
      EmptyConcat(a, b);
      QueryErrorsShape(q, SortByRank(EntriesOf(rows, q)));
      assert b == [] <==> QueryOk(rows, q);
    }
  }

  /** A submission array passes exactly when every element is a well-formed
      row with a known product, every required query has rows, every query
      passes its checks, and no (query id, product id) pair repeats. */
  lemma PassIff(raws: seq<RawRow>, valid: set<string>, required: set<string>)
    ensures var rows := Accepted(raws);
      ErrorsOf(raws, valid, required) == [] <==>
        && (forall i :: 0 <= i < |raws| ==> Parse(raws[i]).Some? && Parse(raws[i]).value.productId in valid)
        && required <= QidSet(rows)
        && (forall q :: q in QidSet(rows) ==> QueryOk(rows, q))
        && DistinctPairs(rows)
  {
    var rows := Accepted(raws);
    RowErrorsEmptyIff(raws, valid);
    PerQueryErrorsEmptyIff(rows, Qids(rows));
    DuplicatesEmptyIff(rows);
    ErrorsOfParts(raws, valid, required);
    var a := RowErrors(raws, valid);
    var b := CoverageErrors(required, rows);
    var c := PerQueryErrors(rows, Qids(rows));
    var d := DuplicateErrors(Duplicates(rows));
    EmptyConcat(a + b + c, d);
    EmptyConcat(a + b, c);
    EmptyConcat(a, b);
    CoverageEmptyIff(required, rows);
  }

  /** The coverage check reports nothing exactly when every required query
      has rows. */
  lemma CoverageEmptyIff(required: set<string>, rows: seq<Row>)
    ensures CoverageErrors(required, rows) == [] <==> required <= QidSet(rows)
  {
    var missing := required - QidSet(rows);
    if missing != {} {
      var x :| x in missing;
      assert |missing| > 0 && x in required && x !in QidSet(rows);
    } else {
      assert |missing| == 0;
      assert forall x :: x in required ==> x in QidSet(rows) by {
        forall x | x in required ensures x in QidSet(rows) {
          assert x !in missing;
        }
      }
    }
  }

  /** Groups of at least 30 entries each hold at least 30 entries per query. */
  lemma {:induction false} DepthAtLeast(rows: seq<Row>, qs: seq<string>)
    requires forall i :: 0 <= i < |qs| ==> |EntriesOf(rows, qs[i])| >= MinResults
    ensures TotalSize(rows, qs) >= MinResults * |qs|
  {
    if qs != [] {
      var init := qs[..|qs| - 1];
      assert forall i :: 0 <= i < |init| ==> init[i] == qs[i];
      DepthAtLeast(rows, init);
    }
  }

  /** A passing submission with rows reports an average depth of at
      least 30. */
  lemma PassedDepth(raws: seq<RawRow>, valid: set<string>, required: set<string>)
    requires ErrorsOf(raws, valid, required) == []
    requires Accepted(raws) != []
    ensures AvgDepth(Accepted(raws)) >= MinResults as real
  {
    PassIff(raws, valid, required);
    DeepQueriesDepth(Accepted(raws));
  }

  /** When every query has at least 30 rows, as in a passing submission,
      the average depth is at least 30. */
  lemma DeepQueriesDepth(rows: seq<Row>)
    requires rows != []
    requires forall q :: q in QidSet(rows) ==> |EntriesOf(rows, q)| >= MinResults
    ensures AvgDepth(rows) >= MinResults as real
  {
    var qs := Qids(rows);
    forall i | 0 <= i < |qs| ensures |EntriesOf(rows, qs[i])| >= MinResults {
      assert qs[i] in QidSet(rows);
    }
    DepthAtLeast(rows, qs);
    GroupSizesSum(rows);
    QidsCount(rows);
    assert rows[0] in rows;
    AtLeastRatio(|rows|, |qs|);
  }

  lemma AtLeastRatio(total: nat, n: nat)
    requires 0 < n && total >= MinResults * n
    ensures total as real / n as real >= MinResults as real
  {
    assert total as real >= MinResults as real * n as real;
  }
}
