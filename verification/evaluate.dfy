/**
 * Evaluation of one code's predictions against human-verified labels
 * (src/evaluate.py).
 *
 * A table is a sequence of records, each with its pandas index label (the
 * row's position in the file it was read from) and its cells by column name.
 * `GetPredictionAndGoldVector` follows the source's table updates one by one
 * (fill, deduplicate, filter, restrict, sort) and is proved equal to
 * `ExpectedVectors`, an independent description of the result: for every
 * identifier that both tables know and whose first prediction row was
 * machine-made, in increasing identifier order, the first row of each table
 * with that identifier.
 */
module Evaluate {
  import opened Wrappers

  datatype Cell = Empty | Num(n: int) | Text(s: string)

  /** One row of a data frame: its index label and its cells by column name. */
  datatype Record = Record(rowLabel: nat, cells: map<string, Cell>)

  // ---------------------------------------------------------------------------
  // fillna(value=0)

  /** A missing value becomes 0; every other value is kept. */
  function FillCell(c: Cell): (r: Cell)
    ensures !r.Empty?
    ensures c.Empty? ==> r == Num(0)
    ensures !c.Empty? ==> r == c
  {
    if c.Empty? then Num(0) else c
  }

  function FillRecord(rec: Record): (r: Record)
    ensures r.rowLabel == rec.rowLabel && r.cells.Keys == rec.cells.Keys
    ensures forall col :: col in rec.cells ==> r.cells[col] == FillCell(rec.cells[col])
  {
    Record(rec.rowLabel, map col | col in rec.cells :: FillCell(rec.cells[col]))
  }

  /** `fillna(value=0)` on a whole table. */
  function FillNa(t: seq<Record>): (r: seq<Record>)
    ensures |r| == |t|
    ensures forall i :: 0 <= i < |t| ==> r[i] == FillRecord(t[i])
  {
    seq(|t|, i requires 0 <= i < |t| => FillRecord(t[i]))
  }

  lemma FillNaAppend(a: seq<Record>, b: seq<Record>)
    ensures FillNa(a + b) == FillNa(a) + FillNa(b)
  {
  }

  // ---------------------------------------------------------------------------
  // Identifiers

  predicate HasId(rec: Record) {
    "ID" in rec.cells && rec.cells["ID"].Num?
  }

  /** Every row has a numeric identifier (true of any table after `fillna` of a numeric `ID` column). */
  predicate Keyed(t: seq<Record>) {
    forall i :: 0 <= i < |t| ==> HasId(t[i])
  }

  function Id(rec: Record): int
    requires HasId(rec)
  {
    rec.cells["ID"].n
  }

  function IdSet(t: seq<Record>): (ids: set<int>)
    requires Keyed(t)
    ensures forall i :: 0 <= i < |t| ==> Id(t[i]) in ids
  {
    if t == [] then {} else {Id(t[0])} + IdSet(t[1..])
  }

  function Ids(t: seq<Record>): (ids: seq<int>)
    requires Keyed(t)
    ensures |ids| == |t|
    ensures forall p :: 0 <= p < |t| ==> ids[p] == Id(t[p])
  {
    if t == [] then [] else [Id(t[0])] + Ids(t[1..])
  }

  lemma {:induction false} InIdSet(t: seq<Record>, i: nat)
    requires Keyed(t) && i < |t|
    ensures Id(t[i]) in IdSet(t)
  {
    if i > 0 {
      InIdSet(t[1..], i - 1);
    }
  }

  lemma {:induction false} IdSetAppend(a: seq<Record>, b: seq<Record>)
    requires Keyed(a) && Keyed(b)
    ensures Keyed(a + b) && IdSet(a + b) == IdSet(a) + IdSet(b)
  {
    if a == [] {
      assert a + b == b;
    } else {
      assert (a + b)[1..] == a[1..] + b;
      IdSetAppend(a[1..], b);
    }
  }

  /** The first row of `t` with identifier `id`. */
  function FirstWith(t: seq<Record>, id: int): (r: Record)
    requires Keyed(t) && id in IdSet(t)
    ensures r in t && HasId(r) && Id(r) == id
  {
    if Id(t[0]) == id then t[0] else FirstWith(t[1..], id)
  }

  lemma {:induction false} FirstWithAppend(a: seq<Record>, b: seq<Record>, id: int)
    requires Keyed(a) && Keyed(b) && id in IdSet(a)
    ensures IdSet(a + b) == IdSet(a) + IdSet(b)
    ensures FirstWith(a + b, id) == FirstWith(a, id)
  {
    IdSetAppend(a, b);
    if Id(a[0]) != id {
      assert (a + b)[1..] == a[1..] + b;
      FirstWithAppend(a[1..], b, id);
    }
  }

  /** No identifier occurs twice. */
  predicate Distinct(t: seq<Record>)
    requires Keyed(t)
  {
    t == [] || (Id(t[0]) !in IdSet(t[1..]) && Distinct(t[1..]))
  }

  // ---------------------------------------------------------------------------
  // drop_duplicates(subset='ID')

  function Dedup(t: seq<Record>, seen: set<int>): (r: seq<Record>)
    requires Keyed(t)
    ensures Keyed(r) && Distinct(r)
    ensures IdSet(r) == IdSet(t) - seen
    ensures forall y :: y in r ==> y in t && Id(y) in IdSet(t) && y == FirstWith(t, Id(y))
  {
    if t == [] then []
    else
      var rest := Dedup(t[1..], if Id(t[0]) in seen then seen else seen + {Id(t[0])});
      if Id(t[0]) in seen then rest else [t[0]] + rest
  }

  /** `drop_duplicates(subset='ID')`: the first row of every identifier, the identifiers all kept. */
  function DropDuplicates(t: seq<Record>): (r: seq<Record>)
    requires Keyed(t)
    ensures Keyed(r) && Distinct(r)
    ensures IdSet(r) == IdSet(t)
    ensures forall y :: y in r ==> Id(y) in IdSet(t) && y == FirstWith(t, Id(y))
  {
    Dedup(t, {})
  }

  lemma {:induction false} DedupOfDistinct(t: seq<Record>, seen: set<int>)
    requires Keyed(t) && Distinct(t) && seen !! IdSet(t)
    ensures Dedup(t, seen) == t
  {
    if t != [] {
      DedupOfDistinct(t[1..], seen + {Id(t[0])});
    }
  }

  /** Deduplicating a deduplicated table changes nothing. */
  lemma DropDuplicatesIdempotent(t: seq<Record>)
    requires Keyed(t)
    ensures DropDuplicates(DropDuplicates(t)) == DropDuplicates(t)
  {
    DedupOfDistinct(DropDuplicates(t), {});
  }

  // ---------------------------------------------------------------------------
  // Boolean-mask filtering

  function Filter(t: seq<Record>, keep: Record -> bool): (r: seq<Record>)
    requires Keyed(t)
    ensures Keyed(r) && |r| <= |t|
    ensures forall y :: y in r <==> y in t && keep(y)
  {
    if t == [] then []
    else if keep(t[0]) then [t[0]] + Filter(t[1..], keep)
    else Filter(t[1..], keep)
  }

  /** On a table without repeated identifiers, an identifier survives the filter iff its row is kept. */
  lemma {:induction false} FilterIds(t: seq<Record>, keep: Record -> bool)
    requires Keyed(t) && Distinct(t)
    ensures Distinct(Filter(t, keep))
    ensures forall id :: id in IdSet(Filter(t, keep)) <==> id in IdSet(t) && keep(FirstWith(t, id))
  {
    if t != [] {
      FilterIds(t[1..], keep);
    }
  }

  // ---------------------------------------------------------------------------
  // sort_values(by='ID')

  predicate Sorted(t: seq<Record>)
    requires Keyed(t)
  {
    |t| <= 1 || (Id(t[0]) < Id(t[1]) && Sorted(t[1..]))
  }

  function Insert(x: Record, s: seq<Record>): (r: seq<Record>)
    requires HasId(x) && Keyed(s) && Sorted(s) && Id(x) !in IdSet(s)
    ensures Keyed(r) && Sorted(r) && |r| == |s| + 1
    ensures IdSet(r) == IdSet(s) + {Id(x)}
    ensures r[0] == x || (s != [] && r[0] == s[0])
    ensures forall y :: y in r <==> y == x || y in s
  {
    if s == [] || Id(x) < Id(s[0]) then [x] + s
    else [s[0]] + Insert(x, s[1..])
  }

  /** Sorting by identifier: the same rows, in strictly increasing identifier order. */
  function SortById(t: seq<Record>): (r: seq<Record>)
    requires Keyed(t) && Distinct(t)
    ensures Keyed(r) && Sorted(r) && |r| == |t|
    ensures IdSet(r) == IdSet(t)
    ensures forall y :: y in r <==> y in t
  {
    if t == [] then [] else Insert(t[0], SortById(t[1..]))
  }

  // ---------------------------------------------------------------------------
  // Increasing identifier sequences

  predicate Increasing(s: seq<int>) {
    forall p, q :: 0 <= p < q < |s| ==> s[p] < s[q]
  }

  function InsertId(x: int, s: seq<int>): (r: seq<int>)
    requires Increasing(s)
    ensures Increasing(r)
    ensures forall y :: y in r <==> y == x || y in s
  {
    if s == [] || x < s[0] then [x] + s
    else if x == s[0] then s
    else
      var rest := InsertId(x, s[1..]);
      assert forall q :: 0 <= q < |s| - 1 ==> s[0] < s[1..][q] by {
        forall q | 0 <= q < |s| - 1 ensures s[0] < s[1..][q] {
          assert s[1..][q] == s[q + 1];
        }
      }
      var r := [s[0]] + rest;
      assert Increasing(r) by {
        forall p, q | 0 <= p < q < |r| ensures r[p] < r[q] {
          assert r[q] == rest[q - 1] && rest[q - 1] in rest;
          if p > 0 {
            assert r[p] == rest[p - 1];
          }
        }
      }
      r
  }

  /** The distinct values of `s` in increasing order. */
  function SortIds(s: seq<int>): (r: seq<int>)
    ensures Increasing(r)
    ensures forall y :: y in r <==> y in s
  {
    if s == [] then [] else InsertId(s[0], SortIds(s[1..]))
  }

  /** Two increasing sequences with the same elements are equal. */
  lemma {:induction false} IncreasingUnique(a: seq<int>, b: seq<int>)
    requires Increasing(a) && Increasing(b)
    requires forall y :: y in a <==> y in b
    ensures a == b
  {
    if a != [] { assert a[0] in a; }
    if b != [] { assert b[0] in b; }
    if a != [] {
      assert a[0] in b && b != [];
      assert b[0] in a;
      assert a[0] == b[0];
      forall y ensures y in a[1..] <==> y in b[1..] {
        if y in a[1..] {
          assert y in b && y != b[0];
        }
        if y in b[1..] {
          assert y in a && y != a[0];
        }
      }
      IncreasingUnique(a[1..], b[1..]);
    }
  }

  lemma {:induction false} SortedHeadIsLeast(t: seq<Record>)
    requires Keyed(t) && Sorted(t) && t != []
    ensures forall y :: y in IdSet(t[1..]) ==> Id(t[0]) < y
  {
    if |t| > 1 {
      SortedHeadIsLeast(t[1..]);
    }
  }

  /** A table sorted by identifier lists its identifiers in increasing order, each once. */
  lemma {:induction false} SortedIdsIncreasing(t: seq<Record>)
    requires Keyed(t) && Sorted(t)
    ensures Increasing(Ids(t))
    ensures forall y :: y in Ids(t) <==> y in IdSet(t)
  {
    if t != [] {
      SortedIdsIncreasing(t[1..]);
      SortedHeadIsLeast(t);
      var ids := Ids(t);
      assert ids == [Id(t[0])] + Ids(t[1..]);
      forall y ensures y in ids <==> y in IdSet(t) {
        assert y in ids <==> y == Id(t[0]) || y in Ids(t[1..]);
      }
      forall p, q | 0 <= p < q < |ids| ensures ids[p] < ids[q] {
        if p == 0 {
          assert ids[q] == Ids(t[1..])[q - 1];
          assert ids[q] in IdSet(t[1..]);
        } else {
          assert ids[p] == Ids(t[1..])[p - 1] && ids[q] == Ids(t[1..])[q - 1];
        }
      }
    }
  }

  // ---------------------------------------------------------------------------
  // get_prediction_and_gold_vector

  predicate IsPrediction(rec: Record) {
    "source" in rec.cells && rec.cells["source"] == Text("prediction")
  }

  /** Every row has the named columns, and the `ID` column holds numbers or missing values. */
  predicate Schema(t: seq<Record>, columns: set<string>) {
    forall i :: 0 <= i < |t| ==>
      "ID" in t[i].cells && columns <= t[i].cells.Keys && (t[i].cells["ID"].Empty? || t[i].cells["ID"].Num?)
  }

  /** The identifiers that both filled tables know and whose first prediction row is machine-made. */
  ghost function VerifiedIds(predF: seq<Record>, goldF: seq<Record>): set<int>
    requires Keyed(predF) && Keyed(goldF)
  {
    set id | id in IdSet(goldF) && id in IdSet(predF) && IsPrediction(FirstWith(predF, id))
  }

  /** A vector entry: the row's index label and its value in column `col`. */
  function Entry(rec: Record, col: string): (int, Cell)
    requires col in rec.cells
  {
    (rec.rowLabel, rec.cells[col])
  }

  lemma FilledSchema(t: seq<Record>, columns: set<string>)
    requires Schema(t, columns)
    ensures Keyed(FillNa(t)) && Schema(FillNa(t), columns)
  {
  }

  /** The values of `s` that lie in `v`, in their order in `s`. */
  function KeepIn(s: seq<int>, v: set<int>): (r: seq<int>)
    ensures forall y :: y in r <==> y in s && y in v
  {
    if s == [] then []
    else (if s[0] in v then [s[0]] else []) + KeepIn(s[1..], v)
  }

  lemma {:induction false} IdsMembers(t: seq<Record>)
    requires Keyed(t)
    ensures forall y :: y in Ids(t) <==> y in IdSet(t)
  {
    if t != [] {
      IdsMembers(t[1..]);
      assert Ids(t) == [Id(t[0])] + Ids(t[1..]);
    }
  }

  /** The verified identifiers in increasing order. */
  ghost function VerifiedIdList(predF: seq<Record>, goldF: seq<Record>): (ids: seq<int>)
    requires Keyed(predF) && Keyed(goldF)
    ensures Increasing(ids)
    ensures forall y :: y in ids <==> y in VerifiedIds(predF, goldF)
    ensures forall p :: 0 <= p < |ids| ==> ids[p] in IdSet(predF) && ids[p] in IdSet(goldF)
  {
    IdsMembers(goldF);
    var v := VerifiedIds(predF, goldF);
    var ids := SortIds(KeepIn(Ids(goldF), v));
    assert forall y :: y in v ==> y in IdSet(predF) && y in IdSet(goldF);
    assert forall p :: 0 <= p < |ids| ==> ids[p] in v by {
      forall p | 0 <= p < |ids| ensures ids[p] in v {
        assert ids[p] in ids;
      }
    }
    ids
  }

  /**
   * The two vectors the function returns, described directly: for the
   * verified identifiers in increasing order, the first prediction row and
   * the first gold row with that identifier.
   */
  ghost function ExpectedVectors(pred: seq<Record>, gold: seq<Record>, predCode: string, goldCode: string)
    : (r: (seq<(int, Cell)>, seq<(int, Cell)>))
    requires Schema(pred, {"source", predCode}) && Schema(gold, {goldCode})
    ensures |r.0| == |r.1|
  {
    FilledSchema(pred, {"source", predCode});
    FilledSchema(gold, {goldCode});
    var predF := FillNa(pred);
    var goldF := FillNa(gold);
    var ids := VerifiedIdList(predF, goldF);
    (Entries(predF, ids, predCode), Entries(goldF, ids, goldCode))
  }

  /** For each identifier in `ids`, the entry of the first row of `t` with it. */
  function Entries(t: seq<Record>, ids: seq<int>, col: string): (v: seq<(int, Cell)>)
    requires Keyed(t) && forall p :: 0 <= p < |ids| ==> ids[p] in IdSet(t)
    requires forall y :: y in t ==> col in y.cells
    ensures |v| == |ids|
    ensures forall p :: 0 <= p < |ids| ==> v[p] == Entry(FirstWith(t, ids[p]), col)
  {
    seq(|ids|, p requires 0 <= p < |ids| => Entry(FirstWith(t, ids[p]), col))
  }

  /** The code column of a sorted table, keeping each row's index label. */
  function Vector(t: seq<Record>, col: string): (v: seq<(int, Cell)>)
    requires forall i :: 0 <= i < |t| ==> col in t[i].cells
    ensures |v| == |t|
    ensures forall p :: 0 <= p < |t| ==> v[p] == Entry(t[p], col)
  {
    seq(|t|, p requires 0 <= p < |t| => Entry(t[p], col))
  }

  /**
   * First rows of a table, listed in the order of a sorted identifier table,
   * are the first rows for the sorted identifiers.
   */
  lemma SortedFirstRows(t: seq<Record>, kept: seq<Record>, col: string, ids: seq<int>)
    requires Keyed(t) && Keyed(kept) && Distinct(kept)
    requires forall y :: y in kept ==> Id(y) in IdSet(t) && y == FirstWith(t, Id(y))
    requires forall i :: 0 <= i < |t| ==> col in t[i].cells
    requires Increasing(ids) && forall y :: y in ids <==> y in IdSet(kept)
    ensures forall p :: 0 <= p < |ids| ==> ids[p] in IdSet(t)
    ensures forall i :: 0 <= i < |SortById(kept)| ==> col in SortById(kept)[i].cells
    ensures Vector(SortById(kept), col) == Entries(t, ids, col)
  {
    var sorted := SortById(kept);
    SortedKeptIds(kept, ids);
    forall p | 0 <= p < |ids| ensures ids[p] in IdSet(t) && sorted[p] == FirstWith(t, ids[p]) {
      SortedRowFirst(t, kept, p);
    }
    FirstRowsVector(t, sorted, col, ids);
  }

  /** Rows that are the first rows of `t` for the identifiers `ids`, in that order, give the entries of those identifiers. */
  lemma FirstRowsVector(t: seq<Record>, rows: seq<Record>, col: string, ids: seq<int>)
    requires Keyed(t) && forall i :: 0 <= i < |t| ==> col in t[i].cells
    requires |rows| == |ids|
    requires forall p :: 0 <= p < |ids| ==> ids[p] in IdSet(t) && rows[p] == FirstWith(t, ids[p])
    ensures forall i :: 0 <= i < |rows| ==> col in rows[i].cells
    ensures Vector(rows, col) == Entries(t, ids, col)
  {
    forall p | 0 <= p < |ids| ensures col in rows[p].cells {
      var i :| 0 <= i < |t| && t[i] == rows[p];
    }
  }

  /** Sorting rows with distinct identifiers lists exactly the increasing identifier sequence. */
  lemma SortedKeptIds(kept: seq<Record>, ids: seq<int>)
    requires Keyed(kept) && Distinct(kept)
    requires Increasing(ids) && forall y :: y in ids <==> y in IdSet(kept)
    ensures Ids(SortById(kept)) == ids
  {
    var sorted := SortById(kept);
    SortedIdsIncreasing(sorted);
    IncreasingUnique(Ids(sorted), ids);
  }

  /** A row of the sorted kept rows is the first row of `t` with its identifier. */
  lemma SortedRowFirst(t: seq<Record>, kept: seq<Record>, p: nat)
    requires Keyed(t) && Keyed(kept) && Distinct(kept)
    requires forall y :: y in kept ==> Id(y) in IdSet(t) && y == FirstWith(t, Id(y))
    requires p < |kept|
    ensures var sorted := SortById(kept);
            Id(sorted[p]) in IdSet(t) && sorted[p] == FirstWith(t, Id(sorted[p]))
  {
    var sorted := SortById(kept);
    assert sorted[p] in sorted;
  }

  lemma {:induction false} IdSetIndex(t: seq<Record>, id: int)
    requires Keyed(t) && id in IdSet(t)
    ensures exists i :: 0 <= i < |t| && Id(t[i]) == id
  {
    if Id(t[0]) != id {
      IdSetIndex(t[1..], id);
      var i :| 0 <= i < |t[1..]| && Id(t[1..][i]) == id;
      assert Id(t[i + 1]) == id;
    }
  }

  /** The machine-made prediction rows kept are those of exactly the verified identifiers. */
  lemma {:induction false} VerifiedRows(predF: seq<Record>, goldF: seq<Record>, predD: seq<Record>, goldD: seq<Record>,
                                        isVerified: Record -> bool, verified: seq<Record>)
    requires Keyed(predF) && Keyed(goldF)
    requires predD == DropDuplicates(predF) && goldD == DropDuplicates(goldF)
    requires forall rec :: isVerified(rec) == (HasId(rec) && Id(rec) in IdSet(goldD) && IsPrediction(rec))
    requires verified == Filter(predD, isVerified)
    ensures Distinct(verified)
    ensures IdSet(verified) == VerifiedIds(predF, goldF)
  {
    FilterIds(predD, isVerified);
    var v := VerifiedIds(predF, goldF);
    forall id ensures id in IdSet(verified) <==> id in v {
      if id in IdSet(predD) {
        var y := FirstWith(predD, id);
        assert y in predD;
        assert y == FirstWith(predF, id);
      }
    }
  }

  /** The gold rows kept are those of exactly the identifiers of the kept prediction rows. */
  lemma {:induction false} GoldRows(goldD: seq<Record>, ids: set<int>, inPred: Record -> bool, toCheck: seq<Record>)
    requires Keyed(goldD) && Distinct(goldD) && ids <= IdSet(goldD)
    requires forall rec :: inPred(rec) == (HasId(rec) && Id(rec) in ids)
    requires toCheck == Filter(goldD, inPred)
    ensures Distinct(toCheck)
    ensures IdSet(toCheck) == ids
  {
    FilterIds(goldD, inPred);
    forall id ensures id in IdSet(toCheck) <==> id in ids {
      if id in IdSet(goldD) {
        var y := FirstWith(goldD, id);
        assert HasId(y) && Id(y) == id;
      }
    }
  }

  /**
   * The deduplication and the two mask filters of
   * `get_prediction_and_gold_vector`: the first machine-made prediction row
   * and the first gold row of every verified identifier.
   */
  method Restrict(predF: seq<Record>, goldF: seq<Record>) returns (verified: seq<Record>, toCheck: seq<Record>)
    requires Keyed(predF) && Keyed(goldF)
    ensures Keyed(verified) && Distinct(verified) && IdSet(verified) == VerifiedIds(predF, goldF)
    ensures Keyed(toCheck) && Distinct(toCheck) && IdSet(toCheck) == VerifiedIds(predF, goldF)
    ensures forall y :: y in verified ==> Id(y) in IdSet(predF) && y == FirstWith(predF, Id(y))
    ensures forall y :: y in toCheck ==> Id(y) in IdSet(goldF) && y == FirstWith(goldF, Id(y))
  {
    var goldD := DropDuplicates(goldF);
    var goldIds := IdSet(goldD);
    var predD := DropDuplicates(predF);
    var isVerified := rec => HasId(rec) && Id(rec) in goldIds && IsPrediction(rec);
    verified := Filter(predD, isVerified);
    var predIds := IdSet(verified);
    var inPred := rec => HasId(rec) && Id(rec) in predIds;
    toCheck := Filter(goldD, inPred);
    VerifiedRows(predF, goldF, predD, goldD, isVerified, verified);
    GoldRows(goldD, predIds, inPred, toCheck);
  }

  /**
   * `get_prediction_and_gold_vector`: the prediction and gold values of the
   * code, aligned position by position, each with its row's index label.
   */
  method GetPredictionAndGoldVector(pred: seq<Record>, predCode: string, gold: seq<Record>, goldCode: string)
    returns (predictions: seq<(int, Cell)>, golds: seq<(int, Cell)>)
    requires Schema(pred, {"source", predCode}) && Schema(gold, {goldCode})
    ensures (predictions, golds) == ExpectedVectors(pred, gold, predCode, goldCode)
  {
    FilledSchema(gold, {goldCode});
    FilledSchema(pred, {"source", predCode});
    var goldF := FillNa(gold);
    var predF := FillNa(pred);
    var verified, toCheck := Restrict(predF, goldF);
    ghost var ids := VerifiedIdList(predF, goldF);
    SortedFirstRows(predF, verified, predCode, ids);
    SortedFirstRows(goldF, toCheck, goldCode, ids);
    predictions := Vector(SortById(verified), predCode);
    golds := Vector(SortById(toCheck), goldCode);
  }

  /**
   * `get_prediction_and_gold_vector` as written: before returning, it counts
   * matches with `==` on the two labelled vectors, which raises unless both
   * carry the same index labels in the same order.
   */
  method GetPredictionAndGoldVectorAsWritten(pred: seq<Record>, predCode: string, gold: seq<Record>, goldCode: string)
    returns (r: Result<(seq<(int, Cell)>, seq<(int, Cell)>), CompareError>)
    requires Schema(pred, {"source", predCode}) && Schema(gold, {goldCode})
    ensures var e := ExpectedVectors(pred, gold, predCode, goldCode);
            (r.Failure? <==> Labels(e.0) != Labels(e.1)) && (r.Success? ==> r.value == e)
  {
    var predictions, golds := GetPredictionAndGoldVector(pred, predCode, gold, goldCode);
    var matches := MatchCountAsWritten(predictions, golds);
    if matches.Failure? {
      return Failure(matches.error);
    }
    return Success((predictions, golds));
  }

  lemma SameVerifiedIds(a: seq<Record>, b: seq<Record>, goldF: seq<Record>)
    requires Keyed(a) && Keyed(b) && Keyed(goldF)
    requires forall id :: id in IdSet(b) ==> id !in IdSet(goldF)
    ensures Keyed(a + b) && VerifiedIds(a + b, goldF) == VerifiedIds(a, goldF)
    ensures forall id :: id in VerifiedIds(a, goldF) ==> FirstWith(a + b, id) == FirstWith(a, id)
  {
    IdSetAppend(a, b);
    forall id | id in IdSet(goldF) && id in IdSet(a + b)
      ensures id in IdSet(a) && FirstWith(a + b, id) == FirstWith(a, id)
    {
      FirstWithAppend(a, b, id);
    }
  }

  /** Prediction rows whose identifiers are absent from the gold table change neither vector. */
  lemma ExtraPredictionRowsIrrelevant(pred: seq<Record>, extra: seq<Record>, gold: seq<Record>,
                                      predCode: string, goldCode: string)
    requires Schema(pred, {"source", predCode}) && Schema(extra, {"source", predCode}) && Schema(gold, {goldCode})
    requires forall i :: 0 <= i < |extra| ==> Id(FillRecord(extra[i])) !in IdSet(FillNa(gold))
    ensures ExpectedVectors(pred + extra, gold, predCode, goldCode) == ExpectedVectors(pred, gold, predCode, goldCode)
  {
    var a, b, goldF := FillNa(pred), FillNa(extra), FillNa(gold);
    FillNaAppend(pred, extra);
    forall id | id in IdSet(b) ensures id !in IdSet(goldF) {
      IdSetIndex(b, id);
    }
    SameVerifiedIds(a, b, goldF);
    var ids := VerifiedIdList(a, goldF);
    assert VerifiedIdList(a + b, goldF) == ids;
    FilledSchema(pred + extra, {"source", predCode});
    assert Entries(a + b, ids, predCode) == Entries(a, ids, predCode);
  }

  // ---------------------------------------------------------------------------
  // Comparing the two vectors

  datatype CompareError = NotIdenticallyLabelled

  function Labels(v: seq<(int, Cell)>): (r: seq<int>)
    ensures |r| == |v| && forall p :: 0 <= p < |v| ==> r[p] == v[p].0
  {
    seq(|v|, p requires 0 <= p < |v| => v[p].0)
  }

  /** The number of positions at which the two vectors hold the same value. */
  function MatchCount(p: seq<(int, Cell)>, g: seq<(int, Cell)>): (n: nat)
    requires |p| == |g|
    ensures n <= |p|
    ensures n == |p| <==> forall i :: 0 <= i < |p| ==> p[i].1 == g[i].1
  {
    if p == [] then 0 else (if p[0].1 == g[0].1 then 1 else 0) + MatchCount(p[1..], g[1..])
  }

  /**
   * `(predictions_vector == golds_vector).sum()` as written: comparing two
   * series is refused unless they carry the same index labels in the same
   * order, and the two vectors keep the labels of rows from different files.
   */
  function MatchCountAsWritten(p: seq<(int, Cell)>, g: seq<(int, Cell)>): (r: Result<nat, CompareError>)
    requires |p| == |g|
    ensures r.Failure? <==> Labels(p) != Labels(g)
    ensures r.Success? ==> r.value == MatchCount(p, g)
  {
    if Labels(p) != Labels(g) then Failure(NotIdenticallyLabelled) else Success(MatchCount(p, g))
  }

  function GoldRow(rowLabel: nat, id: int, col: string, code: int): Record {
    Record(rowLabel, map["ID" := Num(id), col := Num(code)])
  }

  function PredRow(rowLabel: nat, id: int, source: string, col: string, code: int): Record {
    Record(rowLabel, map["ID" := Num(id), "source" := Text(source), col := Num(code)])
  }

  /** Gold identifiers 1, 2, 2, 3 with codes 1, 0, 0, 1 in column `col`. */
  function ScenarioGold(col: string): seq<Record> {
    [GoldRow(0, 1, col, 1), GoldRow(1, 2, col, 0), GoldRow(2, 2, col, 0), GoldRow(3, 3, col, 1)]
  }

  /** Prediction identifiers 2, 3, 4 from prediction, prediction, training, with codes 0, 1, 1 in column `col`. */
  function ScenarioPred(col: string): seq<Record> {
    [PredRow(0, 2, "prediction", col, 0), PredRow(1, 3, "prediction", col, 1), PredRow(2, 4, "training", col, 1)]
  }

  lemma FillNaWithoutGaps(t: seq<Record>)
    requires forall i :: 0 <= i < |t| ==> forall col :: col in t[i].cells ==> !t[i].cells[col].Empty?
    ensures FillNa(t) == t
  {
    forall i | 0 <= i < |t| ensures FillRecord(t[i]) == t[i] {
      assert FillRecord(t[i]).cells == t[i].cells;
    }
  }

  /** A code column other than the identifier and provenance columns. */
  predicate CodeColumn(col: string) {
    col != "ID" && col != "source"
  }

  lemma ScenarioSchema(col: string)
    requires CodeColumn(col)
    ensures Schema(ScenarioPred(col), {"source", col}) && Schema(ScenarioGold(col), {col})
    ensures FillNa(ScenarioPred(col)) == ScenarioPred(col) && FillNa(ScenarioGold(col)) == ScenarioGold(col)
  {
    ScenarioPredSchema(col);
    ScenarioGoldSchema(col);
  }

  lemma ScenarioPredSchema(col: string)
    requires CodeColumn(col)
    ensures Schema(ScenarioPred(col), {"source", col}) && FillNa(ScenarioPred(col)) == ScenarioPred(col)
  {
    var pred := ScenarioPred(col);
    forall i | 0 <= i < |pred| ensures pred[i].cells.Keys == {"ID", "source", col} && pred[i].cells["ID"].Num? {
    }
    FillNaWithoutGaps(pred);
  }

  lemma ScenarioGoldSchema(col: string)
    requires CodeColumn(col)
    ensures Schema(ScenarioGold(col), {col}) && FillNa(ScenarioGold(col)) == ScenarioGold(col)
  {
    var gold := ScenarioGold(col);
    forall i | 0 <= i < |gold| ensures gold[i].cells.Keys == {"ID", col} && gold[i].cells["ID"].Num? {
    }
    FillNaWithoutGaps(gold);
  }

  /** The example prediction table: identifiers {2, 3, 4}, each first found in rows 0, 1 and 2. */
  lemma ScenarioPredIds(col: string)
    requires CodeColumn(col)
    ensures Keyed(ScenarioPred(col)) && IdSet(ScenarioPred(col)) == {2, 3, 4}
    ensures var pred := ScenarioPred(col);
            FirstWith(pred, 2) == pred[0] && FirstWith(pred, 3) == pred[1] && FirstWith(pred, 4) == pred[2]
  {
    var pred := ScenarioPred(col);
    assert pred[1..][1..] == pred[2..];
    assert IdSet(pred[2..]) == {4} by { assert pred[2..][1..] == []; }
    assert IdSet(pred[1..]) == {3, 4};
    assert FirstWith(pred, 3) == pred[1] by { assert FirstWith(pred[1..], 3) == pred[1]; }
    assert FirstWith(pred, 4) == pred[2] by { assert FirstWith(pred[2..], 4) == pred[2]; }
  }

  /** The example gold table: identifiers {1, 2, 3}; 2 is first found in row 1 and 3 in row 3. */
  lemma ScenarioGoldIds(col: string)
    requires CodeColumn(col)
    ensures Keyed(ScenarioGold(col)) && IdSet(ScenarioGold(col)) == {1, 2, 3}
    ensures var gold := ScenarioGold(col);
            FirstWith(gold, 2) == gold[1] && FirstWith(gold, 3) == gold[3]
  {
    var gold := ScenarioGold(col);
    assert gold[1..][1..] == gold[2..] && gold[2..][1..] == gold[3..];
    assert IdSet(gold[3..]) == {3} by { assert gold[3..][1..] == []; }
    assert IdSet(gold[2..]) == {2, 3};
    assert IdSet(gold[1..]) == {2, 3};
    assert FirstWith(gold, 2) == gold[1] by { assert FirstWith(gold[1..], 2) == gold[1]; }
    assert FirstWith(gold, 3) == gold[3] by { assert FirstWith(gold[3..], 3) == gold[3]; }
  }

  lemma ScenarioVerifiedSet(col: string)
    requires CodeColumn(col)
    ensures Keyed(ScenarioPred(col)) && Keyed(ScenarioGold(col))
    ensures VerifiedIds(ScenarioPred(col), ScenarioGold(col)) == {2, 3}
  {
    ScenarioPredIds(col);
    ScenarioGoldIds(col);
    assert !IsPrediction(ScenarioPred(col)[2]);
  }

  lemma ScenarioVerifiedIds(col: string)
    requires CodeColumn(col)
    ensures Keyed(ScenarioPred(col)) && Keyed(ScenarioGold(col))
    ensures VerifiedIdList(ScenarioPred(col), ScenarioGold(col)) == [2, 3]
  {
    ScenarioVerifiedSet(col);
    var ids := VerifiedIdList(ScenarioPred(col), ScenarioGold(col));
    assert forall y :: y in ids <==> y in [2, 3];
    IncreasingUnique(ids, [2, 3]);
  }

  lemma ScenarioVectors(col: string)
    requires CodeColumn(col)
    ensures Schema(ScenarioPred(col), {"source", col}) && Schema(ScenarioGold(col), {col})
    ensures ExpectedVectors(ScenarioPred(col), ScenarioGold(col), col, col)
            == ([(0, Num(0)), (1, Num(1))], [(1, Num(0)), (3, Num(1))])
  {
    ScenarioSchema(col);
    ScenarioVerifiedIds(col);
    ScenarioPredEntries(col);
    ScenarioGoldEntries(col);
    var pred, gold := ScenarioPred(col), ScenarioGold(col);
    assert ExpectedVectors(pred, gold, col, col) == (Entries(pred, [2, 3], col), Entries(gold, [2, 3], col));
  }

  lemma ScenarioPredEntries(col: string)
    requires CodeColumn(col)
    ensures Keyed(ScenarioPred(col)) && IdSet(ScenarioPred(col)) == {2, 3, 4}
    ensures Entries(ScenarioPred(col), [2, 3], col) == [(0, Num(0)), (1, Num(1))]
  {
    ScenarioPredIds(col);
    var pred := ScenarioPred(col);
    var p := Entries(pred, [2, 3], col);
    assert p[0] == Entry(pred[0], col) && p[1] == Entry(pred[1], col);
  }

  lemma ScenarioGoldEntries(col: string)
    requires CodeColumn(col)
    ensures Keyed(ScenarioGold(col)) && IdSet(ScenarioGold(col)) == {1, 2, 3}
    ensures Entries(ScenarioGold(col), [2, 3], col) == [(1, Num(0)), (3, Num(1))]
  {
    ScenarioGoldIds(col);
    var gold := ScenarioGold(col);
    var g := Entries(gold, [2, 3], col);
    assert g[0] == Entry(gold[1], col) && g[1] == Entry(gold[3], col);
  }

  /**
   * On the example tables the aligned vectors agree at both positions, yet
   * the prediction rows keep index labels 0 and 1 and the gold rows 1 and 3,
   * so the comparison as written is refused while the positional count is 2.
   */
  lemma ScenarioComparison(col: string)
    requires CodeColumn(col)
    ensures Schema(ScenarioPred(col), {"source", col}) && Schema(ScenarioGold(col), {col})
    ensures var (p, g) := ExpectedVectors(ScenarioPred(col), ScenarioGold(col), col, col);
            MatchCountAsWritten(p, g).Failure? && MatchCount(p, g) == 2
  {
    ScenarioVectors(col);
    ScenarioVectorsCompared();
  }

  /** The example vectors agree at both positions but carry different index labels. */
  lemma ScenarioVectorsCompared()
    ensures var p: seq<(int, Cell)>, g: seq<(int, Cell)> := [(0, Num(0)), (1, Num(1))], [(1, Num(0)), (3, Num(1))];
            MatchCountAsWritten(p, g).Failure? && MatchCount(p, g) == 2
  {
    var p: seq<(int, Cell)>, g: seq<(int, Cell)> := [(0, Num(0)), (1, Num(1))], [(1, Num(0)), (3, Num(1))];
    assert Labels(p)[0] != Labels(g)[0];
    assert MatchCount(p, g) == 2 by {
      assert p[1..][1..] == [] && g[1..][1..] == [];
    }
  }

  // ---------------------------------------------------------------------------
  // Metrics of evaluate (binary precision, recall and F1 with positive label 1)

  /** A ratio of counts, undefined when its denominator is zero. */
  datatype Score = Defined(value: real) | Undefined

  function Fraction(n: nat, d: nat): (r: Score)
    ensures r.Undefined? <==> d == 0
    ensures r.Defined? ==> r.value * d as real == n as real
    ensures r.Defined? && n <= d ==> 0.0 <= r.value <= 1.0
  {
    if d == 0 then Undefined else Defined(n as real / d as real)
  }

  /** The number of positions whose prediction is (or is not) 1 and whose gold value is (or is not) 1. */
  function Tally(p: seq<int>, g: seq<int>, predicted: bool, actual: bool): (n: nat)
    requires |p| == |g|
    ensures n <= |p|
  {
    if p == [] then 0
    else (if (p[0] == 1) == predicted && (g[0] == 1) == actual then 1 else 0) + Tally(p[1..], g[1..], predicted, actual)
  }

  function TruePositives(p: seq<int>, g: seq<int>): nat requires |p| == |g| { Tally(p, g, true, true) }
  function FalsePositives(p: seq<int>, g: seq<int>): nat requires |p| == |g| { Tally(p, g, true, false) }
  function FalseNegatives(p: seq<int>, g: seq<int>): nat requires |p| == |g| { Tally(p, g, false, true) }
  function TrueNegatives(p: seq<int>, g: seq<int>): nat requires |p| == |g| { Tally(p, g, false, false) }

  /** The four outcomes partition the positions. */
  lemma {:induction false} TallyTotal(p: seq<int>, g: seq<int>)
    requires |p| == |g|
    ensures TruePositives(p, g) + FalsePositives(p, g) + FalseNegatives(p, g) + TrueNegatives(p, g) == |p|
  {
    if p != [] {
      TallyTotal(p[1..], g[1..]);
    }
  }

  /** Exchanging predictions and gold values exchanges the roles of the two outcomes. */
  lemma {:induction false} TallySwap(p: seq<int>, g: seq<int>, predicted: bool, actual: bool)
    requires |p| == |g|
    ensures Tally(g, p, actual, predicted) == Tally(p, g, predicted, actual)
  {
    if p != [] {
      TallySwap(p[1..], g[1..], predicted, actual);
    }
  }

  function Sum(s: seq<int>): int {
    if s == [] then 0 else s[0] + Sum(s[1..])
  }

  /** The distinct values of both vectors. */
  function Present(p: seq<int>, g: seq<int>): (r: set<int>)
    ensures forall x :: x in r <==> x in p || x in g
  {
    (set x | x in p) + (set x | x in g)
  }

  datatype MetricError = InconsistentLengths | NotNumeric | Multiclass | PositiveLabelMissing

  /**
   * The label check of a binary average with positive label 1: at most two
   * distinct values, and 1 among them when there are two.
   */
  predicate BinaryTarget(p: seq<int>, g: seq<int>) {
    |Present(p, g)| <= 2 && (|Present(p, g)| == 2 ==> 1 in Present(p, g))
  }

  datatype Scores = Scores(precision: Score, recall: Score, f1: Score, verified: int)

  function Values(v: seq<(int, Cell)>): (r: Option<seq<int>>)
    ensures r.Some? <==> forall i :: 0 <= i < |v| ==> v[i].1.Num?
    ensures r.Some? ==> |r.value| == |v| && forall i :: 0 <= i < |v| ==> r.value[i] == v[i].1.n
  {
    if v == [] then Some([])
    else if !v[0].1.Num? then None
    else
      var rest := Values(v[1..]);
      if rest.None? then None else Some([v[0].1.n] + rest.value)
  }

  /** The metrics of two integer label vectors. */
  function Metrics(p: seq<int>, g: seq<int>): (r: Result<Scores, MetricError>)
    ensures r.Failure? <==> |p| != |g| || !BinaryTarget(p, g)
    ensures r.Failure? && |p| != |g| ==> r.error == InconsistentLengths
  {
    if |p| != |g| then Failure(InconsistentLengths)
    else if |Present(p, g)| > 2 then Failure(Multiclass)
    else if |Present(p, g)| == 2 && 1 !in Present(p, g) then Failure(PositiveLabelMissing)
    else
      var tp, fp, fn := TruePositives(p, g), FalsePositives(p, g), FalseNegatives(p, g);
      Success(Scores(Fraction(tp, tp + fp), Fraction(tp, tp + fn), Fraction(2 * tp, 2 * tp + fp + fn), Sum(g)))
  }

  /**
   * `evaluate`: precision, recall and F1 of the prediction vector against
   * the gold vector, and the sum of the gold vector; the index labels are
   * not consulted.
   */
  function Evaluate(pred: seq<(int, Cell)>, gold: seq<(int, Cell)>): (r: Result<Scores, MetricError>)
    ensures |pred| != |gold| ==> r == Failure(InconsistentLengths)
    ensures |pred| == |gold| && (Values(pred).None? || Values(gold).None?) ==> r == Failure(NotNumeric)
    ensures Values(pred).Some? && Values(gold).Some? ==> r == Metrics(Values(pred).value, Values(gold).value)
  {
    if |pred| != |gold| then Failure(InconsistentLengths)
    else if Values(pred).None? || Values(gold).None? then Failure(NotNumeric)
    else Metrics(Values(pred).value, Values(gold).value)
  }

  /** Precision and recall are the stated ratios of outcome counts, and are undefined exactly when their denominators vanish. */
  lemma MetricsAreRatios(p: seq<int>, g: seq<int>)
    requires Metrics(p, g).Success?
    ensures var s := Metrics(p, g).value;
            var tp, fp, fn := TruePositives(p, g), FalsePositives(p, g), FalseNegatives(p, g);
            (s.precision.Undefined? <==> tp + fp == 0) &&
            (s.precision.Defined? ==> s.precision.value == tp as real / (tp + fp) as real) &&
            (s.recall.Undefined? <==> tp + fn == 0) &&
            (s.recall.Defined? ==> s.recall.value == tp as real / (tp + fn) as real) &&
            (s.f1.Undefined? <==> tp + fp + fn == 0)
  {
  }

  lemma HarmonicMean(a: real, b: real, c: real)
    requires a > 0.0 && b > 0.0 && c > 0.0
    ensures var p, r := a / b, a / c; p + r > 0.0 && 2.0 * p * r / (p + r) == 2.0 * a / (b + c)
  {
    var p, r := a / b, a / c;
    assert p * b == a && r * c == a;
    var f := 2.0 * a / (b + c);
    assert f * (b + c) == 2.0 * a;
    assert (p + r) * (b * c) == a * (b + c);
    assert f * (p + r) * (b * c) == 2.0 * a * a;
    assert 2.0 * p * r * (b * c) == 2.0 * a * a;
    assert f * (p + r) == 2.0 * p * r;
  }

  /** `f1` is the harmonic mean of `precision` and `recall`, all three being defined. */
  predicate HarmonicMeanOf(f1: Score, precision: Score, recall: Score) {
    precision.Defined? && recall.Defined? && f1.Defined? && precision.value + recall.value > 0.0 &&
    f1.value == 2.0 * precision.value * recall.value / (precision.value + recall.value)
  }

  /** With a true positive, the three ratios of the counts are defined and F1 is the harmonic mean of the other two. */
  lemma F1OfCounts(tp: nat, fp: nat, fn: nat)
    requires tp > 0
    ensures HarmonicMeanOf(Fraction(2 * tp, 2 * tp + fp + fn), Fraction(tp, tp + fp), Fraction(tp, tp + fn))
  {
    var a, b, c := tp as real, (tp + fp) as real, (tp + fn) as real;
    assert Fraction(tp, tp + fp) == Defined(a / b) && Fraction(tp, tp + fn) == Defined(a / c);
    assert (2 * tp) as real == 2.0 * a && (2 * tp + fp + fn) as real == b + c;
    assert Fraction(2 * tp, 2 * tp + fp + fn) == Defined(2.0 * a / (b + c));
    HarmonicMean(a, b, c);
  }

  /** The scores of a binary target are the three ratios of its counts and the gold sum. */
  lemma MetricsScores(p: seq<int>, g: seq<int>)
    requires Metrics(p, g).Success?
    ensures var tp, fp, fn := TruePositives(p, g), FalsePositives(p, g), FalseNegatives(p, g);
            Metrics(p, g).value == Scores(Fraction(tp, tp + fp), Fraction(tp, tp + fn), Fraction(2 * tp, 2 * tp + fp + fn), Sum(g))
  {
  }

  /** With at least one true positive, F1 is the harmonic mean of precision and recall. */
  lemma F1IsHarmonicMean(p: seq<int>, g: seq<int>)
    requires Metrics(p, g).Success? && TruePositives(p, g) > 0
    ensures var s := Metrics(p, g).value; HarmonicMeanOf(s.f1, s.precision, s.recall)
  {
    MetricsScores(p, g);
    F1OfCounts(TruePositives(p, g), FalsePositives(p, g), FalseNegatives(p, g));
  }

  /** F1 is zero exactly when it is defined and there is no true positive. */
  lemma F1ZeroWithoutTruePositives(p: seq<int>, g: seq<int>)
    requires Metrics(p, g).Success?
    ensures var s := Metrics(p, g).value;
            s.f1.Defined? ==> (s.f1.value == 0.0 <==> TruePositives(p, g) == 0)
  {
  }

  /** Exchanging predictions and gold exchanges precision and recall and keeps F1. */
  lemma {:induction false} SwapPredictionAndGold(p: seq<int>, g: seq<int>)
    requires |p| == |g|
    ensures Metrics(p, g).Success? <==> Metrics(g, p).Success?
    ensures Metrics(p, g).Success? ==>
              Metrics(g, p).value.precision == Metrics(p, g).value.recall &&
              Metrics(g, p).value.recall == Metrics(p, g).value.precision &&
              Metrics(g, p).value.f1 == Metrics(p, g).value.f1
  {
    assert Present(p, g) == Present(g, p);
    TallySwap(p, g, true, true);
    TallySwap(p, g, true, false);
    TallySwap(p, g, false, true);
  }

  predicate ZeroOne(s: seq<int>) {
    forall i :: 0 <= i < |s| ==> s[i] == 0 || s[i] == 1
  }

  /** With gold values 0 and 1, the reported verified count is the number of gold positives. */
  lemma {:induction false} VerifiedCountIsGoldPositives(p: seq<int>, g: seq<int>)
    requires |p| == |g| && ZeroOne(g)
    ensures Sum(g) == TruePositives(p, g) + FalseNegatives(p, g)
  {
    if p != [] {
      VerifiedCountIsGoldPositives(p[1..], g[1..]);
    }
  }

  /** With values 0 and 1, the match count is the number of true positives and true negatives. */
  lemma {:induction false} MatchCountIsAgreement(pred: seq<(int, Cell)>, gold: seq<(int, Cell)>)
    requires |pred| == |gold| && Values(pred).Some? && Values(gold).Some?
    requires ZeroOne(Values(pred).value) && ZeroOne(Values(gold).value)
    ensures var p, g := Values(pred).value, Values(gold).value;
            MatchCount(pred, gold) == TruePositives(p, g) + TrueNegatives(p, g)
  {
    if pred != [] {
      var p, g := Values(pred).value, Values(gold).value;
      assert Values(pred[1..]).value == p[1..] && Values(gold[1..]).value == g[1..];
      MatchCountIsAgreement(pred[1..], gold[1..]);
    }
  }

  /** An empty verified set leaves every metric undefined rather than zero. */
  lemma EmptyVectorsUndefined()
    ensures Evaluate([], []) == Success(Scores(Undefined, Undefined, Undefined, 0))
  {
  }

  /** Predictions 0, 1 against gold 0, 1: precision, recall and F1 are 1, and the gold vector sums to 1. */
  lemma PerfectAgreement()
    ensures Evaluate([(0, Num(0)), (1, Num(1))], [(1, Num(0)), (3, Num(1))])
            == Success(Scores(Defined(1.0), Defined(1.0), Defined(1.0), 1))
  {
    var pred: seq<(int, Cell)>, gold: seq<(int, Cell)> := [(0, Num(0)), (1, Num(1))], [(1, Num(0)), (3, Num(1))];
    var p, g := [0, 1], [0, 1];
    assert [1] + [] == [1] && [0] + [1] == p;
    assert Values(pred[1..]) == Some([1]) by { assert pred[1..][1..] == []; }
    assert Values(gold[1..]) == Some([1]) by { assert gold[1..][1..] == []; }
    assert Values(pred) == Some(p) && Values(gold) == Some(g);
    assert Present(p, g) == {0, 1};
    assert TruePositives(p, g) == 1 && FalsePositives(p, g) == 0 && FalseNegatives(p, g) == 0;
  }
}
