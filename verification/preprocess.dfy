/**
 * Turning a coded CSV table into feature bags and boolean code vectors
 * (src/preprocess.py).
 *
 * A CSV row is a sequence of strings.  The feature extractor, the feature
 * vectoriser and the builder of the code list and code index are helpers
 * this model does not contain; they are parameters.  numpy's shape rule for
 * `np.array` of a list of equally long vectors is modelled explicitly,
 * because `save` compares shapes.
 */
module Preprocess {
  import opened Wrappers
  import opened PyLists

  type Row = seq<string>

  /** A code of a grouped table: the group name and the value found in one of its columns. */
  type Code = (string, string)

  datatype PreprocessError = IndexError | DimensionsDoNotMatch

  // ---------------------------------------------------------------------------
  // Code columns

  predicate Increasing(s: seq<nat>) {
    forall p, q :: 0 <= p < q < |s| ==> s[p] < s[q]
  }

  function ColumnsFrom(start: nat, width: nat, textCol: int, ignoreCols: seq<int>): (cols: seq<nat>)
    ensures Increasing(cols)
    ensures forall p :: 0 <= p < |cols| ==> start <= cols[p] < width
    ensures forall i :: i in cols <==> start <= i < width && i != textCol && i !in ignoreCols
    decreases width - start
  {
    if start >= width then []
    else if start == textCol || start in ignoreCols then ColumnsFrom(start + 1, width, textCol, ignoreCols)
    else [start] + ColumnsFrom(start + 1, width, textCol, ignoreCols)
  }

  /**
   * `sorted(set(range(width)) - {text_col} - set(ignore_cols))`: the column
   * indices that hold neither the text nor an ignored column, in increasing order.
   */
  function CodeColumns(width: nat, textCol: int, ignoreCols: seq<int>): (cols: seq<nat>)
    ensures Increasing(cols)
    ensures forall i :: i in cols <==> 0 <= i < width && i != textCol && i !in ignoreCols
    ensures forall p :: 0 <= p < |cols| ==> cols[p] < width
  {
    ColumnsFrom(0, width, textCol, ignoreCols)
  }

  /** The listed columns of a row, in the order listed. */
  function Pick<T>(row: seq<T>, cols: seq<nat>): (r: seq<T>)
    requires forall p :: 0 <= p < |cols| ==> cols[p] < |row|
    ensures |r| == |cols|
    ensures forall p :: 0 <= p < |cols| ==> r[p] == row[cols[p]]
  {
    seq(|cols|, p requires 0 <= p < |cols| => row[cols[p]])
  }

  /** Every code column lies inside the heading row. */
  lemma CodeColumnsInRange(width: nat, textCol: int, ignoreCols: seq<int>)
    ensures var cols := CodeColumns(width, textCol, ignoreCols);
            |cols| <= width && forall p :: 0 <= p < |cols| ==> cols[p] < width
  {
    var cols := CodeColumns(width, textCol, ignoreCols);
    forall p | 0 <= p < |cols| ensures cols[p] < width {
      assert cols[p] in cols;
    }
    IncreasingBounded(cols, width);
  }

  lemma {:induction false} IncreasingBounded(s: seq<nat>, bound: nat)
    requires Increasing(s) && forall p :: 0 <= p < |s| ==> s[p] < bound
    ensures |s| <= bound
  {
    if s != [] {
      var last := s[|s| - 1];
      assert forall p :: 0 <= p < |s| - 1 ==> s[p] < last;
      IncreasingBounded(s[..|s| - 1], last);
    }
  }

  // ---------------------------------------------------------------------------
  // Group names: headings[i][:-1].strip() for every third code column

  /**
   * The characters for which Python's `str.isspace` holds, which `str.strip`
   * removes: the ASCII controls 9 to 13 and 28 to 31, the space, and the
   * Unicode separators.
   */
  predicate IsSpace(c: char) {
    '\U{9}' <= c <= '\U{D}' || '\U{1C}' <= c <= '\U{20}' || c == '\U{85}' || c == '\U{A0}' || c == '\U{1680}'
    || '\U{2000}' <= c <= '\U{200A}' || c == '\U{2028}' || c == '\U{2029}' || c == '\U{202F}' || c == '\U{205F}'
    || c == '\U{3000}'
  }

  /** Positions `from` up to `to` of `s` exist and hold whitespace. */
  predicate Blank(s: string, from: nat, to: nat) {
    forall p :: from <= p < to ==> p < |s| && IsSpace(s[p])
  }

  /** The end of the run of whitespace that starts at position `i`. */
  function SpaceRunFrom(s: string, i: nat): (j: nat)
    requires i <= |s|
    ensures i <= j <= |s| && Blank(s, i, j)
    ensures j < |s| ==> !IsSpace(s[j])
    decreases |s| - i
  {
    if i < |s| && IsSpace(s[i]) then SpaceRunFrom(s, i + 1) else i
  }

  /** The start of the run of whitespace that ends at position `j`, going back no further than `lo`. */
  function SpaceRunBack(s: string, lo: nat, j: nat): (k: nat)
    requires lo <= j <= |s|
    ensures lo <= k <= j && Blank(s, k, j)
    ensures k > lo ==> !IsSpace(s[k - 1])
    decreases j
  {
    if j > lo && IsSpace(s[j - 1]) then SpaceRunBack(s, lo, j - 1) else j
  }

  /**
   * `str.strip()`: the piece of `s` left after removing its leading and its
   * trailing whitespace.  Everything before and after the piece is
   * whitespace, and the piece neither starts nor ends with whitespace, which
   * makes it the only such piece.
   */
  function Strip(s: string): (r: string)
    ensures var i := SpaceRunFrom(s, 0);
            i + |r| <= |s| && r == s[i..i + |r|] && Blank(s, 0, i) && Blank(s, i + |r|, |s|)
    ensures r != [] ==> !IsSpace(r[0]) && !IsSpace(r[|r| - 1])
  {
    var i := SpaceRunFrom(s, 0);
    var j := SpaceRunBack(s, i, |s|);
    s[i..j]
  }

  /** `s[:-1]`: the string without its last character (empty stays empty). */
  function DropLast(s: string): (r: string)
    ensures |s| > 0 ==> r == s[..|s| - 1]
    ensures |s| == 0 ==> r == []
  {
    if s == [] then [] else s[..|s| - 1]
  }

  /** `cols[::3]`: every third element, starting with the first. */
  function EveryThird<T>(s: seq<T>): (r: seq<T>)
    ensures |r| == (|s| + 2) / 3
    ensures forall p :: 0 <= p < |r| ==> r[p] == s[3 * p]
  {
    if |s| <= 3 then (if s == [] then [] else [s[0]])
    else [s[0]] + EveryThird(s[3..])
  }

  /** `pair_names`: the stripped heading, without its last character, of every third code column. */
  function GroupNames(headings: seq<string>, cols: seq<nat>): (names: seq<string>)
    requires forall p :: 0 <= p < |cols| ==> cols[p] < |headings|
    ensures |names| == (|cols| + 2) / 3
    ensures forall p :: 0 <= p < |names| ==> names[p] == Strip(DropLast(headings[cols[3 * p]]))
  {
    var firsts := EveryThird(cols);
    seq(|firsts|, p requires 0 <= p < |firsts| => Strip(DropLast(headings[firsts[p]])))
  }

  // ---------------------------------------------------------------------------
  // save: the dimension check and the frequency counts

  predicate Uniform<T>(rows: seq<seq<T>>, width: nat) {
    forall i :: 0 <= i < |rows| ==> |rows[i]| == width
  }

  /** The shape of `np.array(rows)` for a list of vectors of one common length: `(0,)` for an empty list. */
  function ArrayShape<T>(rows: seq<seq<T>>, width: nat): (shape: seq<nat>)
    requires Uniform(rows, width)
    ensures |shape| == 1 <==> rows == []
  {
    if rows == [] then [0] else [|rows|, width]
  }

  /** The number of rows whose entry in column `j` exists and satisfies `hit`, counted from the last row back. */
  function CountColumn<T>(rows: seq<seq<T>>, j: nat, hit: T -> bool): (n: nat)
    ensures n <= |rows|
  {
    if rows == [] then 0
    else
      var last := rows[|rows| - 1];
      CountColumn(rows[..|rows| - 1], j, hit) + (if j < |last| && hit(last[j]) then 1 else 0)
  }

  /** The rows counted by `CountColumn`, as a set of row numbers. */
  function RowsHit<T>(rows: seq<seq<T>>, j: nat, hit: T -> bool): set<nat> {
    set i: nat | i < |rows| && j < |rows[i]| && hit(rows[i][j])
  }

  /** The column count is the number of rows that have a hit in that column. */
  lemma {:induction false} CountColumnIsCardinality<T>(rows: seq<seq<T>>, j: nat, hit: T -> bool)
    ensures CountColumn(rows, j, hit) == |RowsHit(rows, j, hit)|
  {
    if rows == [] {
      assert RowsHit(rows, j, hit) == {};
    } else {
      var n := |rows| - 1;
      var front := rows[..n];
      CountColumnIsCardinality(front, j, hit);
      var hits := if j < |rows[n]| && hit(rows[n][j]) then {n} else {};
      assert RowsHit(rows, j, hit) == RowsHit(front, j, hit) + hits;
      assert n !in RowsHit(front, j, hit);
    }
  }

  function IsSet(b: bool): bool { b }

  function IsNonzero(x: real): bool { x != 0.0 }

  /** `list(zip(names, counts))` */
  function Zip<A, B>(a: seq<A>, b: seq<B>): (r: seq<(A, B)>)
    ensures |r| == if |a| <= |b| then |a| else |b|
    ensures forall p :: 0 <= p < |r| ==> r[p] == (a[p], b[p])
  {
    if a == [] || b == [] then [] else [(a[0], b[0])] + Zip(a[1..], b[1..])
  }

  /** The two lists `save` writes: every feature and every code with its frequency. */
  datatype Saved<N> = Saved(features: seq<(string, nat)>, codes: seq<(N, nat)>)

  /**
   * `save`: refuses a code matrix whose shape is not (number of messages,
   * number of code names); otherwise pairs each code name with the number of
   * messages that have the code, and each feature with the number of
   * messages in which it is nonzero.  `featList` and `featVecs` are the
   * feature list and the vectorised messages of the feature helpers.
   */
  function Save<N>(messages: nat, codeVecs: seq<seq<bool>>, width: nat, codeNames: seq<N>,
                   featList: seq<string>, featVecs: seq<seq<real>>): (r: Result<Saved<N>, PreprocessError>)
    requires Uniform(codeVecs, width)
    ensures r.Failure? <==> ArrayShape(codeVecs, width) != [messages, |codeNames|]
    ensures r.Failure? ==> r.error == DimensionsDoNotMatch
    ensures r.Success? ==>
              |r.value.codes| == |codeNames| &&
              forall k :: 0 <= k < |codeNames| ==> r.value.codes[k] == (codeNames[k], |RowsHit(codeVecs, k, IsSet)|)
    ensures r.Success? ==>
              |r.value.features| == |featList| &&
              forall j :: 0 <= j < |featList| ==> r.value.features[j] == (featList[j], |RowsHit(featVecs, j, IsNonzero)|)
  {
    if ArrayShape(codeVecs, width) != [messages, |codeNames|] then Failure(DimensionsDoNotMatch)
    else
      var codeFreq := seq(|codeNames|, k requires 0 <= k < |codeNames| => CountColumn(codeVecs, k, IsSet));
      var featFreq := seq(|featList|, j requires 0 <= j < |featList| => CountColumn(featVecs, j, IsNonzero));
      assert forall k :: 0 <= k < |codeNames| ==> codeFreq[k] == |RowsHit(codeVecs, k, IsSet)| by {
        forall k | 0 <= k < |codeNames| ensures codeFreq[k] == |RowsHit(codeVecs, k, IsSet)| {
          CountColumnIsCardinality(codeVecs, k, IsSet);
        }
      }
      assert forall j :: 0 <= j < |featList| ==> featFreq[j] == |RowsHit(featVecs, j, IsNonzero)| by {
        forall j | 0 <= j < |featList| ensures featFreq[j] == |RowsHit(featVecs, j, IsNonzero)| {
          CountColumnIsCardinality(featVecs, j, IsNonzero);
        }
      }
      Success(Saved(Zip(featList, featFreq), Zip(codeNames, codeFreq)))
  }

  /** With no messages the code matrix has shape (0,), so `save` always refuses it. */
  lemma NoMessagesRejected<N>(width: nat, codeNames: seq<N>, featList: seq<string>, featVecs: seq<seq<real>>)
    ensures Save(0, [], width, codeNames, featList, featVecs) == Failure(DimensionsDoNotMatch)
  {
  }

  // ---------------------------------------------------------------------------
  // preprocess_long

  /** `row[text_col]`, with Python's reading of a negative column index. */
  function TextCell(row: Row, textCol: int): string
    requires PyIndex(row, textCol).Some?
  {
    PyIndex(row, textCol).value
  }

  /** A row is long enough for the text column and every listed column. */
  predicate RowFits(row: Row, textCol: int, cols: seq<nat>) {
    PyIndex(row, textCol).Some? && forall p :: 0 <= p < |cols| ==> cols[p] < |row|
  }

  /** A row's code vector: each code column converted to a boolean. */
  function CodeRow(row: Row, cols: seq<nat>, convert: string -> bool): (v: seq<bool>)
    requires forall p :: 0 <= p < |cols| ==> cols[p] < |row|
    ensures |v| == |cols|
    ensures forall p :: 0 <= p < |cols| ==> v[p] == convert(row[cols[p]])
  {
    seq(|cols|, p requires 0 <= p < |cols| => convert(row[cols[p]]))
  }

  /** What a preprocessing run hands to `save`, and what `save` writes. */
  datatype Prepared<B, N> = Prepared(featBags: seq<B>, codeVecs: seq<seq<bool>>, codeNames: seq<N>, saved: Saved<N>)

  /**
   * `preprocess_long`: one feature bag and one code vector per data row, in
   * row order, then `save`.  `extract` is the feature extractor, `convert`
   * the conversion of a code cell (followed by the cast to bool), and
   * `features` the feature helpers that give the feature list and the
   * vectorised messages.
   */
  method PreprocessLong<B>(headings: Row, rows: seq<Row>, extract: string -> B, textCol: int, ignoreCols: seq<int>,
                           convert: string -> bool, features: seq<B> -> (seq<string>, seq<seq<real>>))
    returns (r: Result<Prepared<B, string>, PreprocessError>)
    ensures var cols := CodeColumns(|headings|, textCol, ignoreCols);
            (r == Failure(IndexError) <==> exists i :: 0 <= i < |rows| && !RowFits(rows[i], textCol, cols))
    ensures var cols := CodeColumns(|headings|, textCol, ignoreCols);
            (forall i :: 0 <= i < |rows| ==> RowFits(rows[i], textCol, cols)) ==>
              (r == Failure(DimensionsDoNotMatch) <==> rows == [])
    ensures var cols := CodeColumns(|headings|, textCol, ignoreCols);
            r.Success? ==>
              var out := r.value;
              |out.featBags| == |rows| && |out.codeVecs| == |rows| &&
              (forall i :: 0 <= i < |rows| ==>
                 RowFits(rows[i], textCol, cols) &&
                 out.featBags[i] == extract(TextCell(rows[i], textCol)) &&
                 out.codeVecs[i] == CodeRow(rows[i], cols, convert)) &&
              out.codeNames == Pick(headings, cols) &&
              Save(|rows|, out.codeVecs, |cols|, out.codeNames, features(out.featBags).0, features(out.featBags).1)
                == Success(out.saved)
  {
    var cols := CodeColumns(|headings|, textCol, ignoreCols);
    var codeNames := Pick(headings, cols);
    var featBags: seq<B> := [];
    var codeVecs: seq<seq<bool>> := [];
    for i := 0 to |rows|
      invariant |featBags| == i && |codeVecs| == i
      invariant forall k :: 0 <= k < i ==> RowFits(rows[k], textCol, cols)
      invariant forall k :: 0 <= k < i ==> featBags[k] == extract(TextCell(rows[k], textCol))
      invariant forall k :: 0 <= k < i ==> codeVecs[k] == CodeRow(rows[k], cols, convert)
    {
      var row := rows[i];
      if !RowFits(row, textCol, cols) {
        return Failure(IndexError);
      }
      featBags := featBags + [extract(TextCell(row, textCol))];
      codeVecs := codeVecs + [CodeRow(row, cols, convert)];
    }
    var (featList, featVecs) := features(featBags);
    var saved := Save(|featBags|, codeVecs, |cols|, codeNames, featList, featVecs);
    if saved.Failure? {
      return Failure(saved.error);
    }
    return Success(Prepared(featBags, codeVecs, codeNames, saved.value));
  }

  // ---------------------------------------------------------------------------
  // preprocess_pairs

  /** A group of code columns with its name (one element of `zip(pair_names, pair_indices)`). */
  type Group = (string, seq<nat>)

  /** Every column of every group lies inside the row. */
  predicate GroupsFit(row: Row, groups: seq<Group>) {
    forall g, p :: 0 <= g < |groups| && 0 <= p < |groups[g].1| ==> groups[g].1[p] < |row|
  }

  /** The codes one group contributes: its name with the value of each of its columns that is not an uncoded marker. */
  function GroupCodes(row: Row, name: string, inds: seq<nat>, uncoded: seq<string>): set<Code>
    requires forall p :: 0 <= p < |inds| ==> inds[p] < |row|
  {
    if inds == [] then {}
    else
      var n := |inds| - 1;
      GroupCodes(row, name, inds[..n], uncoded) + (if row[inds[n]] in uncoded then {} else {(name, row[inds[n]])})
  }

  /** A code comes from the group exactly when it pairs the group's name with a column value that is not an uncoded marker. */
  lemma {:induction false} GroupCodesMembers(row: Row, name: string, inds: seq<nat>, uncoded: seq<string>, c: Code)
    requires forall p :: 0 <= p < |inds| ==> inds[p] < |row|
    ensures c in GroupCodes(row, name, inds, uncoded) <==>
              c.0 == name && exists p :: 0 <= p < |inds| && row[inds[p]] !in uncoded && c.1 == row[inds[p]]
  {
    if inds != [] {
      var n := |inds| - 1;
      var front := inds[..n];
      assert forall p :: 0 <= p < n ==> front[p] == inds[p];
      GroupCodesMembers(row, name, front, uncoded, c);
    }
  }

  /** A row's code set: the union of the codes of all groups, taken group by group. */
  function CodeSetOf(row: Row, groups: seq<Group>, uncoded: seq<string>): set<Code>
    requires GroupsFit(row, groups)
  {
    if groups == [] then {}
    else
      var n := |groups| - 1;
      assert GroupsFit(row, groups[..n]) by {
        assert forall g :: 0 <= g < n ==> groups[..n][g] == groups[g];
      }
      CodeSetOf(row, groups[..n], uncoded) + GroupCodes(row, groups[n].0, groups[n].1, uncoded)
  }

  /**
   * A code is in the row's code set exactly when some group has a column,
   * not holding an uncoded marker, whose value with the group's name is the code.
   */
  lemma {:induction false} CodeSetMembers(row: Row, groups: seq<Group>, uncoded: seq<string>, c: Code)
    requires GroupsFit(row, groups)
    ensures c in CodeSetOf(row, groups, uncoded) <==>
            exists g, p :: 0 <= g < |groups| && 0 <= p < |groups[g].1| &&
                           c.0 == groups[g].0 && row[groups[g].1[p]] !in uncoded && c.1 == row[groups[g].1[p]]
  {
    if groups != [] {
      var n := |groups| - 1;
      var front := groups[..n];
      assert GroupsFit(row, front) by {
        assert forall g :: 0 <= g < n ==> front[g] == groups[g];
      }
      CodeSetMembers(row, front, uncoded, c);
      GroupCodesMembers(row, groups[n].0, groups[n].1, uncoded, c);
      if c in CodeSetOf(row, front, uncoded) {
        var g, p :| 0 <= g < |front| && 0 <= p < |front[g].1| &&
                    c.0 == front[g].0 && row[front[g].1[p]] !in uncoded && c.1 == row[front[g].1[p]];
        assert groups[g] == front[g];
      }
      if exists g, p :: 0 <= g < |groups| && 0 <= p < |groups[g].1| &&
                        c.0 == groups[g].0 && row[groups[g].1[p]] !in uncoded && c.1 == row[groups[g].1[p]] {
        var g, p :| 0 <= g < |groups| && 0 <= p < |groups[g].1| &&
                    c.0 == groups[g].0 && row[groups[g].1[p]] !in uncoded && c.1 == row[groups[g].1[p]];
        if g < n {
          assert front[g] == groups[g];
        }
      }
    }
  }

  /**
   * The loop of `preprocess_pairs` over the groups for one row: `|=` adds
   * each group's codes in turn, and a group column beyond the row stops the
   * set comprehension with an `IndexError`.
   */
  method RowCodeSet(row: Row, groups: seq<Group>, uncoded: seq<string>) returns (r: Result<set<Code>, PreprocessError>)
    ensures r.Failure? <==> !GroupsFit(row, groups)
    ensures r.Failure? ==> r.error == IndexError
    ensures r.Success? ==> r.value == CodeSetOf(row, groups, uncoded)
  {
    var acc: set<Code> := {};
    for g := 0 to |groups|
      invariant GroupsFit(row, groups[..g])
      invariant acc == CodeSetOf(row, groups[..g], uncoded)
    {
      var (name, inds) := groups[g];
      if exists p :: 0 <= p < |inds| && inds[p] >= |row| {
        return Failure(IndexError);
      }
      acc := acc + GroupCodes(row, name, inds, uncoded);
      assert groups[..g + 1][..g] == groups[..g];
    }
    assert groups[..|groups|] == groups;
    return Success(acc);
  }

  /** `get_global_set` on the row code sets: every code found in some row. */
  function UnionOf(sets: seq<set<Code>>): (u: set<Code>)
    ensures forall c :: c in u <==> exists i :: 0 <= i < |sets| && c in sets[i]
  {
    if sets == [] then {}
    else
      var n := |sets| - 1;
      assert forall i :: 0 <= i < n ==> sets[..n][i] == sets[i];
      UnionOf(sets[..n]) + sets[n]
  }

  /**
   * What `feature_list_and_dict` gives for a set of codes: a list with one
   * entry per code, and an injective index of the codes into [0, number of codes).
   */
  predicate IndexFor(codes: set<Code>, list: seq<Code>, dict: map<Code, nat>) {
    |list| == |codes| &&
    (forall c :: c in codes ==> c in dict && dict[c] < |codes|) &&
    (forall c, d :: c in codes && d in codes && c != d ==> dict[c] != dict[d])
  }

  /** The boolean vector of length `k` that is true exactly at the indices of the codes in `s`. */
  function Indicator(s: set<Code>, dict: map<Code, nat>, k: nat): (v: seq<bool>)
    ensures |v| == k
    ensures forall c :: c in s && c in dict && dict[c] < k ==> v[dict[c]]
  {
    seq(k, j => exists c :: c in s && c in dict && dict[c] == j)
  }

  /** The positions at which a boolean vector is true. */
  function Positives(v: seq<bool>): set<nat> {
    set j: nat | j < |v| && v[j]
  }

  /**
   * With an injective index into [0, k), the indicator vector of a code set
   * has exactly as many true entries as the set has codes.
   */
  lemma IndicatorCount(s: set<Code>, dict: map<Code, nat>, k: nat)
    requires forall c :: c in s ==> c in dict && dict[c] < k
    requires forall c, d :: c in s && d in s && c != d ==> dict[c] != dict[d]
    ensures |Positives(Indicator(s, dict, k))| == |s|
  {
    var v := Indicator(s, dict, k);
    assert Positives(v) == Image(s, dict);
    ImageSize(s, dict);
  }

  /** The indices of the codes in `s`. */
  function Image(s: set<Code>, dict: map<Code, nat>): set<nat>
    requires forall c :: c in s ==> c in dict
  {
    set c | c in s :: dict[c]
  }

  lemma {:induction false} ImageSize(s: set<Code>, dict: map<Code, nat>)
    requires forall c :: c in s ==> c in dict
    requires forall c, d :: c in s && d in s && c != d ==> dict[c] != dict[d]
    ensures |Image(s, dict)| == |s|
    decreases |s|
  {
    if s != {} {
      var c :| c in s;
      var rest := s - {c};
      ImageSize(rest, dict);
      assert Image(s, dict) == Image(rest, dict) + {dict[c]};
      assert dict[c] !in Image(rest, dict);
    }
  }

  /**
   * `vectorise_codes`: a fresh all-false vector of length `k`, then one
   * entry set to true for each code of the set, at the code's index.
   */
  method VectoriseCodes(s: set<Code>, dict: map<Code, nat>, k: nat) returns (vec: array<bool>)
    requires forall c :: c in s ==> c in dict && dict[c] < k
    ensures fresh(vec)
    ensures vec[..] == Indicator(s, dict, k)
  {
    vec := new bool[k](_ => false);
    var rest := s;
    ghost var done: set<Code> := {};
    while rest != {}
      invariant rest <= s && done == s - rest
      invariant vec.Length == k
      invariant forall j :: 0 <= j < k ==> (vec[j] <==> exists c :: c in done && c in dict && dict[c] == j)
      decreases |rest|
    {
      var c :| c in rest;
      vec[dict[c]] := true;
      rest := rest - {c};
      done := done + {c};
    }
  }

  /** A row is long enough for the text column and every column of every group. */
  predicate PairRowFits(row: Row, textCol: int, groups: seq<Group>) {
    PyIndex(row, textCol).Some? && GroupsFit(row, groups)
  }

  /** The groups of `preprocess_pairs`: each group name with its columns; surplus names or column groups are dropped. */
  function Groups(headings: Row, textCol: int, ignoreCols: seq<int>, groupColumns: seq<seq<nat>>): (groups: seq<Group>)
    ensures var names := GroupNames(headings, CodeColumns(|headings|, textCol, ignoreCols));
            |groups| == (if |names| <= |groupColumns| then |names| else |groupColumns|) &&
            forall g :: 0 <= g < |groups| ==> groups[g] == (names[g], groupColumns[g])
  {
    Zip(GroupNames(headings, CodeColumns(|headings|, textCol, ignoreCols)), groupColumns)
  }

  /** The code set of every row, in row order. */
  function RowCodeSets(rows: seq<Row>, groups: seq<Group>, uncoded: seq<string>): (sets: seq<set<Code>>)
    requires forall i :: 0 <= i < |rows| ==> GroupsFit(rows[i], groups)
    ensures |sets| == |rows|
  {
    seq(|rows|, i requires 0 <= i < |rows| => CodeSetOf(rows[i], groups, uncoded))
  }

  /**
   * The row loop of `preprocess_pairs`: the feature bag and the code set of
   * every row, in row order; a row too short for the text column or for a
   * group column is an `IndexError`.
   */
  method BagsAndCodeSets<B>(rows: seq<Row>, extract: string -> B, textCol: int, groups: seq<Group>, uncoded: seq<string>)
    returns (r: Result<(seq<B>, seq<set<Code>>), PreprocessError>)
    ensures r.Failure? <==> exists i :: 0 <= i < |rows| && !PairRowFits(rows[i], textCol, groups)
    ensures r.Failure? ==> r.error == IndexError
    ensures r.Success? ==>
              (forall i :: 0 <= i < |rows| ==> PairRowFits(rows[i], textCol, groups)) &&
              |r.value.0| == |rows| &&
              (forall i :: 0 <= i < |rows| ==> r.value.0[i] == extract(TextCell(rows[i], textCol))) &&
              r.value.1 == RowCodeSets(rows, groups, uncoded)
  {
    var featBags: seq<B> := [];
    var codeSets: seq<set<Code>> := [];
    for i := 0 to |rows|
      invariant |featBags| == i && |codeSets| == i
      invariant forall k :: 0 <= k < i ==> PairRowFits(rows[k], textCol, groups)
      invariant forall k :: 0 <= k < i ==> featBags[k] == extract(TextCell(rows[k], textCol))
      invariant forall k :: 0 <= k < i ==> codeSets[k] == CodeSetOf(rows[k], groups, uncoded)
    {
      var row := rows[i];
      if PyIndex(row, textCol).None? {
        return Failure(IndexError);
      }
      featBags := featBags + [extract(TextCell(row, textCol))];
      var rowCodes := RowCodeSet(row, groups, uncoded);
      if rowCodes.Failure? {
        return Failure(IndexError);
      }
      codeSets := codeSets + [rowCodes.value];
    }
    return Success((featBags, codeSets));
  }

  /** `np.array([vectorise_codes(x) for x in code_sets])`, as the list of its rows. */
  method VectoriseAll(codeSets: seq<set<Code>>, dict: map<Code, nat>, k: nat) returns (codeVecs: seq<seq<bool>>)
    requires forall i, c :: 0 <= i < |codeSets| && c in codeSets[i] ==> c in dict && dict[c] < k
    ensures |codeVecs| == |codeSets|
    ensures forall i :: 0 <= i < |codeSets| ==> codeVecs[i] == Indicator(codeSets[i], dict, k)
  {
    codeVecs := [];
    for i := 0 to |codeSets|
      invariant |codeVecs| == i
      invariant forall j :: 0 <= j < i ==> codeVecs[j] == Indicator(codeSets[j], dict, k)
    {
      var vec := VectoriseCodes(codeSets[i], dict, k);
      codeVecs := codeVecs + [vec[..]];
    }
  }

  /**
   * `preprocess_pairs`: one feature bag and one code set per data row, in
   * row order; then the global code set, its list and index (from
   * `index`, the feature-list helper applied to codes), one indicator vector
   * per row, and `save`.  `groupColumns` are the column groups of the codes.
   */
  method PreprocessPairs<B>(headings: Row, rows: seq<Row>, extract: string -> B, textCol: int, ignoreCols: seq<int>,
                            groupColumns: seq<seq<nat>>, uncoded: seq<string>,
                            index: set<Code> -> (seq<Code>, map<Code, nat>),
                            features: seq<B> -> (seq<string>, seq<seq<real>>))
    returns (r: Result<Prepared<B, Code>, PreprocessError>)
    requires forall s :: IndexFor(s, index(s).0, index(s).1)
    ensures var groups := Groups(headings, textCol, ignoreCols, groupColumns);
            (r == Failure(IndexError) <==> exists i :: 0 <= i < |rows| && !PairRowFits(rows[i], textCol, groups))
    ensures var groups := Groups(headings, textCol, ignoreCols, groupColumns);
            (forall i :: 0 <= i < |rows| ==> PairRowFits(rows[i], textCol, groups)) ==>
              (r == Failure(DimensionsDoNotMatch) <==> rows == [])
    ensures var groups := Groups(headings, textCol, ignoreCols, groupColumns);
            r.Success? ==>
              (forall i :: 0 <= i < |rows| ==> PairRowFits(rows[i], textCol, groups)) &&
              var codes := UnionOf(RowCodeSets(rows, groups, uncoded));
              var (list, dict) := index(codes);
              var out := r.value;
              |out.featBags| == |rows| && |out.codeVecs| == |rows| &&
              (forall i :: 0 <= i < |rows| ==>
                 out.featBags[i] == extract(TextCell(rows[i], textCol)) &&
                 out.codeVecs[i] == Indicator(CodeSetOf(rows[i], groups, uncoded), dict, |codes|)) &&
              out.codeNames == list &&
              Save(|rows|, out.codeVecs, |codes|, list, features(out.featBags).0, features(out.featBags).1)
                == Success(out.saved)
  {
    var groups := Groups(headings, textCol, ignoreCols, groupColumns);
    var pass := BagsAndCodeSets(rows, extract, textCol, groups, uncoded);
    if pass.Failure? {
      return Failure(IndexError);
    }
    var (featBags, codeSets) := pass.value;
    var codes := UnionOf(codeSets);
    var (list, dict) := index(codes);
    assert IndexFor(codes, list, dict);
    var codeVecs := VectoriseAll(codeSets, dict, |codes|);
    assert Uniform(codeVecs, |codes|);
    var (featList, featVecs) := features(featBags);
    var saved := Save(|featBags|, codeVecs, |codes|, list, featList, featVecs);
    if saved.Failure? {
      return Failure(saved.error);
    }
    return Success(Prepared(featBags, codeVecs, list, saved.value));
  }
}
