/**
 * What src/predict_multiple.py and src/select_multiple.py share: the
 * identifiers of the training file, the filter that keeps the unlabelled
 * messages of the chosen weeks, and the feature index built from the
 * saved feature list.
 *
 * A CSV row is a sequence of strings.  Python's `in` on two strings is a
 * substring test, and indexing past the end of a row raises `IndexError`;
 * both are modelled explicitly.
 */
module Messages {
  import opened Wrappers

  type Row = seq<string>

  /** The exceptions the scripts can stop with: a missing list element, and adding text to a number. */
  datatype ScriptError = IndexError | TypeError

  // ---------------------------------------------------------------------------
  // Substrings

  /** `sub` is a prefix of `s`. */
  predicate IsPrefix(sub: string, s: string) {
    |sub| <= |s| && s[..|sub|] == sub
  }

  /** `sub` occurs in `s` starting at position `i`. */
  predicate OccursAt(s: string, sub: string, i: nat) {
    i + |sub| <= |s| && s[i..i + |sub|] == sub
  }

  /** Python's `sub in s` on strings: `sub` occurs in `s` at some position. */
  function Contains(s: string, sub: string): (r: bool)
    ensures r <==> exists i: nat :: OccursAt(s, sub, i)
  {
    if IsPrefix(sub, s) then
      assert OccursAt(s, sub, 0);
      true
    else if s == [] then false
    else
      var r := Contains(s[1..], sub);
      if r then
        var i: nat :| OccursAt(s[1..], sub, i);
        assert s[1..][i..i + |sub|] == s[i + 1..i + 1 + |sub|];
        assert OccursAt(s, sub, i + 1);
        true
      else
        assert forall i: nat :: OccursAt(s, sub, i) ==> i > 0 && OccursAt(s[1..], sub, i - 1) by {
          forall i: nat | OccursAt(s, sub, i) ensures i > 0 && OccursAt(s[1..], sub, i - 1) {
            assert s[1..][i - 1..i - 1 + |sub|] == s[i..i + |sub|];
          }
        }
        false
  }

  /**
   * For the weeks string "12" the filter accepts the empty cell and the
   * cells "1", "2" and "12", but neither "21" nor "3".
   */
  lemma WeekSubstrings()
    ensures Contains("12", "") && Contains("12", "1") && Contains("12", "2") && Contains("12", "12")
    ensures !Contains("12", "21") && !Contains("12", "3")
  {
    assert "12"[1..2] == "2";
  }

  // ---------------------------------------------------------------------------
  // Training identifiers: [row[0] for row in training_reader]

  /** The first cell of every row; an empty row has none. */
  function FirstColumn(rows: seq<Row>): (r: Result<seq<string>, ScriptError>)
    ensures r.Failure? <==> exists i :: 0 <= i < |rows| && rows[i] == []
    ensures r.Success? ==> |r.value| == |rows| && forall i :: 0 <= i < |rows| ==> r.value[i] == rows[i][0]
  {
    if rows == [] then Success([])
    else if rows[0] == [] then Failure(IndexError)
    else
      match FirstColumn(rows[1..])
      case Failure(e) => Failure(e)
      case Success(rest) => Success([rows[0][0]] + rest)
  }

  // ---------------------------------------------------------------------------
  // The message filter: row[4] in weeks and row[0] not in mids

  /** A row of the week range (its fifth cell is a substring of `weeks`) that is not a training message. */
  predicate Wanted(row: Row, weeks: string, mids: seq<string>)
    requires |row| > 4
  {
    Contains(weeks, row[4]) && row[0] !in mids
  }

  /** Every row has a fifth cell. */
  predicate Wide(rows: seq<Row>) {
    forall i :: 0 <= i < |rows| ==> |rows[i]| > 4
  }

  /** The wanted rows, in file order. */
  function Unlabelled(rows: seq<Row>, weeks: string, mids: seq<string>): (msgs: seq<Row>)
    requires Wide(rows)
    ensures |msgs| <= |rows|
    ensures forall k :: 0 <= k < |msgs| ==> msgs[k] in rows && |msgs[k]| > 4 && Wanted(msgs[k], weeks, mids)
  {
    if rows == [] then []
    else
      var n := |rows| - 1;
      var front := Unlabelled(rows[..n], weeks, mids);
      if Wanted(rows[n], weeks, mids) then front + [rows[n]] else front
  }

  /** A row is kept exactly when it is in the file and wanted. */
  lemma {:induction false} UnlabelledMembers(rows: seq<Row>, weeks: string, mids: seq<string>, row: Row)
    requires Wide(rows)
    ensures row in Unlabelled(rows, weeks, mids) <==> row in rows && |row| > 4 && Wanted(row, weeks, mids)
  {
    if rows != [] {
      var n := |rows| - 1;
      UnlabelledMembers(rows[..n], weeks, mids, row);
      assert rows == rows[..n] + [rows[n]];
    }
  }

  /**
   * The filter loop: the wanted rows of `reader`, in file order; a row
   * without a fifth cell is an `IndexError`.
   */
  method FilterMessages(reader: seq<Row>, weeks: string, mids: seq<string>) returns (r: Result<seq<Row>, ScriptError>)
    ensures r.Failure? <==> !Wide(reader)
    ensures r.Success? ==> r.value == Unlabelled(reader, weeks, mids)
  {
    var msgs: seq<Row> := [];
    for i := 0 to |reader|
      invariant Wide(reader[..i])
      invariant msgs == Unlabelled(reader[..i], weeks, mids)
    {
      var row := reader[i];
      if |row| <= 4 {
        return Failure(IndexError);
      }
      assert reader[..i + 1][..i] == reader[..i];
      if Contains(weeks, row[4]) && row[0] !in mids {
        msgs := msgs + [row];
      }
    }
    assert reader[..|reader|] == reader;
    return Success(msgs);
  }

  // ---------------------------------------------------------------------------
  // The feature index: {x: i for i, x in enumerate(feat_list)}

  /** The names of a saved (name, frequency) list. */
  function Names<F>(feats: seq<(string, F)>): (names: seq<string>)
    ensures |names| == |feats|
    ensures forall i :: 0 <= i < |feats| ==> names[i] == feats[i].0
  {
    seq(|feats|, i requires 0 <= i < |feats| => feats[i].0)
  }

  /**
   * The dictionary comprehension over the enumerated list: every name maps
   * to a position holding it, and a later position overwrites an earlier
   * one, so the position kept is the name's last.
   */
  function FeatureDict(names: seq<string>): (dict: map<string, nat>)
    ensures dict.Keys == set x | x in names
    ensures forall x :: x in dict ==> dict[x] < |names| && names[dict[x]] == x
    ensures forall x, j :: x in dict && dict[x] < j < |names| ==> names[j] != x
  {
    if names == [] then map[]
    else
      var n := |names| - 1;
      assert names == names[..n] + [names[n]];
      FeatureDict(names[..n])[names[n] := n]
  }

  /** Distinct names: the index of the `i`-th name is `i`. */
  lemma DistinctNamesIndex(names: seq<string>)
    requires forall i, j :: 0 <= i < j < |names| ==> names[i] != names[j]
    ensures forall i :: 0 <= i < |names| ==> names[i] in FeatureDict(names) && FeatureDict(names)[names[i]] == i
  {
    var dict := FeatureDict(names);
    forall i | 0 <= i < |names|
      ensures names[i] in dict && dict[names[i]] == i
    {
      assert names[i] in dict;
    }
  }

  /** A repeated name is indexed by its last position. */
  lemma RepeatedNameLastWins()
    ensures FeatureDict(["a", "b", "a"]) == map["a" := 2, "b" := 1]
  {
    var dict := FeatureDict(["a", "b", "a"]);
    assert ["a", "b", "a"][2] == "a" && ["a", "b", "a"][1] == "b";
    assert dict.Keys == {"a", "b"};
  }
}
