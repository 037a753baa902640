/**
 * Assembling the prediction table (src/predict_multiple.py): the
 * unlabelled messages of the chosen weeks, each extended with one cell per
 * code (`1` where the classifiers predict the code, empty otherwise) and the
 * tag `prediction`; then the messages of the training file, each once,
 * extended with the training file's code cells and the tag `training`.
 *
 * The feature extraction and the classifiers are one parameter, `predict`,
 * that maps the kept messages to their prediction matrix.  The integer 1 the
 * script writes into a cell is the CSV text "1".
 */
module PredictMultiple {
  import opened Wrappers
  import opened Messages
  import Preprocess

  // ---------------------------------------------------------------------------
  // Prediction cells

  /** `[1 if x else '' for x in prediction]` as CSV text. */
  function PredictionCells(prediction: seq<bool>): (cells: seq<string>)
    ensures |cells| == |prediction|
    ensures forall k :: 0 <= k < |prediction| ==> (cells[k] == "1" <==> prediction[k]) && (cells[k] == "" <==> !prediction[k])
  {
    seq(|prediction|, k requires 0 <= k < |prediction| => if prediction[k] then "1" else "")
  }

  /** A message with its prediction cells and the provenance tag. */
  function Predicted(msg: Row, prediction: seq<bool>): Row {
    msg + PredictionCells(prediction) + ["prediction"]
  }

  /**
   * The extension loop: message `i` gains the cells of prediction row `i`
   * and the tag; a prediction matrix with fewer rows than messages is an
   * `IndexError`.
   */
  method ExtendWithPredictions(msgs: seq<Row>, predictions: seq<seq<bool>>) returns (r: Result<seq<Row>, ScriptError>)
    ensures r.Failure? <==> |predictions| < |msgs|
    ensures r.Success? ==>
              |r.value| == |msgs| &&
              forall i :: 0 <= i < |msgs| ==> r.value[i] == Predicted(msgs[i], predictions[i])
  {
    var out: seq<Row> := [];
    for i := 0 to |msgs|
      invariant |out| == i && i <= |predictions|
      invariant forall k :: 0 <= k < i ==> out[k] == Predicted(msgs[k], predictions[k])
    {
      if i >= |predictions| {
        return Failure(IndexError);
      }
      out := out + [msgs[i] + PredictionCells(predictions[i]) + ["prediction"]];
    }
    return Success(out);
  }

  /**
   * An extended message starts with the message itself, holds `1` exactly
   * at the predicted codes and the empty cell elsewhere, and ends with the
   * tag `prediction`.
   */
  lemma PredictedLayout(msg: Row, prediction: seq<bool>)
    ensures var m := Predicted(msg, prediction);
            |m| == |msg| + |prediction| + 1 &&
            m[..|msg|] == msg &&
            (forall k :: 0 <= k < |prediction| ==> (m[|msg| + k] == "1" <==> prediction[k])) &&
            m[|m| - 1] == "prediction"
  {
  }

  // ---------------------------------------------------------------------------
  // add_training_messages

  /** Every row has a first cell. */
  predicate Keyed(rows: seq<Row>) {
    forall i :: 0 <= i < |rows| ==> |rows[i]| > 0
  }

  /** The first training row with the given identifier, scanning the training file from the top. */
  function FirstMatch(training: seq<Row>, id: string): (m: Option<Row>)
    requires Keyed(training)
    ensures m.Some? <==> exists j :: 0 <= j < |training| && training[j][0] == id
    ensures m.Some? ==> exists j :: 0 <= j < |training| && training[j] == m.value && training[j][0] == id &&
                                    forall q :: 0 <= q < j ==> training[q][0] != id
  {
    if training == [] then None
    else
      var n := |training| - 1;
      assert forall q :: 0 <= q < n ==> training[..n][q] == training[q];
      match FirstMatch(training[..n], id)
      case Some(t) => Some(t)
      case None => if training[n][0] == id then Some(training[n]) else None
  }

  /** The identifiers of a list of rows. */
  function IdsOf(rows: seq<Row>): (ids: set<string>)
    requires Keyed(rows)
    ensures forall id :: id in ids <==> exists k :: 0 <= k < |rows| && rows[k][0] == id
  {
    set k | 0 <= k < |rows| :: rows[k][0]
  }

  /** Appending a row adds its identifier. */
  lemma IdsOfAppend(rows: seq<Row>, m: Row)
    requires Keyed(rows) && |m| > 0
    ensures Keyed(rows + [m]) && IdsOf(rows + [m]) == IdsOf(rows) + {m[0]}
  {
    var longer := rows + [m];
    forall id | id in IdsOf(longer) ensures id in IdsOf(rows) + {m[0]} {
      var k :| 0 <= k < |longer| && longer[k][0] == id;
      if k < |rows| {
        assert longer[k] == rows[k];
      }
    }
    forall id | id in IdsOf(rows) ensures id in IdsOf(longer) {
      var k :| 0 <= k < |rows| && rows[k][0] == id;
      assert longer[k] == rows[k];
    }
    assert longer[|rows|] == m;
  }

  /** A training message: the row, the training row's code cells, and the tag. */
  function Trained(row: Row, trow: Row, codeColumns: seq<nat>): Row
    requires forall p :: 0 <= p < |codeColumns| ==> codeColumns[p] < |trow|
  {
    row + Preprocess.Pick(trow, codeColumns) + ["training"]
  }

  /** Every code column lies inside the training row. */
  predicate Covers(trow: Row, codeColumns: seq<nat>) {
    forall p :: 0 <= p < |codeColumns| ==> codeColumns[p] < |trow|
  }

  /**
   * The training messages of `rows` (the data rows after the heading), in
   * file order: a row whose identifier is a training identifier not yet
   * taken, and that some training row carries, is extended with the code
   * cells of the first such training row; a code column beyond that
   * training row is an `IndexError`.
   */
  function TrainingMessages(rows: seq<Row>, training: seq<Row>, mids: seq<string>, codeColumns: seq<nat>): (r: Result<seq<Row>, ScriptError>)
    requires Keyed(rows) && Keyed(training)
    ensures r.Failure? ==> r.error == IndexError
    ensures r.Success? ==> Keyed(r.value) && |r.value| <= |rows|
    ensures r.Success? ==> forall k, l :: 0 <= k < l < |r.value| ==> r.value[k][0] != r.value[l][0]
    ensures r.Success? ==> forall k :: 0 <= k < |r.value| ==> r.value[k][0] in mids
    ensures r.Success? ==> forall k :: 0 <= k < |r.value| ==> r.value[k][|r.value[k]| - 1] == "training"
  {
    if rows == [] then Success([])
    else
      var n := |rows| - 1;
      assert Keyed(rows[..n]);
      match TrainingMessages(rows[..n], training, mids, codeColumns)
      case Failure(e) => Failure(e)
      case Success(acc) =>
        var row := rows[n];
        if row[0] !in mids || row[0] in IdsOf(acc) then Success(acc)
        else
          match FirstMatch(training, row[0])
          case None => Success(acc)
          case Some(trow) =>
            if Covers(trow, codeColumns) then
              var m := Trained(row, trow, codeColumns);
              assert m[0] == row[0];
              Success(acc + [m])
            else Failure(IndexError)
  }

  /**
   * The inner loop for one data row: over the training rows, the first one
   * with the row's identifier extends the row (unless the identifier was
   * already taken) and every later one is skipped.
   */
  method MatchTraining(row: Row, training: seq<Row>, codeColumns: seq<nat>, seen: set<string>, acc: seq<Row>)
    returns (r: Result<(set<string>, seq<Row>), ScriptError>)
    requires |row| > 0 && Keyed(training)
    ensures var m := FirstMatch(training, row[0]);
            if row[0] in seen || m.None? then r == Success((seen, acc))
            else if Covers(m.value, codeColumns) then r == Success((seen + {row[0]}, acc + [Trained(row, m.value, codeColumns)]))
            else r == Failure(IndexError)
  {
    var s := seen;
    var out := acc;
    for t := 0 to |training|
      invariant Keyed(training[..t])
      invariant var m := FirstMatch(training[..t], row[0]);
                if row[0] in seen || m.None? then s == seen && out == acc
                else Covers(m.value, codeColumns) && s == seen + {row[0]} && out == acc + [Trained(row, m.value, codeColumns)]
    {
      var trow := training[t];
      assert training[..t + 1][..t] == training[..t];
      if row[0] == trow[0] {
        if row[0] in s {
          continue;
        }
        if exists p :: 0 <= p < |codeColumns| && codeColumns[p] >= |trow| {
          return Failure(IndexError);
        }
        s := s + {row[0]};
        out := out + [row + Preprocess.Pick(trow, codeColumns) + ["training"]];
      }
    }
    assert training[..|training|] == training;
    return Success((s, out));
  }

  /**
   * `add_training_messages`: every data row after the heading whose
   * identifier is in `mids` goes through the inner loop; `seen` starts empty.
   */
  method AddTrainingMessages(reader: seq<Row>, training: seq<Row>, mids: seq<string>, codeColumns: seq<nat>)
    returns (r: Result<seq<Row>, ScriptError>)
    requires Keyed(reader) && Keyed(training)
    ensures r == TrainingMessages(if reader == [] then [] else reader[1..], training, mids, codeColumns)
  {
    var rows := if reader == [] then [] else reader[1..];
    var seen: set<string> := {};
    var out: seq<Row> := [];
    for i := 0 to |rows|
      invariant Keyed(rows[..i])
      invariant TrainingMessages(rows[..i], training, mids, codeColumns) == Success(out)
      invariant seen == IdsOf(out)
    {
      var row := rows[i];
      assert rows[..i + 1][..i] == rows[..i];
      if row[0] in mids {
        var step := MatchTraining(row, training, codeColumns, seen, out);
        if step.Failure? {
          FailingRow(rows, training, mids, codeColumns, i);
          return Failure(IndexError);
        }
        var (s', out') := step.value;
        if out' != out {
          IdsOfAppend(out, Trained(row, FirstMatch(training, row[0]).value, codeColumns));
        }
        seen, out := s', out';
      }
    }
    assert rows[..|rows|] == rows;
    return Success(out);
  }

  /**
   * A data row whose identifier is a training identifier not yet taken,
   * and whose first training row misses a code column, makes the whole
   * data fail.
   */
  lemma FailingRow(rows: seq<Row>, training: seq<Row>, mids: seq<string>, codeColumns: seq<nat>, i: nat)
    requires Keyed(rows) && Keyed(training) && i < |rows|
    requires Keyed(rows[..i]) && TrainingMessages(rows[..i], training, mids, codeColumns).Success?
    requires var acc := TrainingMessages(rows[..i], training, mids, codeColumns).value;
             var m := FirstMatch(training, rows[i][0]);
             rows[i][0] in mids && rows[i][0] !in IdsOf(acc) && m.Some? && !Covers(m.value, codeColumns)
    ensures TrainingMessages(rows, training, mids, codeColumns) == Failure(IndexError)
  {
    var upTo := rows[..i + 1];
    assert Keyed(upTo) && upTo[..i] == rows[..i] && upTo[i] == rows[i];
    assert TrainingMessages(upTo, training, mids, codeColumns).Failure?;
    FailureStays(rows, training, mids, codeColumns, i + 1);
  }

  /** Once a prefix of the data fails, so does the whole. */
  lemma {:induction false} FailureStays(rows: seq<Row>, training: seq<Row>, mids: seq<string>, codeColumns: seq<nat>, k: nat)
    requires Keyed(rows) && Keyed(training) && k <= |rows|
    requires Keyed(rows[..k]) && TrainingMessages(rows[..k], training, mids, codeColumns).Failure?
    ensures TrainingMessages(rows, training, mids, codeColumns).Failure?
    decreases |rows| - k
  {
    if k < |rows| {
      assert rows[..k + 1][..k] == rows[..k];
      FailureStays(rows, training, mids, codeColumns, k + 1);
    } else {
      assert rows[..k] == rows;
    }
  }

  /** Some row of `rows` has the identifier `id`. */
  predicate SomeRowWithId(rows: seq<Row>, id: string)
    requires Keyed(rows)
  {
    exists i :: 0 <= i < |rows| && rows[i][0] == id
  }

  /** A row has the identifier exactly when a row before the last one or the last one has it. */
  lemma SomeRowWithIdSplit(rows: seq<Row>, id: string)
    requires Keyed(rows) && rows != []
    ensures Keyed(rows[..|rows| - 1])
    ensures SomeRowWithId(rows, id) <==> SomeRowWithId(rows[..|rows| - 1], id) || rows[|rows| - 1][0] == id
  {
    var n := |rows| - 1;
    var front := rows[..n];
    if SomeRowWithId(rows, id) {
      var i :| 0 <= i < |rows| && rows[i][0] == id;
      if i < n {
        assert front[i] == rows[i];
      }
    }
    if SomeRowWithId(front, id) {
      var i :| 0 <= i < |front| && front[i][0] == id;
      assert rows[i] == front[i];
    }
  }

  /**
   * An identifier has a training message exactly when it is a training
   * identifier, the training file carries it, and some data row has it.
   */
  lemma {:induction false} TrainingMessageIds(rows: seq<Row>, training: seq<Row>, mids: seq<string>, codeColumns: seq<nat>, id: string)
    requires Keyed(rows) && Keyed(training)
    requires TrainingMessages(rows, training, mids, codeColumns).Success?
    ensures id in IdsOf(TrainingMessages(rows, training, mids, codeColumns).value) <==>
              id in mids && FirstMatch(training, id).Some? && SomeRowWithId(rows, id)
  {
    if rows != [] {
      var n := |rows| - 1;
      var front := rows[..n];
      SomeRowWithIdSplit(rows, id);
      var acc := TrainingMessages(front, training, mids, codeColumns).value;
      var out := TrainingMessages(rows, training, mids, codeColumns).value;
      TrainingMessageIds(front, training, mids, codeColumns, id);
      if out != acc {
        var m := Trained(rows[n], FirstMatch(training, rows[n][0]).value, codeColumns);
        assert out == acc + [m];
        IdsOfAppend(acc, m);
      }
    }
  }

  /** `rows[i]` is the first data row with its identifier. */
  predicate FirstOfId(rows: seq<Row>, i: nat)
    requires Keyed(rows) && i < |rows|
  {
    forall q :: 0 <= q < i ==> rows[q][0] != rows[i][0]
  }

  /**
   * When the last data row adds a training message, it is the first data row
   * with its identifier and the message is built from it.
   */
  lemma NewTrainingMessage(rows: seq<Row>, training: seq<Row>, mids: seq<string>, codeColumns: seq<nat>)
    requires Keyed(rows) && Keyed(training) && rows != []
    requires TrainingMessages(rows, training, mids, codeColumns).Success?
    requires Keyed(rows[..|rows| - 1])
    requires TrainingMessages(rows, training, mids, codeColumns).value !=
             TrainingMessages(rows[..|rows| - 1], training, mids, codeColumns).value
    ensures var n := |rows| - 1;
            var out := TrainingMessages(rows, training, mids, codeColumns).value;
            var acc := TrainingMessages(rows[..n], training, mids, codeColumns).value;
            FirstOfId(rows, n) && FirstMatch(training, rows[n][0]).Some? &&
            Covers(FirstMatch(training, rows[n][0]).value, codeColumns) &&
            out == acc + [Trained(rows[n], FirstMatch(training, rows[n][0]).value, codeColumns)]
  {
    var n := |rows| - 1;
    var front := rows[..n];
    var id := rows[n][0];
    var acc := TrainingMessages(front, training, mids, codeColumns).value;
    assert id in mids && id !in IdsOf(acc) && FirstMatch(training, id).Some?;
    TrainingMessageIds(front, training, mids, codeColumns, id);
    forall q | 0 <= q < n ensures rows[q][0] != id {
      assert front[q] == rows[q];
    }
  }

  /**
   * Every training message is the first data row with its identifier,
   * extended with the code cells of the first training row with that
   * identifier and the tag.
   */
  lemma {:induction false} TrainingMessageRow(rows: seq<Row>, training: seq<Row>, mids: seq<string>, codeColumns: seq<nat>, k: nat)
    requires Keyed(rows) && Keyed(training)
    requires TrainingMessages(rows, training, mids, codeColumns).Success?
    requires k < |TrainingMessages(rows, training, mids, codeColumns).value|
    ensures exists i :: 0 <= i < |rows| && FirstOfId(rows, i) &&
                        FirstMatch(training, rows[i][0]).Some? &&
                        Covers(FirstMatch(training, rows[i][0]).value, codeColumns) &&
                        TrainingMessages(rows, training, mids, codeColumns).value[k] ==
                          Trained(rows[i], FirstMatch(training, rows[i][0]).value, codeColumns)
  {
    var n := |rows| - 1;
    var front := rows[..n];
    assert Keyed(front);
    var acc := TrainingMessages(front, training, mids, codeColumns).value;
    var out := TrainingMessages(rows, training, mids, codeColumns).value;
    if k < |acc| {
      TrainingMessageRow(front, training, mids, codeColumns, k);
      var i :| 0 <= i < |front| && FirstOfId(front, i) &&
               FirstMatch(training, front[i][0]).Some? &&
               Covers(FirstMatch(training, front[i][0]).value, codeColumns) &&
               acc[k] == Trained(front[i], FirstMatch(training, front[i][0]).value, codeColumns);
      assert out[k] == acc[k] && front[i] == rows[i];
      assert FirstOfId(rows, i) by {
        assert forall q :: 0 <= q < i ==> front[q] == rows[q];
      }
    } else {
      NewTrainingMessage(rows, training, mids, codeColumns);
      assert out[k] == Trained(rows[n], FirstMatch(training, rows[n][0]).value, codeColumns);
    }
  }

  // ---------------------------------------------------------------------------
  // The whole script

  /** A wide enough data file has keyed data rows after its heading. */
  lemma WideRowsKeyed(reader: seq<Row>)
    requires reader != [] && Wide(reader)
    ensures Keyed(reader[1..])
  {
    assert forall i :: 0 <= i < |reader| - 1 ==> reader[1..][i] == reader[i + 1];
  }

  /** Every kept message has the text cell `x[5]` that the featuriser reads. */
  predicate TextPresent(msgs: seq<Row>) {
    forall i :: 0 <= i < |msgs| ==> |msgs[i]| > 5
  }

  /**
   * The rows the script writes, or the `IndexError` it stops with: the
   * heading extended with the code names and `source`, then the kept
   * messages with their predictions, then the training messages.
   */
  function PredictionTable(reader: seq<Row>, training: seq<Row>, weeks: string, codeColumns: seq<nat>,
                           codeNames: seq<string>, predict: seq<Row> -> seq<seq<bool>>): (r: Result<seq<Row>, ScriptError>)
    ensures r.Success? ==> reader != [] && |r.value| >= 1 && r.value[0] == reader[0] + codeNames + ["source"]
  {
    match FirstColumn(training)
    case Failure(e) => Failure(e)
    case Success(mids) =>
      if reader == [] || !Wide(reader) then Failure(IndexError)
      else
        var msgs := Unlabelled(reader, weeks, mids);
        if !TextPresent(msgs) then Failure(IndexError)
        else
          var predictions := predict(msgs);
          if |predictions| < |msgs| then Failure(IndexError)
          else
            WideRowsKeyed(reader);
            match TrainingMessages(reader[1..], training, mids, codeColumns)
            case Failure(e) => Failure(e)
            case Success(trainingMessages) =>
              var predicted := seq(|msgs|, i requires 0 <= i < |msgs| => Predicted(msgs[i], predictions[i]));
              Success([reader[0] + codeNames + ["source"]] + predicted + trainingMessages)
  }

  /**
   * The script: the training identifiers, the heading, the message filter,
   * the predictions, the extensions, the training messages, and the rows
   * written in that order.
   */
  method PredictMultipleRows(reader: seq<Row>, training: seq<Row>, weeks: string, codeColumns: seq<nat>,
                             codeNames: seq<string>, predict: seq<Row> -> seq<seq<bool>>)
    returns (r: Result<seq<Row>, ScriptError>)
    ensures r == PredictionTable(reader, training, weeks, codeColumns, codeNames, predict)
  {
    var ids := FirstColumn(training);
    if ids.Failure? {
      return Failure(ids.error);
    }
    var mids := ids.value;
    if reader == [] {
      return Failure(IndexError);
    }
    var headings := reader[0];
    var kept := FilterMessages(reader, weeks, mids);
    if kept.Failure? {
      return Failure(IndexError);
    }
    var msgs := kept.value;
    if !TextPresent(msgs) {
      return Failure(IndexError);
    }
    var predictions := predict(msgs);
    headings := headings + codeNames + ["source"];
    var extended := ExtendWithPredictions(msgs, predictions);
    if extended.Failure? {
      return Failure(IndexError);
    }
    WideRowsKeyed(reader);
    var trainingMessages := AddTrainingMessages(reader, training, mids, codeColumns);
    if trainingMessages.Failure? {
      return Failure(trainingMessages.error);
    }
    assert extended.value == seq(|msgs|, i requires 0 <= i < |msgs| => Predicted(msgs[i], predictions[i]));
    return Success([headings] + extended.value + trainingMessages.value);
  }

  /**
   * The written table is the heading, then one row per kept message, tagged
   * `prediction` and never carrying a training identifier, then one row per
   * training message, tagged `training` and carrying a training identifier;
   * so no identifier is both predicted and taken from the training file.
   */
  lemma ProvenanceDisjoint(reader: seq<Row>, training: seq<Row>, weeks: string, codeColumns: seq<nat>,
                           codeNames: seq<string>, predict: seq<Row> -> seq<seq<bool>>)
    requires PredictionTable(reader, training, weeks, codeColumns, codeNames, predict).Success?
    ensures var out := PredictionTable(reader, training, weeks, codeColumns, codeNames, predict).value;
            var mids := FirstColumn(training).value;
            var msgs := Unlabelled(reader, weeks, mids);
            |out| > |msgs| &&
            (forall j :: 1 <= j <= |msgs| ==>
               |out[j]| > 0 && out[j][0] !in mids && out[j][|out[j]| - 1] == "prediction") &&
            (forall j :: |msgs| < j < |out| ==>
               |out[j]| > 0 && out[j][0] in mids && out[j][|out[j]| - 1] == "training") &&
            (forall j, l :: 1 <= j <= |msgs| < l < |out| ==> out[j][0] != out[l][0])
  {
    var mids := FirstColumn(training).value;
    var msgs := Unlabelled(reader, weeks, mids);
    var predictions := predict(msgs);
    WideRowsKeyed(reader);
    var trainingMessages := TrainingMessages(reader[1..], training, mids, codeColumns).value;
    var out := PredictionTable(reader, training, weeks, codeColumns, codeNames, predict).value;
    assert out == [reader[0] + codeNames + ["source"]] +
                  seq(|msgs|, i requires 0 <= i < |msgs| => Predicted(msgs[i], predictions[i])) + trainingMessages;
    assert forall k :: 0 <= k < |msgs| ==> |msgs[k]| > 0 && msgs[k][0] !in mids;
    TableProvenance(reader[0] + codeNames + ["source"], msgs, predictions, trainingMessages, mids);
  }

  /**
   * A table of a heading, the extended messages and the training messages
   * has its predicted rows first and its training rows after them, told
   * apart by their tags and by whether their identifiers are training
   * identifiers.
   */
  lemma TableProvenance(heading: Row, msgs: seq<Row>, predictions: seq<seq<bool>>, trainingMessages: seq<Row>, mids: seq<string>)
    requires |predictions| >= |msgs|
    requires forall k :: 0 <= k < |msgs| ==> |msgs[k]| > 0 && msgs[k][0] !in mids
    requires forall k :: 0 <= k < |trainingMessages| ==>
               |trainingMessages[k]| > 0 && trainingMessages[k][0] in mids &&
               trainingMessages[k][|trainingMessages[k]| - 1] == "training"
    ensures var out := [heading] + seq(|msgs|, i requires 0 <= i < |msgs| => Predicted(msgs[i], predictions[i])) + trainingMessages;
            |out| > |msgs| &&
            (forall j :: 1 <= j <= |msgs| ==>
               |out[j]| > 0 && out[j][0] !in mids && out[j][|out[j]| - 1] == "prediction") &&
            (forall j :: |msgs| < j < |out| ==>
               |out[j]| > 0 && out[j][0] in mids && out[j][|out[j]| - 1] == "training") &&
            (forall j, l :: 1 <= j <= |msgs| < l < |out| ==> out[j][0] != out[l][0])
  {
    var predicted := seq(|msgs|, i requires 0 <= i < |msgs| => Predicted(msgs[i], predictions[i]));
    var out := [heading] + predicted + trainingMessages;
    forall j | 1 <= j <= |msgs|
      ensures |out[j]| > 0 && out[j][0] !in mids && out[j][|out[j]| - 1] == "prediction"
    {
      assert out[j] == predicted[j - 1];
    }
    forall j | |msgs| < j < |out|
      ensures |out[j]| > 0 && out[j][0] in mids && out[j][|out[j]| - 1] == "training"
    {
      assert out[j] == trainingMessages[j - 1 - |msgs|];
    }
  }

  // ---------------------------------------------------------------------------
  // The per-code totals, as written

  /** A Python value in a written row: a CSV text cell, or the integer 1 of a predicted code. */
  datatype PyValue = Str(s: string) | Int(n: int)

  /** A row read from a CSV file: every cell is text. */
  function TextCells(row: Row): (r: seq<PyValue>)
    ensures |r| == |row| && forall k :: 0 <= k < |row| ==> r[k] == Str(row[k])
  {
    seq(|row|, k requires 0 <= k < |row| => Str(row[k]))
  }

  /** A message after its extension: its text cells, the integer 1 or the empty text per code, and the tag. */
  function PredictedValues(msg: Row, prediction: seq<bool>): (r: seq<PyValue>)
    ensures |r| == |msg| + |prediction| + 1
    ensures forall k :: 0 <= k < |msg| ==> r[k] == Str(msg[k])
    ensures forall k :: 0 <= k < |prediction| ==> r[|msg| + k] == if prediction[k] then Int(1) else Str("")
  {
    TextCells(msg) + seq(|prediction|, k requires 0 <= k < |prediction| => if prediction[k] then Int(1) else Str(""))
      + [Str("prediction")]
  }

  /**
   * `sum(message[column] for message in messages)`: starting from 0, each
   * message's cell is added; a row too short is an `IndexError` and a text
   * cell a `TypeError`, whichever the first offending message gives.
   */
  function ColumnSum(messages: seq<seq<PyValue>>, column: nat): (r: Result<int, ScriptError>)
    ensures r.Success? <==> forall j :: 0 <= j < |messages| ==> column < |messages[j]| && messages[j][column].Int?
    ensures messages != [] && column < |messages[0]| && messages[0][column].Str? ==> r == Failure(TypeError)
  {
    if messages == [] then Success(0)
    else if column >= |messages[0]| then Failure(IndexError)
    else if messages[0][column].Str? then Failure(TypeError)
    else
      assert forall j :: 1 <= j < |messages| ==> messages[j] == messages[1..][j - 1];
      match ColumnSum(messages[1..], column)
      case Failure(e) => Failure(e)
      case Success(t) => Success(messages[0][column].n + t)
  }

  /**
   * The totals loop: for the `i`-th code column, `code_names[i]` (an
   * `IndexError` past the end of the names) and the column's sum.
   */
  function Totals(messages: seq<seq<PyValue>>, codeColumns: seq<nat>, codeNames: seq<string>): (r: Result<seq<int>, ScriptError>)
    ensures r.Success? ==> |r.value| == |codeColumns| <= |codeNames|
    ensures codeColumns != [] && codeNames != [] && ColumnSum(messages, codeColumns[0]).Failure? ==>
              r == Failure(ColumnSum(messages, codeColumns[0]).error)
  {
    if codeColumns == [] then Success([])
    else if codeNames == [] then Failure(IndexError)
    else
      match ColumnSum(messages, codeColumns[0])
      case Failure(e) => Failure(e)
      case Success(t) =>
        match Totals(messages, codeColumns[1..], codeNames[1..])
        case Failure(e) => Failure(e)
        case Success(rest) => Success([t] + rest)
  }

  /** The messages the totals loop reads: the extended kept messages, then the training messages. */
  function AllMessages(msgs: seq<Row>, predictions: seq<seq<bool>>, trainingMessages: seq<Row>): (all: seq<seq<PyValue>>)
    requires |predictions| >= |msgs|
    ensures |all| == |msgs| + |trainingMessages|
    ensures forall i :: 0 <= i < |msgs| ==> all[i] == PredictedValues(msgs[i], predictions[i])
    ensures forall i :: 0 <= i < |trainingMessages| ==> all[|msgs| + i] == TextCells(trainingMessages[i])
  {
    seq(|msgs|, i requires 0 <= i < |msgs| => PredictedValues(msgs[i], predictions[i]))
      + seq(|trainingMessages|, i requires 0 <= i < |trainingMessages| => TextCells(trainingMessages[i]))
  }

  /**
   * The script as written: the table of `PredictionTable` is written only
   * after the totals loop, which stops the script when it fails.
   */
  function PredictionTableAsWritten(reader: seq<Row>, training: seq<Row>, weeks: string, codeColumns: seq<nat>,
                                    codeNames: seq<string>, predict: seq<Row> -> seq<seq<bool>>): (r: Result<seq<Row>, ScriptError>)
    ensures r.Success? ==> r == PredictionTable(reader, training, weeks, codeColumns, codeNames, predict)
  {
    match FirstColumn(training)
    case Failure(e) => Failure(e)
    case Success(mids) =>
      if reader == [] || !Wide(reader) then Failure(IndexError)
      else
        var msgs := Unlabelled(reader, weeks, mids);
        if !TextPresent(msgs) then Failure(IndexError)
        else
          var predictions := predict(msgs);
          if |predictions| < |msgs| then Failure(IndexError)
          else
            WideRowsKeyed(reader);
            match TrainingMessages(reader[1..], training, mids, codeColumns)
            case Failure(e) => Failure(e)
            case Success(trainingMessages) =>
              match Totals(AllMessages(msgs, predictions, trainingMessages), codeColumns, codeNames)
              case Failure(e) => Failure(e)
              case Success(_) => PredictionTable(reader, training, weeks, codeColumns, codeNames, predict)
  }

  /**
   * Whenever the table would hold a message, and the first code column lies
   * within the five cells every message has (as `range(3, 17)` does), the
   * first sum adds a CSV text cell to 0 and the script stops with a
   * `TypeError` before writing anything.
   */
  lemma TotalsStopTheScript(reader: seq<Row>, training: seq<Row>, weeks: string, codeColumns: seq<nat>,
                            codeNames: seq<string>, predict: seq<Row> -> seq<seq<bool>>)
    requires PredictionTable(reader, training, weeks, codeColumns, codeNames, predict).Success?
    requires |PredictionTable(reader, training, weeks, codeColumns, codeNames, predict).value| > 1
    requires codeColumns != [] && codeColumns[0] < 5 && codeNames != []
    ensures PredictionTableAsWritten(reader, training, weeks, codeColumns, codeNames, predict) == Failure(TypeError)
  {
    var mids := FirstColumn(training).value;
    var msgs := Unlabelled(reader, weeks, mids);
    var predictions := predict(msgs);
    WideRowsKeyed(reader);
    var rows := reader[1..];
    var trainingMessages := TrainingMessages(rows, training, mids, codeColumns).value;
    var all := AllMessages(msgs, predictions, trainingMessages);
    var column := codeColumns[0];
    if msgs != [] {
      assert all[0] == PredictedValues(msgs[0], predictions[0]);
    } else {
      WideTrainingMessage(rows, training, mids, codeColumns);
      assert all[0] == TextCells(trainingMessages[0]);
    }
    assert ColumnSum(all, column) == Failure(TypeError);
  }

  /** A training message is at least as wide as the data rows: every one has five cells. */
  lemma WideTrainingMessage(rows: seq<Row>, training: seq<Row>, mids: seq<string>, codeColumns: seq<nat>)
    requires Keyed(rows) && Keyed(training) && forall j :: 0 <= j < |rows| ==> |rows[j]| > 4
    requires TrainingMessages(rows, training, mids, codeColumns).Success?
    requires TrainingMessages(rows, training, mids, codeColumns).value != []
    ensures |TrainingMessages(rows, training, mids, codeColumns).value[0]| > 4
  {
    TrainingMessageRow(rows, training, mids, codeColumns, 0);
  }
}
