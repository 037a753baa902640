/**
 * Choosing the next messages to annotate (src/select_multiple.py): the
 * unlabelled messages of the chosen weeks, of which the rows listed by the
 * ranking are written after the heading, in the ranking's order.
 *
 * The feature extraction, the classifiers, the uncertainty scores and
 * `top_N` are one parameter, `rank`, that maps the kept messages to the list
 * of positions to write.  Positions are Python list indices: a negative
 * position counts from the end.
 */
module SelectMultiple {
  import opened Wrappers
  import opened Messages
  import opened PyLists

  /** `[msgs[i] for i in top]`: the listed messages in the listed order, or `IndexError` if a position is out of range. */
  function Project(msgs: seq<Row>, top: seq<int>): (r: Result<seq<Row>, ScriptError>)
    ensures r.Failure? <==> exists k :: 0 <= k < |top| && PyIndex(msgs, top[k]).None?
    ensures r.Success? ==>
              |r.value| == |top| &&
              forall k :: 0 <= k < |top| ==> PyIndex(msgs, top[k]) == Some(r.value[k])
  {
    if top == [] then Success([])
    else
      match PyIndex(msgs, top[0])
      case None => Failure(IndexError)
      case Some(m) =>
        match Project(msgs, top[1..])
        case Failure(e) =>
          assert exists k :: 1 <= k < |top| && PyIndex(msgs, top[k]).None? by {
            var k :| 0 <= k < |top[1..]| && PyIndex(msgs, top[1..][k]).None?;
            assert top[k + 1] == top[1..][k];
          }
          Failure(e)
        case Success(rest) =>
          assert forall k :: 1 <= k < |top| ==> top[k] == top[1..][k - 1];
          Success([m] + rest)
  }

  /** Every written row is one of the messages. */
  lemma {:induction false} ProjectedAreMessages(msgs: seq<Row>, top: seq<int>)
    requires Project(msgs, top).Success?
    ensures forall k :: 0 <= k < |top| ==> Project(msgs, top).value[k] in msgs
  {
    var out := Project(msgs, top).value;
    forall k | 0 <= k < |top| ensures out[k] in msgs {
      assert PyIndex(msgs, top[k]) == Some(out[k]);
    }
  }

  /**
   * The rows the script writes, or the `IndexError` it stops with: the
   * heading, then the ranked messages.
   */
  function SelectionTable(reader: seq<Row>, training: seq<Row>, weeks: string, rank: seq<Row> -> seq<int>)
    : (r: Result<seq<Row>, ScriptError>)
    ensures r.Success? ==> reader != [] && |r.value| >= 1 && r.value[0] == reader[0]
  {
    if reader == [] then Failure(IndexError)
    else
      match FirstColumn(training)
      case Failure(e) => Failure(e)
      case Success(mids) =>
        if !Wide(reader) then Failure(IndexError)
        else
          var msgs := Unlabelled(reader, weeks, mids);
          match Project(msgs, rank(msgs))
          case Failure(e) => Failure(e)
          case Success(chosen) => Success([reader[0]] + chosen)
  }

  /** The script: heading, training identifiers, message filter, ranking, and the rows written. */
  method SelectMultipleRows(reader: seq<Row>, training: seq<Row>, weeks: string, rank: seq<Row> -> seq<int>)
    returns (r: Result<seq<Row>, ScriptError>)
    ensures r == SelectionTable(reader, training, weeks, rank)
  {
    if reader == [] {
      return Failure(IndexError);
    }
    var headings := reader[0];
    var ids := FirstColumn(training);
    if ids.Failure? {
      return Failure(ids.error);
    }
    var kept := FilterMessages(reader, weeks, ids.value);
    if kept.Failure? {
      return Failure(IndexError);
    }
    var msgs := kept.value;
    var chosen := Project(msgs, rank(msgs));
    if chosen.Failure? {
      return Failure(chosen.error);
    }
    return Success([headings] + chosen.value);
  }

  /**
   * The written table has one data row per ranked position, each a kept
   * message of the chosen weeks, and none carries a training identifier.
   */
  lemma SelectionRows(reader: seq<Row>, training: seq<Row>, weeks: string, rank: seq<Row> -> seq<int>)
    requires SelectionTable(reader, training, weeks, rank).Success?
    ensures var out := SelectionTable(reader, training, weeks, rank).value;
            var mids := FirstColumn(training).value;
            var msgs := Unlabelled(reader, weeks, mids);
            |out| == |rank(msgs)| + 1 &&
            forall j :: 1 <= j < |out| ==>
              out[j] in reader && |out[j]| > 4 && Contains(weeks, out[j][4]) && out[j][0] !in mids
  {
    var mids := FirstColumn(training).value;
    var msgs := Unlabelled(reader, weeks, mids);
    var out := SelectionTable(reader, training, weeks, rank).value;
    var chosen := Project(msgs, rank(msgs)).value;
    ProjectedAreMessages(msgs, rank(msgs));
    forall j | 1 <= j < |out|
      ensures out[j] in reader && |out[j]| > 4 && Contains(weeks, out[j][4]) && out[j][0] !in mids
    {
      assert out[j] == chosen[j - 1];
      var k :| 0 <= k < |msgs| && msgs[k] == out[j];
    }
  }
}
