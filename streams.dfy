/** Record streams between stages. A Go channel becomes the finite sequence
    of rows the producer sent, plus whether the producer closed it normally
    (`closed`) or the task aborted while it was producing (`!closed`). Each
    stage is modelled as a sequential pass over its input. */
module Streams {
  import opened Results
  import opened Values

  datatype Stream = Stream(rows: seq<Row>, closed: bool)

  /** What one stage did with a sequence of input rows: the rows it sent on,
      and whether it hit a fatal error. */
  datatype Progress = Progress(sent: seq<Row>, failed: bool)

  /** A one-in-one-out stage: every input row is handed to `f` in order and
      its result is sent on; the first failing row aborts the stage. The
      contract determines the outcome completely: the sent rows are the
      images of the longest prefix on which `f` succeeds, and the stage
      fails exactly when that prefix stops short of the input. */
  function Apply(f: Row -> Result<Row>, rows: seq<Row>): (p: Progress)
    ensures |p.sent| <= |rows|
    ensures forall i :: 0 <= i < |p.sent| ==> f(rows[i]) == Ok(p.sent[i])
    ensures p.failed <==> |p.sent| < |rows|
    ensures |p.sent| < |rows| ==> f(rows[|p.sent|]).Err?
    decreases |rows|
  {
    if rows == [] then Progress([], false)
    else
      var before := Apply(f, rows[..|rows| - 1]);
      if before.failed then Progress(before.sent, true)
      else match f(rows[|rows| - 1])
        case Err(_) => Progress(before.sent, true)
        case Ok(row) => Progress(before.sent + [row], false)
  }

  /** A stage's output stream: it closes normally exactly when its input was
      closed normally and no row failed. */
  function Pass(f: Row -> Result<Row>, input: Stream): (out: Stream)
    ensures out.rows == Apply(f, input.rows).sent
    ensures out.closed <==> input.closed && |out.rows| == |input.rows|
  {
    var p := Apply(f, input.rows);
    Stream(p.sent, input.closed && !p.failed)
  }

  /** When `f` succeeds on every row, the stage is one-in-one-out and order
      preserving, and passes the input's closure on. */
  lemma PassTotal(f: Row -> Result<Row>, input: Stream)
    requires forall i :: 0 <= i < |input.rows| ==> f(input.rows[i]).Ok?
    ensures |Pass(f, input).rows| == |input.rows|
    ensures forall i :: 0 <= i < |input.rows| ==> Pass(f, input).rows[i] == f(input.rows[i]).value
    ensures Pass(f, input).closed == input.closed
  {
  }

  /** The step a stage's loop takes after processing row `i` successfully. */
  lemma ApplyExtend(f: Row -> Result<Row>, rows: seq<Row>, i: nat, sent: seq<Row>, row: Row)
    requires i < |rows| && Apply(f, rows[..i]) == Progress(sent, false) && f(rows[i]) == Ok(row)
    ensures Apply(f, rows[..i + 1]) == Progress(sent + [row], false)
  {
    assert rows[..i + 1][..i] == rows[..i];
  }

  /** A stage that fails on row `i` has sent exactly the images of the rows
      before it, whatever follows. */
  lemma ApplyStopsAt(f: Row -> Result<Row>, rows: seq<Row>, i: nat, sent: seq<Row>)
    requires i < |rows| && Apply(f, rows[..i]) == Progress(sent, false) && f(rows[i]).Err?
    ensures Apply(f, rows) == Progress(sent, true)
  {
    var p := Apply(f, rows);
    var q := Apply(f, rows[..i]);
    assert forall j :: 0 <= j < i ==> f(rows[j]) == Ok(sent[j]) by {
      forall j | 0 <= j < i ensures f(rows[j]) == Ok(sent[j]) {
        assert rows[..i][j] == rows[j];
      }
    }
    assert |p.sent| == i;
    assert p.sent == sent;
  }

  /** The contract of `Apply` pins its result down: any progress with the
      same four properties is `Apply`'s. */
  lemma ApplyUnique(f: Row -> Result<Row>, rows: seq<Row>, p: Progress)
    requires |p.sent| <= |rows|
    requires forall i :: 0 <= i < |p.sent| ==> f(rows[i]) == Ok(p.sent[i])
    requires p.failed <==> |p.sent| < |rows|
    requires |p.sent| < |rows| ==> f(rows[|p.sent|]).Err?
    ensures p == Apply(f, rows)
  {
    var q := Apply(f, rows);
    assert |p.sent| == |q.sent|;
    assert forall i :: 0 <= i < |p.sent| ==> p.sent[i] == q.sent[i];
  }

  /** Two stages whose functions agree on every row behave alike. */
  lemma PassExt(f: Row -> Result<Row>, g: Row -> Result<Row>, input: Stream)
    requires forall row :: f(row) == g(row)
    ensures Pass(f, input) == Pass(g, input)
  {
    ApplyUnique(f, input.rows, Apply(g, input.rows));
  }

  /** A stage that hands every row on unchanged. */
  function Identity(): Row -> Result<Row>
  {
    row => Ok(row)
  }

  lemma PassIdentity(input: Stream)
    ensures Pass(Identity(), input) == input
  {
    ApplyUnique(Identity(), input.rows, Progress(input.rows, false));
  }

  /** `f` followed by `g` on one row; the first failure wins. */
  function Compose(f: Row -> Result<Row>, g: Row -> Result<Row>): Row -> Result<Row>
  {
    row => match f(row)
      case Err(m) => Err(m)
      case Ok(r) => g(r)
  }

  /** Two stages in a row are one stage running both functions on each
      row: the second sees exactly the rows the first sent, and the
      output closes normally only when neither failed. */
  lemma PassCompose(f: Row -> Result<Row>, g: Row -> Result<Row>, input: Stream)
    ensures Pass(g, Pass(f, input)) == Pass(Compose(f, g), input)
  {
    var a := Apply(f, input.rows);
    var b := Apply(g, a.sent);
    var p := Progress(b.sent, a.failed || b.failed);
    forall i | 0 <= i < |p.sent| ensures Compose(f, g)(input.rows[i]) == Ok(p.sent[i]) {
      assert f(input.rows[i]) == Ok(a.sent[i]);
    }
    if |b.sent| < |a.sent| {
      assert f(input.rows[|b.sent|]) == Ok(a.sent[|b.sent|]);
    }
    ApplyUnique(Compose(f, g), input.rows, p);
  }
}
