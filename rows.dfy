/** The loop that five of the adapters share:

      for _, field := range adp.fields {
        raw, ok := row[field]
        if <skip raw, ok> { continue }
        row[field] = <update raw>    // or abort the task
      }

    `UpdateFields` is that loop as a function of the field list and the row;
    the adapters differ only in which values they skip and in the update. */
module Rows {
  import opened Results
  import opened Values

  /** Which present values the loop leaves alone (an absent field is always
      skipped). */
  datatype SkipPolicy =
    | SkipNone       // `if !ok { continue }`
    | SkipNull       // `if raw == nil || !ok { continue }`
    | SkipNonString  // `raw, ok := row[field].(string); if !ok { continue }`

  predicate Skips(p: SkipPolicy, v: Value)
  {
    match p
    case SkipNone => false
    case SkipNull => v == Null
    case SkipNonString => !v.Str?
  }

  /** What one visit of a present field does to its value: `None` aborts. */
  function Step(update: Value -> Option<Value>, p: SkipPolicy, v: Value): Option<Value>
  {
    if Skips(p, v) then Some(v) else update(v)
  }

  /** The field loop over `fields`, in order, on one row. */
  function UpdateFields(update: Value -> Option<Value>, p: SkipPolicy, fields: seq<string>, row: Row): (r: Result<Row>)
    ensures r.Ok? ==> r.value.Keys == row.Keys
    ensures r.Ok? ==> forall k :: k in row && k !in fields ==> r.value[k] == row[k]
    decreases |fields|
  {
    if fields == [] then Ok(row)
    else
      var field := fields[0];
      if field !in row || Skips(p, row[field]) then UpdateFields(update, p, fields[1..], row)
      else match update(row[field])
        case None => Err("cannot convert field " + field)
        case Some(w) => UpdateFields(update, p, fields[1..], row[field := w])
  }

  /** How many times `k` is listed. */
  function Count(fields: seq<string>, k: string): nat
    decreases |fields|
  {
    if fields == [] then 0 else (if fields[0] == k then 1 else 0) + Count(fields[1..], k)
  }

  lemma {:induction false} CountPositive(fields: seq<string>, k: string)
    ensures Count(fields, k) > 0 <==> k in fields
    decreases |fields|
  {
    if fields != [] {
      CountPositive(fields[1..], k);
      assert fields == [fields[0]] + fields[1..];
    }
  }

  /** `n` successive visits of one field starting from value `v`. */
  function Iterate(update: Value -> Option<Value>, p: SkipPolicy, n: nat, v: Value): Option<Value>
    decreases n
  {
    if n == 0 then Some(v)
    else match Step(update, p, v)
      case None => None
      case Some(w) => Iterate(update, p, n - 1, w)
  }

  /** Independent description of the loop: every field evolves on its own,
      visited once per listing. The row passes exactly when no field's
      visits abort, and then each field holds the value its own visits
      produce. */
  lemma {:induction false} UpdateFieldsPerKey(update: Value -> Option<Value>, p: SkipPolicy, fields: seq<string>, row: Row)
    ensures UpdateFields(update, p, fields, row).Ok? <==>
            forall k :: k in row ==> Iterate(update, p, Count(fields, k), row[k]).Some?
    ensures UpdateFields(update, p, fields, row).Ok? ==>
            forall k :: k in row ==> Iterate(update, p, Count(fields, k), row[k]) == Some(UpdateFields(update, p, fields, row).value[k])
    decreases |fields|
  {
    if fields == [] {
      return;
    }
    var field, rest := fields[0], fields[1..];
    if field !in row || Skips(p, row[field]) {
      UpdateFieldsPerKey(update, p, rest, row);
      PerKeySkip(update, p, fields, row);
    } else if update(row[field]).None? {
      assert Iterate(update, p, Count(fields, field), row[field]).None?;
    } else {
      var row' := row[field := update(row[field]).value];
      UpdateFieldsPerKey(update, p, rest, row');
      PerKeyVisit(update, p, fields, row);
    }
  }

  /** A skipped head field: every key evolves as under the remaining fields. */
  lemma PerKeySkip(update: Value -> Option<Value>, p: SkipPolicy, fields: seq<string>, row: Row)
    requires fields != [] && (fields[0] !in row || Skips(p, row[fields[0]]))
    ensures forall k :: k in row ==>
              Iterate(update, p, Count(fields, k), row[k]) == Iterate(update, p, Count(fields[1..], k), row[k])
  {
    forall k | k in row
      ensures Iterate(update, p, Count(fields, k), row[k]) == Iterate(update, p, Count(fields[1..], k), row[k])
    {
      if k == fields[0] {
        assert Count(fields, k) == 1 + Count(fields[1..], k);
      } else {
        assert Count(fields, k) == Count(fields[1..], k);
      }
    }
  }

  /** A visited head field: it evolves from its updated value, every other
      key from its unchanged one. */
  lemma PerKeyVisit(update: Value -> Option<Value>, p: SkipPolicy, fields: seq<string>, row: Row)
    requires fields != [] && fields[0] in row && !Skips(p, row[fields[0]]) && update(row[fields[0]]).Some?
    ensures var row' := row[fields[0] := update(row[fields[0]]).value];
            forall k :: k in row ==>
              Iterate(update, p, Count(fields, k), row[k]) == Iterate(update, p, Count(fields[1..], k), row'[k])
  {
    var row' := row[fields[0] := update(row[fields[0]]).value];
    forall k | k in row
      ensures Iterate(update, p, Count(fields, k), row[k]) == Iterate(update, p, Count(fields[1..], k), row'[k])
    {
      if k == fields[0] {
        assert Count(fields, k) == 1 + Count(fields[1..], k);
      } else {
        assert Count(fields, k) == Count(fields[1..], k);
        assert row'[k] == row[k];
      }
    }
  }

  /** One more visit comes after the others: `n + 1` visits are `n` visits
      followed by one `Step`. */
  lemma {:induction false} IterateSnoc(update: Value -> Option<Value>, p: SkipPolicy, n: nat, v: Value)
    ensures Iterate(update, p, n + 1, v) ==
            match Iterate(update, p, n, v)
            case None => None
            case Some(u) => Step(update, p, u)
    decreases n
  {
    if n > 0 {
      match Step(update, p, v)
      case None =>
      case Some(w) =>
        IterateSnoc(update, p, n - 1, w);
    }
  }

  /** Two loops over the same fields undo each other when, for every field,
      its visits under the second undo its visits under the first. */
  lemma UpdateFieldsInverse(update: Value -> Option<Value>, undo: Value -> Option<Value>, p: SkipPolicy, fields: seq<string>, row: Row)
    requires forall k :: k in row ==> Iterate(update, p, Count(fields, k), row[k]).Some? &&
                                      Iterate(undo, p, Count(fields, k), Iterate(update, p, Count(fields, k), row[k]).value) == Some(row[k])
    ensures UpdateFields(update, p, fields, row).Ok?
    ensures UpdateFields(undo, p, fields, UpdateFields(update, p, fields, row).value) == Ok(row)
  {
    UpdateFieldsPerKey(update, p, fields, row);
    var mid := UpdateFields(update, p, fields, row).value;
    UpdateFieldsPerKey(undo, p, fields, mid);
    var back := UpdateFields(undo, p, fields, mid).value;
    assert forall k :: k in row ==> back[k] == row[k];
    assert back == row;
  }

  /** An update whose results are left alone by a further visit. */
  ghost predicate Settled(update: Value -> Option<Value>, p: SkipPolicy)
  {
    forall v, w :: Step(update, p, v) == Some(w) ==> Step(update, p, w) == Some(w)
  }

  lemma {:induction false} IterateSettled(update: Value -> Option<Value>, p: SkipPolicy, n: nat, v: Value)
    requires Settled(update, p) && n >= 1
    ensures Iterate(update, p, n, v) == Step(update, p, v)
    decreases n
  {
    if n > 1 {
      match Step(update, p, v)
      case None =>
      case Some(w) =>
        IterateSettled(update, p, n - 1, w);
    }
  }

  /** For a settled update the loop is a pointwise map: a listed field passes
      through one `Step`, however often it is listed, an unlisted one keeps
      its value, and the row aborts exactly when some listed field's step
      does. */
  lemma UpdateFieldsSettled(update: Value -> Option<Value>, p: SkipPolicy, fields: seq<string>, row: Row)
    requires Settled(update, p)
    ensures UpdateFields(update, p, fields, row).Ok? <==>
            forall k :: k in row && k in fields ==> Step(update, p, row[k]).Some?
    ensures UpdateFields(update, p, fields, row).Ok? ==>
            forall k :: k in row && k in fields ==> UpdateFields(update, p, fields, row).value[k] == Step(update, p, row[k]).value
  {
    UpdateFieldsPerKey(update, p, fields, row);
    forall k | k in row
      ensures k in fields ==> Iterate(update, p, Count(fields, k), row[k]) == Step(update, p, row[k])
      ensures k !in fields ==> Iterate(update, p, Count(fields, k), row[k]) == Some(row[k])
    {
      CountPositive(fields, k);
      if k in fields {
        IterateSettled(update, p, Count(fields, k), row[k]);
      }
    }
  }

  /** A field listed exactly once is visited exactly once. */
  lemma UpdateFieldsOnce(update: Value -> Option<Value>, p: SkipPolicy, fields: seq<string>, row: Row, k: string)
    requires k in row && Count(fields, k) == 1
    requires UpdateFields(update, p, fields, row).Ok?
    ensures Step(update, p, row[k]).Some?
    ensures UpdateFields(update, p, fields, row).value[k] == Step(update, p, row[k]).value
  {
    UpdateFieldsPerKey(update, p, fields, row);
    assert Iterate(update, p, 1, row[k]).Some?;
  }

  /** A settled loop is idempotent: running it over its own output changes
      nothing. */
  lemma UpdateFieldsIdempotent(update: Value -> Option<Value>, p: SkipPolicy, fields: seq<string>, row: Row)
    requires Settled(update, p) && UpdateFields(update, p, fields, row).Ok?
    ensures UpdateFields(update, p, fields, UpdateFields(update, p, fields, row).value) == UpdateFields(update, p, fields, row)
  {
    var once := UpdateFields(update, p, fields, row).value;
    UpdateFieldsSettled(update, p, fields, row);
    UpdateFieldsSettled(update, p, fields, once);
    forall k | k in once && k in fields ensures Step(update, p, once[k]) == Some(once[k]) {
      assert Step(update, p, row[k]) == Some(once[k]);
    }
    assert UpdateFields(update, p, fields, once).Ok?;
    var twice := UpdateFields(update, p, fields, once).value;
    assert twice.Keys == once.Keys;
    assert forall k :: k in once ==> twice[k] == once[k];
    assert twice == once;
  }

  /** For a settled update only the set of listed fields matters: order and
      repetitions make no difference to the resulting row. */
  lemma UpdateFieldsSameSet(update: Value -> Option<Value>, p: SkipPolicy, fields: seq<string>, fields': seq<string>, row: Row)
    requires Settled(update, p) && (forall k :: k in fields <==> k in fields')
    ensures UpdateFields(update, p, fields, row).Ok? <==> UpdateFields(update, p, fields', row).Ok?
    ensures UpdateFields(update, p, fields, row).Ok? ==>
            UpdateFields(update, p, fields, row).value == UpdateFields(update, p, fields', row).value
  {
    UpdateFieldsSettled(update, p, fields, row);
    UpdateFieldsSettled(update, p, fields', row);
    if UpdateFields(update, p, fields, row).Ok? {
      var r, r' := UpdateFields(update, p, fields, row).value, UpdateFields(update, p, fields', row).value;
      assert r.Keys == r'.Keys;
      assert forall k :: k in r ==> r[k] == r'[k];
    }
  }

  /** No field listed twice. */
  predicate Distinct(fields: seq<string>)
  {
    forall i, j :: 0 <= i < j < |fields| ==> fields[i] != fields[j]
  }

  lemma {:induction false} CountDistinct(fields: seq<string>, k: string)
    requires Distinct(fields)
    ensures Count(fields, k) == if k in fields then 1 else 0
    decreases |fields|
  {
    if fields != [] {
      assert Distinct(fields[1..]) by {
        forall i, j | 0 <= i < j < |fields[1..]| ensures fields[1..][i] != fields[1..][j] {
          assert fields[1..][i] == fields[i + 1] && fields[1..][j] == fields[j + 1];
        }
      }
      CountDistinct(fields[1..], k);
      assert fields == [fields[0]] + fields[1..];
      if fields[0] == k {
        assert k !in fields[1..] by {
          forall j | 0 <= j < |fields[1..]| ensures fields[1..][j] != k {
            assert fields[1..][j] == fields[j + 1];
          }
        }
      }
    }
  }

  /** With no field listed twice, every update is a pointwise map, settled
      or not: each listed field passes through exactly one `Step`. */
  lemma UpdateFieldsDistinct(update: Value -> Option<Value>, p: SkipPolicy, fields: seq<string>, row: Row)
    requires Distinct(fields)
    ensures UpdateFields(update, p, fields, row).Ok? <==>
            forall k :: k in row && k in fields ==> Step(update, p, row[k]).Some?
    ensures UpdateFields(update, p, fields, row).Ok? ==>
            forall k :: k in row && k in fields ==> UpdateFields(update, p, fields, row).value[k] == Step(update, p, row[k]).value
  {
    UpdateFieldsPerKey(update, p, fields, row);
    forall k | k in row
      ensures k in fields ==> Iterate(update, p, Count(fields, k), row[k]) == Step(update, p, row[k])
      ensures k !in fields ==> Iterate(update, p, Count(fields, k), row[k]) == Some(row[k])
    {
      CountDistinct(fields, k);
    }
  }

  /** A value the loop skips is never changed, however often it is visited. */
  lemma {:induction false} IterateSkipped(update: Value -> Option<Value>, p: SkipPolicy, n: nat, v: Value)
    requires Skips(p, v)
    ensures Iterate(update, p, n, v) == Some(v)
    decreases n
  {
    if n > 0 {
      IterateSkipped(update, p, n - 1, v);
    }
  }

  /** Skipped and unlisted fields keep their values. */
  lemma UpdateFieldsKeepsSkipped(update: Value -> Option<Value>, p: SkipPolicy, fields: seq<string>, row: Row)
    requires UpdateFields(update, p, fields, row).Ok?
    ensures forall k :: k in row && Skips(p, row[k]) ==> UpdateFields(update, p, fields, row).value[k] == row[k]
  {
    UpdateFieldsPerKey(update, p, fields, row);
    forall k | k in row && Skips(p, row[k]) ensures UpdateFields(update, p, fields, row).value[k] == row[k] {
      IterateSkipped(update, p, Count(fields, k), row[k]);
    }
  }

  /** An update that never fails never aborts the row. */
  lemma {:induction false} UpdateFieldsTotal(update: Value -> Option<Value>, p: SkipPolicy, fields: seq<string>, row: Row)
    requires forall v :: update(v).Some?
    ensures UpdateFields(update, p, fields, row).Ok?
    decreases |fields|
  {
    if fields != [] {
      var field := fields[0];
      if field !in row || Skips(p, row[field]) {
        UpdateFieldsTotal(update, p, fields[1..], row);
      } else {
        UpdateFieldsTotal(update, p, fields[1..], row[field := update(row[field]).value]);
      }
    }
  }
}
