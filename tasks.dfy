/** tasks/run.go: `RunTask` builds the source, then every adapter in
    `GetAdapterNames` order, each consuming the previous stage's stream,
    then two targets on the final stream, and waits. The stages are
    modelled as sequential passes over finite streams; the trace of stage
    starts records the order in which the plan is built. */
module Tasks {
  import opened Results
  import opened Values
  import opened Streams
  import opened Config
  import opened Library
  import opened SourceBuilder
  import opened AdapterBuilder
  import opened TargetBuilder

  datatype Stage =
    | SourceStage(source: Source)
    | AdapterStage(name: string, adapter: Adapter)
    | TargetStage(target: Target)

  /** A stage started, the final `wg.Wait()`, or a fatal error that ends
      the task. */
  datatype Event = Start(stage: Stage) | Wait | Abort(reason: string)

  predicate Completed(trace: seq<Event>)
  {
    |trace| > 0 && trace[|trace| - 1] == Wait
  }

  /** A trace of one run: stages start until the task either waits or
      aborts, and nothing follows the wait or the abort. */
  predicate WellFormedTrace(trace: seq<Event>)
  {
    |trace| > 0 && (trace[|trace| - 1] == Wait || trace[|trace| - 1].Abort?) &&
    forall i :: 0 <= i < |trace| - 1 ==> trace[i].Start?
  }

  /** The events of the target loop from instance `i` on: each instance
      looks up the task's target configuration and builds its target. */
  function TargetEvents(cfg: Config, taskName: string, i: nat): seq<Event>
    requires i <= 2
    decreases 2 - i
  {
    if i == 2 then [Wait]
    else match GetTargetConfig(cfg, taskName)
      case Err(m) => [Abort(m)]
      case Ok(tgcfg) =>
        match BuildTarget(i, taskName, tgcfg)
        case Err(m) => [Abort(m)]
        case Ok(t) => [Start(TargetStage(t))] + TargetEvents(cfg, taskName, i + 1)
  }

  /** `adapters.BuildAdapter(0, cfg, taskName, name)`, the build step of
      the adapter loop, as a function of the adapter's name. */
  function Builder(x: Externals, cfg: Config, taskName: string): string -> Result<Adapter>
  {
    name => BuildAdapter(x, 0, cfg, taskName, name)
  }

  /** The events of the adapter loop over `names`, building each with
      `build`, followed by `tail` (the target loop) once every adapter is
      built. */
  function AdapterEvents(build: string -> Result<Adapter>, names: seq<string>, tail: seq<Event>): seq<Event>
    decreases |names|
  {
    if names == [] then tail
    else match build(names[0])
      case Err(m) => [Abort(m)]
      case Ok(a) => [Start(AdapterStage(names[0], a))] + AdapterEvents(build, names[1..], tail)
  }

  /** The whole plan as built for the adapter order `names`. */
  function Wiring(x: Externals, cfg: Config, taskName: string, names: seq<string>): seq<Event>
  {
    match BuildSource(0, cfg, taskName)
    case Err(m) => [Abort(m)]
    case Ok(src) => [Start(SourceStage(src))] + AdapterEvents(Builder(x, cfg, taskName), names, TargetEvents(cfg, taskName, 0))
  }

  /** The adapters built for `names`, or the first build failure. */
  function BuildAdapters(build: string -> Result<Adapter>, names: seq<string>): (r: Result<seq<Adapter>>)
    ensures r.Ok? <==> forall i :: 0 <= i < |names| ==> build(names[i]).Ok?
    ensures r.Ok? ==> |r.value| == |names| && forall i :: 0 <= i < |names| ==> build(names[i]) == Ok(r.value[i])
    decreases |names|
  {
    if names == [] then Ok([])
    else match build(names[0])
      case Err(m) => Err(m)
      case Ok(a) =>
        match BuildAdapters(build, names[1..])
        case Err(m) => Err(m)
        case Ok(rest) => Ok([a] + rest)
  }

  /** Building one more adapter extends the built list, or fails. */
  lemma {:induction false} BuildAdaptersSnoc(build: string -> Result<Adapter>, names: seq<string>, name: string)
    requires BuildAdapters(build, names).Ok? && build(name).Ok?
    ensures BuildAdapters(build, names + [name]) == Ok(BuildAdapters(build, names).value + [build(name).value])
    decreases |names|
  {
    if names == [] {
      assert [build(name).value] + [] == [] + [build(name).value];
    } else {
      var first, rest := build(names[0]).value, BuildAdapters(build, names[1..]).value;
      assert (names + [name])[0] == names[0] && (names + [name])[1..] == names[1..] + [name];
      BuildAdaptersSnoc(build, names[1..], name);
      assert [first] + (rest + [build(name).value]) == ([first] + rest) + [build(name).value];
    }
  }

  /** The stream after the adapters, in order, starting from `input`: each
      adapter consumes the stream of the one before it. */
  function Thread(x: Externals, adapters: seq<Adapter>, input: Stream): Stream
    decreases |adapters|
  {
    if adapters == [] then input
    else Pass(AdapterFn(x, adapters[|adapters| - 1]), Thread(x, adapters[..|adapters| - 1], input))
  }

  /** All the adapters' per-row functions, in order, on one row. */
  function ChainFn(x: Externals, adapters: seq<Adapter>): Row -> Result<Row>
    decreases |adapters|
  {
    if adapters == [] then Identity()
    else Compose(ChainFn(x, adapters[..|adapters| - 1]), AdapterFn(x, adapters[|adapters| - 1]))
  }

  /** Threading a stream through the adapters is one pass of their
      composed per-row function: the output holds the composed images of
      the longest prefix of rows that no adapter fails on. */
  lemma {:induction false} ThreadIsChain(x: Externals, adapters: seq<Adapter>, input: Stream)
    ensures Thread(x, adapters, input) == Pass(ChainFn(x, adapters), input)
    decreases |adapters|
  {
    if adapters == [] {
      PassIdentity(input);
    } else {
      var init, last := adapters[..|adapters| - 1], adapters[|adapters| - 1];
      ThreadIsChain(x, init, input);
      PassCompose(ChainFn(x, init), AdapterFn(x, last), input);
    }
  }

  /** When no adapter fails on any row, the final stream has one row per
      source row, in order, each the composition of the adapters applied
      to it, and it closes when the source's stream closes. */
  lemma ThreadTotal(x: Externals, adapters: seq<Adapter>, input: Stream)
    requires forall i :: 0 <= i < |input.rows| ==> ChainFn(x, adapters)(input.rows[i]).Ok?
    ensures |Thread(x, adapters, input).rows| == |input.rows|
    ensures forall i :: 0 <= i < |input.rows| ==> Thread(x, adapters, input).rows[i] == ChainFn(x, adapters)(input.rows[i]).value
    ensures Thread(x, adapters, input).closed == input.closed
  {
    ThreadIsChain(x, adapters, input);
    PassTotal(ChainFn(x, adapters), input);
  }

  // ---------------------------------------------------------------------
  // The shape of the plan

  /** The start events of the adapters `adapters`, built for `names`. */
  function Starts(names: seq<string>, adapters: seq<Adapter>): (r: seq<Event>)
    requires |names| == |adapters|
    ensures |r| == |names|
  {
    seq(|names|, i requires 0 <= i < |names| => Start(AdapterStage(names[i], adapters[i])))
  }

  /** The target loop starts instance 0 and then instance 1 of the task's
      configured target and waits, or aborts before starting any. */
  lemma TargetEventsSpec(cfg: Config, taskName: string)
    ensures taskName in cfg.tasks && cfg.tasks[taskName].target.tag == JSONLinesTag ==>
              var out := cfg.tasks[taskName].target.output;
              TargetEvents(cfg, taskName, 0) ==
                [Start(TargetStage(JSONLinesTarget(0, taskName, out))), Start(TargetStage(JSONLinesTarget(1, taskName, out))), Wait]
    ensures !(taskName in cfg.tasks && cfg.tasks[taskName].target.tag == JSONLinesTag) ==>
              |TargetEvents(cfg, taskName, 0)| == 1 && TargetEvents(cfg, taskName, 0)[0].Abort?
  {
  }

  /** When every adapter builds, the adapter loop starts them in the given
      order and hands over to `tail`. */
  lemma {:induction false} AdapterEventsBuilt(build: string -> Result<Adapter>, names: seq<string>, tail: seq<Event>)
    requires BuildAdapters(build, names).Ok?
    ensures AdapterEvents(build, names, tail) == Starts(names, BuildAdapters(build, names).value) + tail
    decreases |names|
  {
    if names != [] {
      AdapterEventsBuilt(build, names[1..], tail);
      var built := BuildAdapters(build, names).value;
      assert Starts(names, built) == [Start(AdapterStage(names[0], built[0]))] + Starts(names[1..], built[1..]);
    }
  }

  /** When adapter `j` is the first that fails to build, the adapter loop
      starts the ones before it and then aborts: no later adapter and no
      target is started. */
  lemma {:induction false} AdapterEventsFail(build: string -> Result<Adapter>, names: seq<string>, tail: seq<Event>, j: nat)
    requires j < |names| && BuildAdapters(build, names[..j]).Ok? && build(names[j]).Err?
    ensures AdapterEvents(build, names, tail) ==
            Starts(names[..j], BuildAdapters(build, names[..j]).value) + [Abort(build(names[j]).msg)]
    decreases j
  {
    if j > 0 {
      assert names[1..][..j - 1] == names[..j][1..];
      assert build(names[..j][0]).Ok?;
      AdapterEventsFail(build, names[1..], tail, j - 1);
      var built := BuildAdapters(build, names[..j]).value;
      assert Starts(names[..j], built) == [Start(AdapterStage(names[0], built[0]))] + Starts(names[1..][..j - 1], built[1..]);
    }
  }

  /** Starting one more stage in front keeps a trace well formed. */
  lemma StartWellFormed(stage: Stage, rest: seq<Event>)
    requires WellFormedTrace(rest)
    ensures WellFormedTrace([Start(stage)] + rest)
  {
    var t := [Start(stage)] + rest;
    forall i | 0 <= i < |t| - 1 ensures t[i].Start? {
      if i > 0 {
        assert t[i] == rest[i - 1];
      }
    }
  }

  /** The target loop starts instances until it waits or aborts. */
  lemma {:induction false} TargetEventsWellFormed(cfg: Config, taskName: string, i: nat)
    requires i <= 2
    ensures WellFormedTrace(TargetEvents(cfg, taskName, i))
    decreases 2 - i
  {
    if i < 2 && GetTargetConfig(cfg, taskName).Ok? {
      var tgcfg := GetTargetConfig(cfg, taskName).value;
      if BuildTarget(i, taskName, tgcfg).Ok? {
        TargetEventsWellFormed(cfg, taskName, i + 1);
        StartWellFormed(TargetStage(BuildTarget(i, taskName, tgcfg).value), TargetEvents(cfg, taskName, i + 1));
      }
    }
  }

  /** The adapter loop keeps a trace well formed: it only starts stages
      before handing over to `tail`, or ends with one abort. */
  lemma {:induction false} AdapterEventsWellFormed(build: string -> Result<Adapter>, names: seq<string>, tail: seq<Event>)
    requires WellFormedTrace(tail)
    ensures WellFormedTrace(AdapterEvents(build, names, tail))
    decreases |names|
  {
    if names != [] && build(names[0]).Ok? {
      AdapterEventsWellFormed(build, names[1..], tail);
      StartWellFormed(AdapterStage(names[0], build(names[0]).value), AdapterEvents(build, names[1..], tail));
    }
  }

  /** Every run of a task starts stages until it reaches `wg.Wait` or its
      first fatal error, and does nothing after either. */
  lemma WiringEnds(x: Externals, cfg: Config, taskName: string, names: seq<string>)
    ensures WellFormedTrace(Wiring(x, cfg, taskName, names))
  {
    if BuildSource(0, cfg, taskName).Ok? {
      var tail := TargetEvents(cfg, taskName, 0);
      TargetEventsWellFormed(cfg, taskName, 0);
      AdapterEventsWellFormed(Builder(x, cfg, taskName), names, tail);
      StartWellFormed(SourceStage(BuildSource(0, cfg, taskName).value), AdapterEvents(Builder(x, cfg, taskName), names, tail));
    }
  }

  /** The position of the first adapter that fails to build. */
  lemma FirstFailure(build: string -> Result<Adapter>, names: seq<string>) returns (j: nat)
    requires BuildAdapters(build, names).Err?
    ensures j < |names| && BuildAdapters(build, names[..j]).Ok? && build(names[j]).Err?
    decreases |names|
  {
    if build(names[0]).Err? {
      j := 0;
    } else {
      var k := FirstFailure(build, names[1..]);
      j := k + 1;
      assert names[..j][1..] == names[1..][..k];
    }
  }

  /** With the source and every adapter built, the plan is the source's
      start, the adapters' starts in order, and the target loop. */
  lemma WiringBuilt(x: Externals, cfg: Config, taskName: string, names: seq<string>)
    requires BuildSource(0, cfg, taskName).Ok? && BuildAdapters(Builder(x, cfg, taskName), names).Ok?
    ensures Wiring(x, cfg, taskName, names) ==
            [Start(SourceStage(BuildSource(0, cfg, taskName).value))] +
            Starts(names, BuildAdapters(Builder(x, cfg, taskName), names).value) + TargetEvents(cfg, taskName, 0)
  {
    AdapterEventsBuilt(Builder(x, cfg, taskName), names, TargetEvents(cfg, taskName, 0));
  }

  /** The plan completes, reaching `Wait`, exactly when the source, every
      adapter and the target all build; it then starts the source, the
      adapters in order, target instances 0 and 1 on the task's output,
      and only then waits. */
  lemma WiringComplete(x: Externals, cfg: Config, taskName: string, names: seq<string>)
    ensures Completed(Wiring(x, cfg, taskName, names)) <==>
            BuildSource(0, cfg, taskName).Ok? && BuildAdapters(Builder(x, cfg, taskName), names).Ok? &&
            cfg.tasks[taskName].target.tag == JSONLinesTag
    ensures Completed(Wiring(x, cfg, taskName, names)) ==>
            var out := cfg.tasks[taskName].target.output;
            Wiring(x, cfg, taskName, names) ==
              [Start(SourceStage(BuildSource(0, cfg, taskName).value))] +
              Starts(names, BuildAdapters(Builder(x, cfg, taskName), names).value) +
              [Start(TargetStage(JSONLinesTarget(0, taskName, out))), Start(TargetStage(JSONLinesTarget(1, taskName, out))), Wait]
    ensures Completed(Wiring(x, cfg, taskName, names)) ==> Wait !in Wiring(x, cfg, taskName, names)[..|Wiring(x, cfg, taskName, names)| - 1]
  {
    var w := Wiring(x, cfg, taskName, names);
    match BuildSource(0, cfg, taskName)
    case Err(m) =>
      assert w == [Abort(m)];
    case Ok(src) =>
      if BuildAdapters(Builder(x, cfg, taskName), names).Ok? {
        var head := [Start(SourceStage(src))] + Starts(names, BuildAdapters(Builder(x, cfg, taskName), names).value);
        var tail := TargetEvents(cfg, taskName, 0);
        WiringBuilt(x, cfg, taskName, names);
        TargetEventsSpec(cfg, taskName);
        assert w == head + tail;
        assert Wait !in head;
        if Completed(w) {
          assert w[..|w| - 1] == head + tail[..|tail| - 1];
        }
      } else {
        SourceStartsFirst(x, cfg, taskName, names);
      }
  }

  /** A task without configuration aborts at once: nothing is started. */
  lemma UnknownTaskAborts(x: Externals, cfg: Config, taskName: string, names: seq<string>)
    requires taskName !in cfg.tasks
    ensures Wiring(x, cfg, taskName, names) ==
            [Abort("Error getting source configuration for task " + taskName + ": " + ("Missing configuration for task: " + taskName))]
  {
    assert BuildSource(0, cfg, taskName).Err?;
  }

  /** The source is started before any adapter is built: when the source
      builds, it is the first stage started, even if an adapter then fails
      and the task aborts. */
  lemma SourceStartsFirst(x: Externals, cfg: Config, taskName: string, names: seq<string>)
    requires BuildSource(0, cfg, taskName).Ok? && BuildAdapters(Builder(x, cfg, taskName), names).Err?
    ensures Wiring(x, cfg, taskName, names)[0] == Start(SourceStage(BuildSource(0, cfg, taskName).value))
    ensures !Completed(Wiring(x, cfg, taskName, names))
    ensures Wiring(x, cfg, taskName, names)[|Wiring(x, cfg, taskName, names)| - 1].Abort?
  {
    var build := Builder(x, cfg, taskName);
    var j := FirstFailure(build, names);
    AdapterEventsFail(build, names, TargetEvents(cfg, taskName, 0), j);
  }

  // ---------------------------------------------------------------------
  // The two targets

  /** Both targets read the same channel, so each row goes to one of them,
      and each sees its rows in stream order. */
  ghost predicate Interleaves<T>(rows: seq<T>, a: seq<T>, b: seq<T>)
    decreases |rows|
  {
    if rows == [] then a == [] && b == []
    else
      var last, init := rows[|rows| - 1], rows[..|rows| - 1];
      (a != [] && a[|a| - 1] == last && Interleaves(init, a[..|a| - 1], b)) ||
      (b != [] && b[|b| - 1] == last && Interleaves(init, a, b[..|b| - 1]))
  }

  lemma {:induction false} InterleavesSplits<T>(rows: seq<T>, a: seq<T>, b: seq<T>)
    requires Interleaves(rows, a, b)
    ensures multiset(a) + multiset(b) == multiset(rows)
    ensures |a| + |b| == |rows|
    decreases |rows|
  {
    if rows != [] {
      var last, init := rows[|rows| - 1], rows[..|rows| - 1];
      MultisetLast(rows);
      if a != [] && a[|a| - 1] == last && Interleaves(init, a[..|a| - 1], b) {
        InterleavesSplits(init, a[..|a| - 1], b);
        MultisetLast(a);
      } else {
        InterleavesSplits(init, a, b[..|b| - 1]);
        MultisetLast(b);
      }
    }
  }

  /** A non-empty sequence is its front and its last element. */
  lemma MultisetLast<T>(s: seq<T>)
    requires s != []
    ensures multiset(s) == multiset(s[..|s| - 1]) + multiset{s[|s| - 1]}
  {
    assert s == s[..|s| - 1] + [s[|s| - 1]];
  }

  /** The two target instances draining the final stream; which instance
      receives a row is up to the scheduler. */
  method Deliver(final: Stream) returns (received0: seq<Row>, received1: seq<Row>)
    ensures Interleaves(final.rows, received0, received1)
  {
    received0, received1 := [], [];
    for i := 0 to |final.rows|
      invariant Interleaves(final.rows[..i], received0, received1)
    {
      var toFirst: bool :| true;
      assert final.rows[..i + 1][..i] == final.rows[..i];
      if toFirst {
        assert (received0 + [final.rows[i]])[..|received0|] == received0;
        received0 := received0 + [final.rows[i]];
      } else {
        assert (received1 + [final.rows[i]])[..|received1|] == received1;
        received1 := received1 + [final.rows[i]];
      }
    }
    assert final.rows[..|final.rows|] == final.rows;
  }

  // ---------------------------------------------------------------------
  // RunTask

  /** Running one more adapter on the threaded stream threads it through
      the longer list. */
  lemma ThreadSnoc(x: Externals, built: seq<Adapter>, a: Adapter, feed: Stream)
    ensures Thread(x, built + [a], feed) == Pass(AdapterFn(x, a), Thread(x, built, feed))
  {
    assert (built + [a])[..|built|] == built;
  }

  /** One turn of the adapter loop: builds the adapter called `name` and,
      when it builds, runs it on `pipe`, the stream threaded through the
      adapters `built` so far. */
  method StartAdapter(x: Externals, build: string -> Result<Adapter>, name: string, pipe: Stream, ghost built: seq<Adapter>, ghost feed: Stream)
    returns (adapter: Result<Adapter>, next: Stream)
    requires pipe == Thread(x, built, feed)
    ensures adapter == build(name)
    ensures adapter.Ok? ==> next == Thread(x, built + [adapter.value], feed)
  {
    adapter := build(name);
    next := pipe;
    if adapter.Ok? {
      ThreadSnoc(x, built, adapter.value, feed);
      next := RunAdapter(x, adapter.value, pipe);
    }
  }

  /** The adapter loop's bookkeeping for one more name: the events so far
      and the adapters built so far, before and after `order[i]`. */
  lemma AdapterLoopStep(build: string -> Result<Adapter>, order: seq<string>, i: nat, events: seq<Event>, built: seq<Adapter>, tail: seq<Event>)
    requires i < |order|
    requires events + AdapterEvents(build, order[i..], tail) == AdapterEvents(build, order, tail)
    requires BuildAdapters(build, order[..i]) == Ok(built)
    ensures build(order[i]).Err? ==> events + [Abort(build(order[i]).msg)] == AdapterEvents(build, order, tail)
    ensures build(order[i]).Ok? ==>
              var a := build(order[i]).value;
              (events + [Start(AdapterStage(order[i], a))]) + AdapterEvents(build, order[i + 1..], tail) == AdapterEvents(build, order, tail) &&
              BuildAdapters(build, order[..i + 1]) == Ok(built + [a])
  {
    assert order[i..][0] == order[i] && order[i..][1..] == order[i + 1..];
    if build(order[i]).Ok? {
      assert order[..i + 1] == order[..i] + [order[i]];
      BuildAdaptersSnoc(build, order[..i], order[i]);
    }
  }

  /** The adapter loop of `RunTask`: builds each adapter in turn with
      `build` and threads the stream through it; `ok` is false when a build
      aborted. `tail` stands for whatever the task does after the loop. */
  method StartAdapters(x: Externals, build: string -> Result<Adapter>, order: seq<string>, feed: Stream, ghost tail: seq<Event>)
    returns (events: seq<Event>, built: seq<Adapter>, pipe: Stream, ok: bool)
    ensures ok ==> events + tail == AdapterEvents(build, order, tail)
    ensures ok ==> BuildAdapters(build, order) == Ok(built) && pipe == Thread(x, built, feed)
    ensures !ok ==> events == AdapterEvents(build, order, tail) && |events| > 0 && events[|events| - 1].Abort?
  {
    events, built, pipe := [], [], feed;
    for i := 0 to |order|
      invariant events + AdapterEvents(build, order[i..], tail) == AdapterEvents(build, order, tail)
      invariant BuildAdapters(build, order[..i]) == Ok(built)
      invariant pipe == Thread(x, built, feed)
    {
      AdapterLoopStep(build, order, i, events, built, tail);
      var adapter, next := StartAdapter(x, build, order[i], pipe, built, feed);
      if adapter.Err? {
        events := events + [Abort(adapter.msg)];
        return events, built, pipe, false;
      }
      events := events + [Start(AdapterStage(order[i], adapter.value))];
      built, pipe := built + [adapter.value], next;
    }
    assert order[|order|..] == [] && order[..|order|] == order;
    return events, built, pipe, true;
  }

  /** The target loop of `RunTask`: two instances, 0 then 1. */
  method StartTargets(cfg: Config, taskName: string) returns (events: seq<Event>)
    ensures events == TargetEvents(cfg, taskName, 0)
  {
    events := [];
    for i := 0 to 2
      invariant events + TargetEvents(cfg, taskName, i) == TargetEvents(cfg, taskName, 0)
    {
      var tgcfg := GetTargetConfig(cfg, taskName);
      if tgcfg.Err? {
        return events + [Abort(tgcfg.msg)];
      }
      var target := BuildTarget(i, taskName, tgcfg.value);
      if target.Err? {
        return events + [Abort(target.msg)];
      }
      events := events + [Start(TargetStage(target.value))];
    }
    events := events + [Wait];
  }

  /** `RunTask`: `feed` is what the source's `Run` yields. The trace is the
      plan `Wiring` for the adapter order `GetAdapterNames` chose; when the
      plan completes, the final stream is the source's stream threaded
      through the built adapters, and the two targets share it. The trace
      is the main goroutine's build sequence: a stage that aborts on a record
      while later stages are still being built is not part of it, and on
      such an abort the targets receive all of `final.rows`, where the
      process may exit with only a prefix delivered. */
  method RunTask(x: Externals, cfg: Config, taskName: string, feed: Stream)
    returns (trace: seq<Event>, order: seq<string>, final: Stream, received0: seq<Row>, received1: seq<Row>)
    ensures trace == Wiring(x, cfg, taskName, order)
    ensures BuildSource(0, cfg, taskName).Ok? ==> IsAdapterOrder(cfg.tasks[taskName].adapters, order)
    ensures Completed(trace) ==> BuildAdapters(Builder(x, cfg, taskName), order).Ok? &&
                                 final == Thread(x, BuildAdapters(Builder(x, cfg, taskName), order).value, feed) &&
                                 Interleaves(final.rows, received0, received1)
    ensures Completed(trace) && order == [] ==> final == feed
    ensures !Completed(trace) ==> received0 == [] && received1 == []
  {
    received0, received1 := [], [];
    order := [];
    final := Stream([], false);
    var source := BuildSource(0, cfg, taskName);
    if source.Err? {
      trace := [Abort(source.msg)];
      return;
    }
    order := GetAdapterNames(cfg, taskName);
    var adapterEvents, built, pipe, ok := StartAdapters(x, Builder(x, cfg, taskName), order, feed, TargetEvents(cfg, taskName, 0));
    trace := [Start(SourceStage(source.value))] + adapterEvents;
    if !ok {
      return;
    }
    var targetEvents := StartTargets(cfg, taskName);
    assert trace + targetEvents == [Start(SourceStage(source.value))] + (adapterEvents + targetEvents);
    trace := trace + targetEvents;
    if Completed(trace) {
      final := pipe;
      received0, received1 := Deliver(final);
    }
  }
}
