/**
 * The monitoring core of main_window.py (`ThreatApp`): the consumer that takes
 * feature observations off the shared queue, classifies them, logs an alert for
 * each and calls the mitigator on anomalies; the `start`/`stop` flag; the
 * `_safe_run` wrapper around the sensor threads; and the two toolbar actions
 * that also append to the log.
 *
 * Threads are not modelled: the consumer loop runs one iteration per `Tick`, and
 * everything the other parties do during an iteration (the sensors' `put`s, the
 * classifier's and mitigator's results, an exception from the window) is an
 * input of that tick.
 */
module Monitor {
  import opened Wrappers

  /** A feature observation: the named attributes a sensor puts on the queue. */
  datatype Observation = Observation(features: map<string, real>)

  /** The label the classifier gives an anomaly. */
  const Anomalous: int := -1
  /** The label and score the consumer assumes when the classifier raises. */
  const DefaultLabel: int := 1
  const DefaultScore: real := 0.0

  /** What `model.predict` followed by `model.score` gave: both values, or an exception from either. */
  datatype Verdict = Classified(prediction: int, score: real) | ModelFault

  /** What `mitigator.apply` did: returned, or raised. */
  datatype MitigationResult = Applied | MitigationFault

  /**
   * An exception that escapes the inner handlers of one iteration and reaches
   * the consumer's outer `except Exception`, by the point where it is raised.
   */
  datatype Glitch =
    | NoGlitch
    | FormatFault        // building the alert message raised: nothing appended yet
    | AlertDisplayFault  // showing the alert in the window raised: the alert is already logged
    | ErrorDisplayFault  // showing the mitigation error raised: that error is already logged

  /** Everything that one iteration of the consumer loop depends on. */
  datatype Tick = Tick(
    arrivals: seq<Observation>,    // put on the queue by the sensors before this `get` returns
    verdict: Verdict,
    mitigation: MitigationResult,
    glitch: Glitch)

  /** An entry of `self.logs`; the text of each message is not modelled. */
  datatype LogEntry =
    | Alert(obs: Observation, prediction: int, score: real)  // "[ALERT] <features> → <label>, score=<score>"
    | MitigationError                                   // "[ERROR] Mitigation failed: ..."
    | ConsumerError                                     // "[ERROR] Consumer error: ..."
    | MonitorCrash                                      // "[ERROR] Monitor thread crashed: ..."
    | TtpExtracted(ttps: seq<string>)                   // "[TTP Extracted] ..."
    | TtpExtractionError                                // "[ERROR] TTP extraction failed: ..."
    | ReportExportError                                 // "[ERROR] Report export failed: ..."

  function LabelOf(v: Verdict): int {
    if v.Classified? then v.prediction else DefaultLabel
  }

  function ScoreOf(v: Verdict): real {
    if v.Classified? then v.score else DefaultScore
  }

  /** The observations carried by the alerts of a log, in log order. */
  function Alerts(entries: seq<LogEntry>): seq<Observation> {
    if entries == [] then []
    else (if entries[0].Alert? then [entries[0].obs] else []) + Alerts(entries[1..])
  }

  lemma {:induction false} AlertsAppend(a: seq<LogEntry>, b: seq<LogEntry>)
    ensures Alerts(a + b) == Alerts(a) + Alerts(b)
  {
    if a == [] {
      assert a + b == b;
    } else {
      assert (a + b)[0] == a[0] && (a + b)[1..] == a[1..] + b;
      AlertsAppend(a[1..], b);
    }
  }

  // ---------------- one observation ----------------

  /** What handling one dequeued observation leaves behind: log entries and mitigator calls. */
  datatype Effects = Effects(entries: seq<LogEntry>, calls: seq<Observation>)

  /**
   * The body of the consumer loop for an observation `obs` it has taken off the
   * queue. The mitigator is called at most once, exactly when the label is
   * anomalous and the alert got through.
   */
  function Handle(obs: Observation, t: Tick): (r: Effects)
    ensures r.calls == [] || r.calls == [obs]
    ensures r.calls == [obs] <==> LabelOf(t.verdict) == Anomalous && (t.glitch == NoGlitch || t.glitch == ErrorDisplayFault)
  {
    var alert := Alert(obs, LabelOf(t.verdict), ScoreOf(t.verdict));
    match t.glitch
    case FormatFault => Effects([ConsumerError], [])
    case AlertDisplayFault => Effects([alert, ConsumerError], [])
    case _ =>
      if LabelOf(t.verdict) != Anomalous then Effects([alert], [])
      else match t.mitigation
        case Applied => Effects([alert], [obs])
        case MitigationFault =>
          if t.glitch == ErrorDisplayFault then Effects([alert, MitigationError, ConsumerError], [obs])
          else Effects([alert, MitigationError], [obs])
  }

  /**
   * What handling one observation logs: every dequeued observation leaves at
   * least one entry; it is alerted exactly once, first, unless building the
   * message raised; a classifier fault never leads to mitigation; a mitigation
   * fault logs one error right after the alert.
   */
  lemma HandleLogs(obs: Observation, t: Tick)
    ensures var r := Handle(obs, t);
      && 1 <= |r.entries| <= 3
      && Alerts(r.entries) == (if t.glitch == FormatFault then [] else [obs])
      && (t.glitch != FormatFault ==> r.entries[0] == Alert(obs, LabelOf(t.verdict), ScoreOf(t.verdict)))
      && (t.glitch == FormatFault ==> r.entries == [ConsumerError])
      && (t.verdict.ModelFault? ==> r.calls == [])
      && (t.glitch == NoGlitch ==>
            r.entries == [Alert(obs, LabelOf(t.verdict), ScoreOf(t.verdict))] +
                         (if r.calls == [obs] && t.mitigation == MitigationFault then [MitigationError] else []))
  {
    var alert := Alert(obs, LabelOf(t.verdict), ScoreOf(t.verdict));
    assert Alerts([alert]) == [obs];
    assert Alerts([alert, ConsumerError]) == [obs] by {
      assert [alert, ConsumerError][1..] == [ConsumerError];
      assert Alerts([ConsumerError]) == [];
    }
    assert Alerts([alert, MitigationError]) == [obs] by {
      assert [alert, MitigationError][1..] == [MitigationError];
      assert Alerts([MitigationError]) == [];
    }
    assert Alerts([alert, MitigationError, ConsumerError]) == [obs] by {
      assert [alert, MitigationError, ConsumerError][1..] == [MitigationError, ConsumerError];
      assert [MitigationError, ConsumerError][1..] == [ConsumerError];
    }
    assert [alert] + [MitigationError] == [alert, MitigationError];
  }

  // ---------------- the consumer loop ----------------

  /**
   * The state the consumer works on: the queue, the log, the observations the
   * mitigator was called with, and the observations taken off the queue.
   */
  datatype Pipe = Pipe(
    queue: seq<Observation>,
    logs: seq<LogEntry>,
    mitigations: seq<Observation>,
    taken: seq<Observation>)

  /**
   * One iteration: the sensors' arrivals join the queue; if it is still empty
   * the `get` times out and nothing changes, otherwise its head is taken and
   * handled. The log, the calls and the taken observations only grow, and
   * queue order is kept.
   */
  function Step(p: Pipe, t: Tick): (r: Pipe)
    ensures |p.logs| <= |r.logs| && r.logs[..|p.logs|] == p.logs
    ensures |p.mitigations| <= |r.mitigations| && r.mitigations[..|p.mitigations|] == p.mitigations
    ensures r.taken + r.queue == p.taken + p.queue + t.arrivals
    ensures p.queue + t.arrivals == [] ==> r == p
    ensures p.queue + t.arrivals != [] ==> r.taken == p.taken + [(p.queue + t.arrivals)[0]]
    ensures |r.mitigations| - |p.mitigations| <= |r.taken| - |p.taken|
  {
    var q := p.queue + t.arrivals;
    if q == [] then p
    else
      var e := Handle(q[0], t);
      assert p.taken + [q[0]] + q[1..] == p.taken + q;
      Pipe(q[1..], p.logs + e.entries, p.mitigations + e.calls, p.taken + [q[0]])
  }

  /** The iterations `ticks`, in order. */
  function Run(p: Pipe, ticks: seq<Tick>): Pipe
    decreases |ticks|
  {
    if ticks == [] then p else Step(Run(p, ticks[..|ticks| - 1]), ticks[|ticks| - 1])
  }

  /** Everything the sensors put on the queue during `ticks`, in order. */
  function Arrivals(ticks: seq<Tick>): seq<Observation>
    decreases |ticks|
  {
    if ticks == [] then [] else Arrivals(ticks[..|ticks| - 1]) + ticks[|ticks| - 1].arrivals
  }

  lemma PrefixOfPrefix<T>(a: seq<T>, b: seq<T>, c: seq<T>)
    requires |a| <= |b| && b[..|a|] == a
    requires |b| <= |c| && c[..|b|] == b
    ensures |a| <= |c| && c[..|a|] == a
  {
    assert c[..|a|] == c[..|b|][..|a|];
  }

  /** The log, the mitigator calls and the taken observations are only ever appended to. */
  lemma {:induction false} RunAppendOnly(p: Pipe, ticks: seq<Tick>)
    ensures var r := Run(p, ticks);
      && |p.logs| <= |r.logs| && r.logs[..|p.logs|] == p.logs
      && |p.mitigations| <= |r.mitigations| && r.mitigations[..|p.mitigations|] == p.mitigations
      && |p.taken| <= |r.taken| && r.taken[..|p.taken|] == p.taken
    decreases |ticks|
  {
    if ticks != [] {
      var before := Run(p, ticks[..|ticks| - 1]);
      RunAppendOnly(p, ticks[..|ticks| - 1]);
      var r := Step(before, ticks[|ticks| - 1]);
      assert |before.taken| <= |r.taken| && r.taken[..|before.taken|] == before.taken by {
        if before.queue + ticks[|ticks| - 1].arrivals != [] {
          assert r.taken == before.taken + [(before.queue + ticks[|ticks| - 1].arrivals)[0]];
        }
      }
      PrefixOfPrefix(p.logs, before.logs, r.logs);
      PrefixOfPrefix(p.mitigations, before.mitigations, r.mitigations);
      PrefixOfPrefix(p.taken, before.taken, r.taken);
    }
  }

  /**
   * FIFO: what has been taken followed by what is still queued is everything
   * ever enqueued, in order; so observations are taken in queue order and each
   * at most once.
   */
  lemma {:induction false} RunFifo(p: Pipe, ticks: seq<Tick>)
    ensures Run(p, ticks).taken + Run(p, ticks).queue == p.taken + p.queue + Arrivals(ticks)
    ensures |Run(p, ticks).taken| >= |p.taken|
    decreases |ticks|
  {
    if ticks != [] {
      var init, t := ticks[..|ticks| - 1], ticks[|ticks| - 1];
      var before := Run(p, init);
      var after := Run(p, ticks);
      assert after.taken + after.queue == before.taken + before.queue + t.arrivals by {
        assert after == Step(before, t);
      }
      assert before.taken + before.queue == p.taken + p.queue + Arrivals(init) by {
        RunFifo(p, init);
      }
      assert Arrivals(ticks) == Arrivals(init) + t.arrivals;
      assert |after.taken| >= |before.taken| >= |p.taken| by {
        RunFifo(p, init);
        assert after == Step(before, t);
      }
    }
  }

  /** `a` is `b` with some elements left out: the rest keep their order. */
  ghost predicate Subseq<T>(a: seq<T>, b: seq<T>)
    decreases |b|
  {
    if a == [] then true
    else if b == [] then false
    else (a[|a| - 1] == b[|b| - 1] && Subseq(a[..|a| - 1], b[..|b| - 1])) || Subseq(a, b[..|b| - 1])
  }

  lemma SubseqSkip<T>(a: seq<T>, b: seq<T>, x: T)
    requires Subseq(a, b)
    ensures Subseq(a, b + [x])
  {
    assert (b + [x])[..|b|] == b;
  }

  lemma SubseqKeep<T>(a: seq<T>, b: seq<T>, x: T)
    requires Subseq(a, b)
    ensures Subseq(a + [x], b + [x])
  {
    assert (a + [x])[..|a|] == a && (b + [x])[..|b|] == b;
  }

  /** A step that takes an observation calls the mitigator with it once or not at all. */
  lemma StepMitigations(p: Pipe, t: Tick)
    requires p.queue + t.arrivals != []
    ensures var x := (p.queue + t.arrivals)[0]; var r := Step(p, t);
      && r.taken == p.taken + [x]
      && (r.mitigations == p.mitigations || r.mitigations == p.mitigations + [x])
  {
    var x := (p.queue + t.arrivals)[0];
    assert Handle(x, t).calls == [] || Handle(x, t).calls == [x];
  }

  /** Appending `x` to the taken observations, and maybe to the calls, keeps the calls since `pm` a subsequence of the taken since `pk`. */
  lemma SubseqStep<T>(pm: seq<T>, pk: seq<T>, m: seq<T>, k: seq<T>, m2: seq<T>, k2: seq<T>, x: T)
    requires |pm| <= |m| && |pk| <= |k| && |m| - |pm| <= |k| - |pk| && Subseq(m[|pm|..], k[|pk|..])
    requires k2 == k + [x] && (m2 == m || m2 == m + [x])
    ensures |pm| <= |m2| && |pk| <= |k2| && |m2| - |pm| <= |k2| - |pk| && Subseq(m2[|pm|..], k2[|pk|..])
  {
    assert k2[|pk|..] == k[|pk|..] + [x];
    if m2 == m {
      SubseqSkip(m[|pm|..], k[|pk|..], x);
    } else {
      assert m2[|pm|..] == m[|pm|..] + [x];
      SubseqKeep(m[|pm|..], k[|pk|..], x);
    }
  }

  /**
   * The mitigator is called at most once per observation taken off the queue:
   * over any run, the observations it is called with are some of those taken,
   * each once and in the order they were taken.
   */
  lemma {:induction false} RunMitigatesAtMostOnce(p: Pipe, ticks: seq<Tick>)
    ensures |Run(p, ticks).mitigations| - |p.mitigations| <= |Run(p, ticks).taken| - |p.taken|
    ensures |p.mitigations| <= |Run(p, ticks).mitigations| && |p.taken| <= |Run(p, ticks).taken|
    ensures Subseq(Run(p, ticks).mitigations[|p.mitigations|..], Run(p, ticks).taken[|p.taken|..])
    decreases |ticks|
  {
    if ticks != [] {
      var init, t := ticks[..|ticks| - 1], ticks[|ticks| - 1];
      var before := Run(p, init);
      var after := Run(p, ticks);
      RunMitigatesAtMostOnce(p, init);
      var q := before.queue + t.arrivals;
      if q == [] {
        assert after == before;
      } else {
        StepMitigations(before, t);
        SubseqStep(p.mitigations, p.taken, before.mitigations, before.taken, after.mitigations, after.taken, q[0]);
      }
    }
  }

  /** One step that takes an observation and builds its message logs exactly one alert, for that observation. */
  lemma StepAlerts(p: Pipe, t: Tick)
    requires t.glitch != FormatFault
    requires p.queue + t.arrivals != []
    ensures var q := p.queue + t.arrivals; var r := Step(p, t);
      r.taken == p.taken + [q[0]] && Alerts(r.logs) == Alerts(p.logs) + [q[0]]
  {
    var q := p.queue + t.arrivals;
    HandleLogs(q[0], t);
    AlertsAppend(p.logs, Handle(q[0], t).entries);
  }

  /**
   * Unless building a message fails, every observation taken off the queue is
   * alerted exactly once, and the alerts follow queue order.
   */
  lemma {:induction false} RunAlertsEveryTaken(p: Pipe, ticks: seq<Tick>)
    requires forall k :: 0 <= k < |ticks| ==> ticks[k].glitch != FormatFault
    ensures |p.taken| <= |Run(p, ticks).taken|
    ensures Alerts(Run(p, ticks).logs) == Alerts(p.logs) + Run(p, ticks).taken[|p.taken|..]
    decreases |ticks|
  {
    if ticks != [] {
      var init, t := ticks[..|ticks| - 1], ticks[|ticks| - 1];
      var before := Run(p, init);
      var after := Run(p, ticks);
      assert |p.taken| <= |before.taken| && Alerts(before.logs) == Alerts(p.logs) + before.taken[|p.taken|..] by {
        RunAlertsEveryTaken(p, init);
      }
      var q := before.queue + t.arrivals;
      if q == [] {
        assert after == before;
      } else {
        StepAlerts(before, t);
        assert after.taken[|p.taken|..] == before.taken[|p.taken|..] + [q[0]];
      }
    }
  }

  /** The alert the consumer logs for an observation when the classifier raised. */
  function DefaultAlerts(obs: seq<Observation>): (r: seq<LogEntry>)
    ensures |r| == |obs|
  {
    seq(|obs|, i requires 0 <= i < |obs| => Alert(obs[i], DefaultLabel, DefaultScore))
  }

  /** One step with a raising classifier and no window fault: the head gets the default alert and nothing else. */
  lemma StepWithFailingModel(p: Pipe, t: Tick)
    requires t.verdict.ModelFault? && t.glitch == NoGlitch
    requires p.queue + t.arrivals != []
    ensures var q := p.queue + t.arrivals; var r := Step(p, t);
      && r.taken == p.taken + [q[0]]
      && r.logs == p.logs + [Alert(q[0], DefaultLabel, DefaultScore)]
      && r.mitigations == p.mitigations
  {
    var q := p.queue + t.arrivals;
    HandleLogs(q[0], t);
  }

  /** A classifier that always raises never leads to a mitigator call, whatever the window does. */
  lemma {:induction false} RunFailingModelNeverMitigates(p: Pipe, ticks: seq<Tick>)
    requires forall k :: 0 <= k < |ticks| ==> ticks[k].verdict.ModelFault?
    ensures Run(p, ticks).mitigations == p.mitigations
    decreases |ticks|
  {
    if ticks != [] {
      var init, t := ticks[..|ticks| - 1], ticks[|ticks| - 1];
      var before := Run(p, init);
      RunFailingModelNeverMitigates(p, init);
      var q := before.queue + t.arrivals;
      if q != [] {
        HandleLogs(q[0], t);
      }
    }
  }

  /**
   * A classifier that always raises does not stop monitoring: with no window
   * fault, each observation taken still gets its alert (label 1, score 0.0),
   * nothing else is logged, and the mitigator is never called.
   */
  lemma {:induction false} RunWithFailingModel(p: Pipe, ticks: seq<Tick>)
    requires forall k :: 0 <= k < |ticks| ==> ticks[k].verdict.ModelFault? && ticks[k].glitch == NoGlitch
    ensures |p.taken| <= |Run(p, ticks).taken|
    ensures Run(p, ticks).logs == p.logs + DefaultAlerts(Run(p, ticks).taken[|p.taken|..])
    ensures Run(p, ticks).mitigations == p.mitigations
    decreases |ticks|
  {
    if ticks != [] {
      var init, t := ticks[..|ticks| - 1], ticks[|ticks| - 1];
      var before := Run(p, init);
      var after := Run(p, ticks);
      assert |p.taken| <= |before.taken| && before.mitigations == p.mitigations
        && before.logs == p.logs + DefaultAlerts(before.taken[|p.taken|..]) by {
        RunWithFailingModel(p, init);
      }
      var q := before.queue + t.arrivals;
      if q == [] {
        assert after == before;
      } else {
        assert after.taken == before.taken + [q[0]]
          && after.logs == before.logs + [Alert(q[0], DefaultLabel, DefaultScore)]
          && after.mitigations == before.mitigations by {
          StepWithFailingModel(before, t);
        }
        var earlier := before.taken[|p.taken|..];
        assert after.taken[|p.taken|..] == earlier + [q[0]];
        assert DefaultAlerts(earlier + [q[0]]) == DefaultAlerts(earlier) + [Alert(q[0], DefaultLabel, DefaultScore)];
      }
    }
  }

  // ---------------- the application object ----------------

  /** How far `start` got before something in it raised. */
  datatype Launch =
    | Launched                  // all three threads started
    | FaultBeforeThreads        // the window, a sensor constructor or the first thread's start raised
    | FaultAfterProcessThread   // the network sensor's thread failed to start
    | FaultAfterNetworkThread   // the consumer's thread failed to start

  /** How a sensor's `run` ended inside `_safe_run`. */
  datatype SensorEnd = Returned | Crashed

  /** What a file dialog gave back. An empty name means the user cancelled. */
  datatype FileChoice = Chosen(fname: string) | DialogFault

  /** What `infer_ttps` gave back. */
  datatype TtpInference = Inferred(ttps: seq<string>) | InferenceFault

  /** What `export_report` did. */
  datatype ExportResult = Exported | ExportFault

  /** A call of `export_report`: the log and indicators it was given, and the file name. */
  datatype Report = Report(logs: seq<LogEntry>, ttps: seq<string>, fname: string)

  class ThreatApp {
    var queue: seq<Observation>
    var running: bool
    var logs: seq<LogEntry>
    /** `self.last_ttps`, `None` until the first extraction sets it. */
    var lastTtps: Option<seq<string>>

    /** Observations passed to `mitigator.apply`, in call order. */
    ghost var Mitigations: seq<Observation>
    /** Observations taken off the queue by the consumer, in order. */
    ghost var Taken: seq<Observation>
    /** Observations ever put on the queue, in order. */
    ghost var Enqueued: seq<Observation>
    /** Threads started by `start`. */
    ghost var SensorThreads: nat
    ghost var ConsumerThreads: nat
    /** Calls of `export_report`, in order. */
    ghost var Reports: seq<Report>

    /** The queue is FIFO (what was taken, then what waits, is what was enqueued); at most one mitigation per taken observation. */
    ghost predicate Valid()
      reads this
    {
      Taken + queue == Enqueued && |Mitigations| <= |Taken|
    }

    /** The consumer's view of this object. */
    ghost function Snapshot(): Pipe
      reads this
    {
      Pipe(queue, logs, Mitigations, Taken)
    }

    constructor ()
      ensures Valid()
      ensures queue == [] && !running && logs == [] && lastTtps == None
      ensures Mitigations == [] && Taken == [] && Enqueued == []
      ensures SensorThreads == 0 && ConsumerThreads == 0 && Reports == []
    {
      queue, running, logs, lastTtps := [], false, [], None;
      Mitigations, Taken, Enqueued := [], [], [];
      SensorThreads, ConsumerThreads, Reports := 0, 0, [];
    }

    /**
     * `start`: sets the flag first, then starts the two sensor threads and the
     * consumer thread. There is no guard against a second call: each call
     * starts a new set of threads. A failure is shown in the window only, so
     * the log is untouched, and the flag stays set.
     */
    method Start(launch: Launch)
      modifies this`running, this`SensorThreads, this`ConsumerThreads
      ensures running
      ensures SensorThreads == old(SensorThreads) + (match launch
        case Launched => 2
        case FaultBeforeThreads => 0
        case FaultAfterProcessThread => 1
        case FaultAfterNetworkThread => 2)
      ensures ConsumerThreads == old(ConsumerThreads) + (if launch.Launched? then 1 else 0)
    {
      running := true;
      match launch {
        case Launched =>
          SensorThreads := SensorThreads + 2;
          ConsumerThreads := ConsumerThreads + 1;
        case FaultBeforeThreads =>
        case FaultAfterProcessThread =>
          SensorThreads := SensorThreads + 1;
        case FaultAfterNetworkThread =>
          SensorThreads := SensorThreads + 2;
      }
    }

    /** `stop`: clears the flag; every consumer leaves its loop at its next check. */
    method Stop()
      modifies this`running
      ensures !running
    {
      running := false;
    }

    /** `_safe_run`: a sensor that crashes leaves exactly one entry in the log; the flag is not touched. */
    method SafeRun(end: SensorEnd)
      modifies this`logs
      ensures logs == old(logs) + (if end.Crashed? then [MonitorCrash] else [])
      ensures running == old(running)
    {
      if end.Crashed? {
        logs := logs + [MonitorCrash];
      }
    }

    /** One iteration of the `consume` loop. */
    method ConsumeStep(t: Tick)
      requires Valid()
      modifies this`queue, this`logs, this`Mitigations, this`Taken, this`Enqueued
      ensures Valid()
      ensures Snapshot() == Step(old(Snapshot()), t)
      ensures Enqueued == old(Enqueued) + t.arrivals
    {
      ghost var before := Snapshot();
      queue := queue + t.arrivals;
      Enqueued := Enqueued + t.arrivals;
      if queue == [] {
        return;  // queue.Empty: go round again
      }
      var features := queue[0];
      ghost var e := Handle(features, t);
      assert Step(before, t) == Pipe(queue[1..], before.logs + e.entries, before.mitigations + e.calls, before.taken + [features]);
      queue := queue[1..];
      Taken := Taken + [features];

      var prediction: int, score: real;
      match t.verdict {
        case Classified(l, s) =>
          prediction, score := l, s;
        case ModelFault =>
          prediction, score := DefaultLabel, DefaultScore;  // only printed, nothing logged
      }

      if t.glitch == FormatFault {
        logs := logs + [ConsumerError];
        return;
      }
      logs := logs + [Alert(features, prediction, score)];
      if t.glitch == AlertDisplayFault {
        logs := logs + [ConsumerError];
        return;
      }

      if prediction == Anomalous {
        Mitigations := Mitigations + [features];
        if t.mitigation == MitigationFault {
          logs := logs + [MitigationError];
          if t.glitch == ErrorDisplayFault {
            logs := logs + [ConsumerError];
          }
        }
      }
    }

    /**
     * `consume`: while the flag is set, one iteration per tick. With the flag
     * clear the loop is not entered at all.
     */
    method Consume(ticks: seq<Tick>)
      requires Valid()
      modifies this`queue, this`logs, this`Mitigations, this`Taken, this`Enqueued
      ensures Valid()
      ensures Snapshot() == if old(running) then Run(old(Snapshot()), ticks) else old(Snapshot())
      ensures Enqueued == old(Enqueued) + if old(running) then Arrivals(ticks) else []
    {
      if !running {
        return;
      }
      ghost var start, enqueued := Snapshot(), Enqueued;
      var i := 0;
      while i < |ticks|
        invariant 0 <= i <= |ticks| && running
        invariant Valid()
        invariant Snapshot() == Run(start, ticks[..i])
      {
        ghost var prefix := ticks[..i + 1];
        assert Run(start, prefix) == Step(Run(start, ticks[..i]), ticks[i]) by {
          assert prefix[..i] == ticks[..i] && prefix[i] == ticks[i];
        }
        ConsumeStep(ticks[i]);
        i := i + 1;
      }
      assert ticks[..i] == ticks;
      assert Enqueued == enqueued + Arrivals(ticks) by {
        RunFifo(start, ticks);
      }
    }

    /**
     * `extract_ttps`: a failing dialog changes nothing here; a cancelled one sets
     * the indicators to empty; otherwise the inferred indicators are logged and
     * kept, or a failure is logged and they become empty.
     */
    method ExtractTtps(choice: FileChoice, inference: TtpInference)
      modifies this`logs, this`lastTtps
      ensures choice.DialogFault? ==> logs == old(logs) && lastTtps == old(lastTtps)
      ensures choice == Chosen([]) ==> logs == old(logs) && lastTtps == Some([])
      ensures choice.Chosen? && choice.fname != [] ==>
        match inference
        case Inferred(ttps) => logs == old(logs) + [TtpExtracted(ttps)] && lastTtps == Some(ttps)
        case InferenceFault => logs == old(logs) + [TtpExtractionError] && lastTtps == Some([])
    {
      if choice.Chosen? {
        if choice.fname != [] {
          match inference {
            case Inferred(ttps) =>
              logs := logs + [TtpExtracted(ttps)];
              lastTtps := Some(ttps);
            case InferenceFault =>
              logs := logs + [TtpExtractionError];
              lastTtps := Some([]);
          }
        } else {
          lastTtps := Some([]);
        }
      }
    }

    /**
     * `export_pdf`: with a file name, the report gets the log as it stands and
     * the last indicators (empty if never extracted); a failed export is logged.
     */
    method ExportPdf(choice: FileChoice, outcome: ExportResult)
      modifies this`logs, this`Reports
      ensures choice.Chosen? && choice.fname != [] ==>
        && Reports == old(Reports) + [Report(old(logs), lastTtps.GetOr([]), choice.fname)]
        && logs == old(logs) + (if outcome.ExportFault? then [ReportExportError] else [])
      ensures !(choice.Chosen? && choice.fname != []) ==> logs == old(logs) && Reports == old(Reports)
    {
      if choice.Chosen? && choice.fname != [] {
        var ttps := lastTtps.GetOr([]);
        Reports := Reports + [Report(logs, ttps, choice.fname)];
        if outcome.ExportFault? {
          logs := logs + [ReportExportError];
        }
      }
    }
  }
}
