/**
 * The result checks (heimon/tests.py): seven decisions over a probe's
 * result record, each raising alerts, run in order by a TestRunner that
 * stops after the first check that does not pass. The last check updates
 * the shared heimdall tracker.
 */
module Checks {
  import opened Wrappers
  import opened PyText
  import opened Parsers
  import opened Alerts
  import opened Tracker

  /** The result's 'usercount' entry. */
  datatype Usercount = Usercount(current: int, maximum: int)

  /** The result's 'which' dictionary: one record per component seen, and the delay. */
  datatype Which = Which(heimdall: Option<HeimdallInfo>, horton: Option<HortonInfo>, tribble: Option<TribbleInfo>, delay: Option<real>)

  /**
   * The result dictionary of one probe run. A falsy 'usercount' (never
   * reported) is `None`.
   */
  datatype ProbeResult = ProbeResult(isError: bool, errorMsg: string, usercount: Option<Usercount>, which: Which)

  /** The entries of the runner's shared configuration dictionary the checks read; `None` when absent. */
  datatype Config = Config(usercountThreshold: Option<real>, delayThreshold: Option<real>)

  /** The configuration the monitor installs: 10.0 percent and 5 seconds. */
  const MonitorConfig: Config := Config(Some(10.0), Some(5.0))

  /** The shared tracker as the checks see it: its last check time and its dictionary. */
  datatype Tracked = Tracked(lastCheck: real, ledger: Ledger)

  datatype Check =
    | NoError
    | UserCountPresent
    | UserCountAboveThreshold
    | AllComponentsPresent
    | WhichDelayAboveThreshold
    | GlobalIdInSync
    | NoHeimdallsAreMissing

  /** The seven defined checks, in the monitor's order. */
  const MonitorChecks: seq<Check> := [
    NoError, UserCountPresent, UserCountAboveThreshold, AllComponentsPresent,
    WhichDelayAboveThreshold, GlobalIdInSync, NoHeimdallsAreMissing
  ]

  /** What a check's `test` does: return True, return False, or raise. */
  datatype Verdict = Pass | Fail | Raised(error: PyError)

  datatype Outcome = Outcome(alerts: seq<Alert>, verdict: Verdict)

  /** TestNoError: fails, with the probe's error message, exactly when the probe reported an error. */
  function NoErrorCheck(r: ProbeResult): (o: Outcome)
    ensures o.verdict == Fail <==> r.isError
    ensures o.verdict == Pass <==> !r.isError
    ensures r.isError ==> o.alerts == [CycleFailed(r.errorMsg)]
    ensures !r.isError ==> o.alerts == []
  {
    if r.isError then Outcome([CycleFailed(r.errorMsg)], Fail) else Outcome([], Pass)
  }

  /** TestUserCountPresent: fails with one alert exactly when no user count was reported. */
  function UserCountPresentCheck(r: ProbeResult): (o: Outcome)
    ensures o.verdict == Fail <==> r.usercount.None?
    ensures o.verdict == Pass <==> r.usercount.Some?
    ensures o.alerts == if r.usercount.None? then [UserCountNotAvailable] else []
  {
    if r.usercount.None? then Outcome([UserCountNotAvailable], Fail) else Outcome([], Pass)
  }

  /**
   * TestUserCountAboveThreshold: never fails. With a threshold it alerts,
   * with the same "not available" text as TestUserCountPresent, when the
   * current count is at or below it; without one it reports the missing
   * entry. Reading an absent user count raises TypeError.
   */
  function UserCountAboveThresholdCheck(r: ProbeResult, cfg: Config): (o: Outcome)
    ensures o.verdict != Fail
    ensures o.verdict.Raised? <==> cfg.usercountThreshold.Some? && r.usercount.None?
    ensures o.verdict.Raised? ==> o.verdict.error == TypeError && o.alerts == []
    ensures cfg.usercountThreshold.None? ==> o.alerts == [ConfigMissing("usercount_threshold")]
    ensures cfg.usercountThreshold.Some? && r.usercount.Some? ==>
      (o.alerts == [UserCountNotAvailable] <==> r.usercount.value.current as real <= cfg.usercountThreshold.value)
    ensures |o.alerts| <= 1
  {
    match cfg.usercountThreshold
    case None => Outcome([ConfigMissing("usercount_threshold")], Pass)
    case Some(threshold) =>
      match r.usercount
      case None => Outcome([], Raised(TypeError))
      case Some(u) =>
        if u.current as real <= threshold then Outcome([UserCountNotAvailable], Pass) else Outcome([], Pass)
  }

  /** The "component missing" alert for one absent component, reporting the heimdall's port and id. */
  function ComponentAlerts(present: bool, component: string, h: HeimdallInfo): seq<Alert>
  {
    if present then [] else [ComponentMissing(component, h.port, h.id)]
  }

  /**
   * TestAllComponentsPresent: without a heimdall record, one bug alert and
   * a failure; otherwise one alert per absent component, horton before
   * tribble, and a pass exactly when both are present.
   */
  function AllComponentsPresentCheck(r: ProbeResult): (o: Outcome)
    ensures o.verdict != Raised(KeyError) && !o.verdict.Raised?
    ensures r.which.heimdall.None? ==> o == Outcome([HeimdallNotInResult], Fail)
    ensures r.which.heimdall.Some? ==>
      (o.verdict == Pass <==> r.which.horton.Some? && r.which.tribble.Some?)
    ensures r.which.heimdall.Some? ==>
      |o.alerts| == (if r.which.horton.None? then 1 else 0) + (if r.which.tribble.None? then 1 else 0)
    ensures r.which.heimdall.Some? && r.which.horton.None? ==>
      o.alerts[0] == ComponentMissing("horton", r.which.heimdall.value.port, r.which.heimdall.value.id)
    ensures r.which.heimdall.Some? && r.which.tribble.None? ==>
      o.alerts[|o.alerts| - 1] == ComponentMissing("tribble", r.which.heimdall.value.port, r.which.heimdall.value.id)
  {
    match r.which.heimdall
    case None => Outcome([HeimdallNotInResult], Fail)
    case Some(h) =>
      var alerts := ComponentAlerts(r.which.horton.Some?, "horton", h) + ComponentAlerts(r.which.tribble.Some?, "tribble", h);
      Outcome(alerts, if alerts == [] then Pass else Fail)
  }

  /**
   * TestWhichDelayAboveThreshold: with a threshold, fails with one alert
   * exactly when the delay exceeds it (an absent delay raises KeyError);
   * without one, reports the missing entry and passes.
   */
  function WhichDelayCheck(r: ProbeResult, cfg: Config): (o: Outcome)
    ensures o.verdict.Raised? <==> cfg.delayThreshold.Some? && r.which.delay.None?
    ensures o.verdict.Raised? ==> o.verdict.error == KeyError && o.alerts == []
    ensures cfg.delayThreshold.None? ==> o == Outcome([ConfigMissing("delay_threshold")], Pass)
    ensures cfg.delayThreshold.Some? && r.which.delay.Some? ==>
      (o.verdict == Fail <==> r.which.delay.value > cfg.delayThreshold.value)
    ensures o.verdict == Fail ==> o.alerts == [DelayAboveThreshold(r.which.delay.value, cfg.delayThreshold.value)]
    ensures o.verdict == Pass && cfg.delayThreshold.Some? ==> o.alerts == []
  {
    match cfg.delayThreshold
    case None => Outcome([ConfigMissing("delay_threshold")], Pass)
    case Some(threshold) =>
      match r.which.delay
      case None => Outcome([], Raised(KeyError))
      case Some(d) =>
        if d > threshold then Outcome([DelayAboveThreshold(d, threshold)], Fail) else Outcome([], Pass)
  }

  /** The global id a component reports, -1 for an absent component. */
  function HortonGlobalId(w: Which): Value
  {
    if w.horton.None? then Int(-1) else w.horton.value.my.globalId
  }

  function TribbleGlobalId(w: Which): Value
  {
    if w.tribble.None? then Int(-1) else w.tribble.value.my.globalId
  }

  /**
   * TestGlobalIdInSync: without a heimdall record, KeyError; otherwise a
   * pass exactly when heimdall, horton and tribble report the same global
   * id (-1 standing for an absent component), and one alert otherwise.
   */
  function GlobalIdInSyncCheck(r: ProbeResult): (o: Outcome)
    ensures r.which.heimdall.None? ==> o == Outcome([], Raised(KeyError))
    ensures r.which.heimdall.Some? ==> !o.verdict.Raised?
    ensures r.which.heimdall.Some? ==>
      var g := r.which.heimdall.value.my.globalId;
      (o.verdict == Pass <==> g == HortonGlobalId(r.which) && g == TribbleGlobalId(r.which))
    ensures o.verdict == Fail ==>
      o.alerts == [GlobalIdDesync(r.which.heimdall.value.my.globalId, HortonGlobalId(r.which), TribbleGlobalId(r.which))]
    ensures o.verdict == Pass ==> o.alerts == []
  {
    match r.which.heimdall
    case None => Outcome([], Raised(KeyError))
    case Some(h) =>
      var ids := (h.my.globalId, HortonGlobalId(r.which), TribbleGlobalId(r.which));
      if ids.0 == ids.1 && ids.1 == ids.2 then Outcome([], Pass)
      else Outcome([GlobalIdDesync(ids.0, ids.1, ids.2)], Fail)
  }

  /** One "has been missing" alert per id, with the seconds since it was last seen. */
  function MissingAlerts(ids: seq<Value>, entries: map<Value, Entry>, now: real): (alerts: seq<Alert>)
    requires forall k :: 0 <= k < |ids| ==> ids[k] in entries
    ensures |alerts| == |ids|
    ensures forall k :: 0 <= k < |ids| ==> alerts[k] == HeimdallMissing(ids[k], now - entries[ids[k]].tsLastSeen)
  {
    if ids == [] then []
    else
      var last := ids[|ids| - 1];
      MissingAlerts(ids[..|ids| - 1], entries, now) + [HeimdallMissing(last, now - entries[last].tsLastSeen)]
  }

  /**
   * TestNoHeimdallsAreMissing, with the missing ids handed back by
   * `find_missing` as the check expects them: without a tracker, one bug
   * alert and a failure; otherwise the last check time becomes now, the
   * result's heimdall is marked seen (KeyError without one), the missing
   * entries are stamped and each raises one alert, in insertion order; the
   * check then passes.
   */
  function NoHeimdallsMissingCheck(r: ProbeResult, t: Option<Tracked>, now: real): (res: (Outcome, Option<Tracked>))
    ensures t.None? ==> res == (Outcome([ConfigMissing("heimdall_tracker")], Fail), None)
    ensures t.Some? ==> res.1.Some? && res.1.value.lastCheck == now
    ensures t.Some? && r.which.heimdall.None? ==> res == (Outcome([], Raised(KeyError)), Some(t.value.(lastCheck := now)))
    ensures t.Some? && r.which.heimdall.Some? ==> res.0.verdict == Pass
  {
    match t
    case None => (Outcome([ConfigMissing("heimdall_tracker")], Fail), None)
    case Some(tr) =>
      match r.which.heimdall
      case None => (Outcome([], Raised(KeyError)), Some(tr.(lastCheck := now)))
      case Some(h) =>
        var (alerts, after) := TrackerPass(tr, h.id, now);
        (Outcome(alerts, Pass), Some(after))
  }

  /**
   * The tracker's part of the check once the result's heimdall is known:
   * mark it seen, stamp and report the missing entries, note the time.
   */
  function TrackerPass(tr: Tracked, hid: Value, now: real): (res: (seq<Alert>, Tracked))
    ensures res.1.lastCheck == now
    ensures res.1.ledger.entries.Keys == tr.ledger.entries.Keys + {hid}
  {
    var seen := Seen(tr.ledger, hid, now);
    var missing := MissingIds(seen, now);
    var stamped := Stamped(seen, now);
    (SeenAlerts(tr.ledger, hid) + MissingAlerts(missing, stamped.entries, now), Tracked(now, stamped))
  }

  /**
   * TestNoHeimdallsAreMissing as written: the object `find_missing` hands
   * back is the filter iterator its own stamping loop already consumed, so
   * the check's alert loop runs zero times. The tracker changes as above;
   * the bug alert without a tracker and `update_heimdall`'s unknown-id
   * alert are still raised, and only the "has been missing" alerts that
   * end the corrected check's list are lost.
   */
  function NoHeimdallsMissingCheckAsWritten(r: ProbeResult, t: Option<Tracked>, now: real): (res: (Outcome, Option<Tracked>))
    ensures res.1 == NoHeimdallsMissingCheck(r, t, now).1
    ensures res.0.verdict == NoHeimdallsMissingCheck(r, t, now).0.verdict
    ensures forall k :: 0 <= k < |res.0.alerts| ==> !res.0.alerts[k].HeimdallMissing?
    ensures t.None? ==> res.0 == Outcome([ConfigMissing("heimdall_tracker")], Fail)
    ensures t.Some? && r.which.heimdall.None? ==> res.0 == Outcome([], Raised(KeyError))
    ensures t.Some? && r.which.heimdall.Some? ==> res.0.alerts == SeenAlerts(t.value.ledger, r.which.heimdall.value.id)
    ensures var full := NoHeimdallsMissingCheck(r, t, now).0.alerts;
      && res.0.alerts <= full
      && forall k :: |res.0.alerts| <= k < |full| ==> full[k].HeimdallMissing?
  {
    match t
    case None => (Outcome([ConfigMissing("heimdall_tracker")], Fail), None)
    case Some(tr) =>
      match r.which.heimdall
      case None => (Outcome([], Raised(KeyError)), Some(tr.(lastCheck := now)))
      case Some(h) =>
        var seen := Seen(tr.ledger, h.id, now);
        (Outcome(SeenAlerts(tr.ledger, h.id), Pass), Some(Tracked(now, Stamped(seen, now))))
  }

  /**
   * With a tracker and a heimdall record, the check marks that heimdall
   * seen, then stamps the missing entries; its alerts are the unknown-id
   * alert, if any, followed by one alert per missing id.
   */
  lemma NoHeimdallsMissingUpdates(r: ProbeResult, tr: Tracked, now: real)
    requires WellFormed(tr.ledger) && r.which.heimdall.Some?
    ensures var seen := Seen(tr.ledger, r.which.heimdall.value.id, now);
      var res := NoHeimdallsMissingCheck(r, Some(tr), now);
      && res.1 == Some(Tracked(now, Stamped(seen, now)))
      && res.1.value.ledger.entries.Keys == tr.ledger.entries.Keys + {r.which.heimdall.value.id}
      && |res.0.alerts| == |SeenAlerts(tr.ledger, r.which.heimdall.value.id)| + |MissingIds(seen, now)|
  {
  }

  /**
   * Every missing heimdall is reported by the corrected check, and no
   * other: an id gets a "has been missing" alert exactly when its entry is
   * missing after the result's heimdall was marked seen; that heimdall
   * itself is never reported.
   */
  lemma NoHeimdallsMissingReports(r: ProbeResult, tr: Tracked, now: real, id: Value)
    requires WellFormed(tr.ledger) && r.which.heimdall.Some?
    ensures var seen := Seen(tr.ledger, r.which.heimdall.value.id, now);
      (exists d :: HeimdallMissing(id, d) in NoHeimdallsMissingCheck(r, Some(tr), now).0.alerts) <==>
      id in seen.entries && IsMissing(seen.entries[id], now)
    ensures forall d :: HeimdallMissing(r.which.heimdall.value.id, d) !in NoHeimdallsMissingCheck(r, Some(tr), now).0.alerts
  {
    var hid := r.which.heimdall.value.id;
    var seen := Seen(tr.ledger, hid, now);
    var missing := MissingIds(seen, now);
    var stamped := Stamped(seen, now);
    var alerts := NoHeimdallsMissingCheck(r, Some(tr), now).0.alerts;
    assert alerts == TrackerPass(tr, hid, now).0;
    var tail := MissingAlerts(missing, stamped.entries, now);
    assert alerts == SeenAlerts(tr.ledger, hid) + tail;
    MissingIdsIff(seen, now, id);
    MissingAlertsFor(missing, stamped.entries, now, id);
    SeenNotReported(tr.ledger, hid, now, now);
    MissingAlertsFor(missing, stamped.entries, now, hid);
  }

  /** The alerts of a list of missing ids name exactly those ids. */
  lemma MissingAlertsFor(ids: seq<Value>, entries: map<Value, Entry>, now: real, id: Value)
    requires forall k :: 0 <= k < |ids| ==> ids[k] in entries
    ensures (exists d :: HeimdallMissing(id, d) in MissingAlerts(ids, entries, now)) <==> id in ids
  {
    var alerts := MissingAlerts(ids, entries, now);
    if id in ids {
      var k :| 0 <= k < |ids| && ids[k] == id;
      assert alerts[k] in alerts;
    }
    if d :| HeimdallMissing(id, d) in alerts {
      var k :| 0 <= k < |alerts| && alerts[k] == HeimdallMissing(id, d);
      assert ids[k] == id;
    }
  }

  /**
   * The discrepancy: heimdall 1, added at 0 and never seen since, is
   * missing at time 100 while heimdall 2 reports in. The corrected check
   * reports heimdall 1; the check as written reports nothing.
   */
  lemma MissingHeimdallUnreportedAsWritten()
    ensures var l := Inserted(Inserted(Empty, Int(1), 0.0), Int(2), 0.0);
      var r := ProbeResult(false, "", Some(Usercount(1, 1)),
        Which(Some(HeimdallInfo(Int(2), Int(6500), Int(0), Int(1), HeimdallMine(Int(0), Int(7), Int(0)))), None, None, Some(1.0)));
      && NoHeimdallsMissingCheck(r, Some(Tracked(0.0, l)), 100.0).0.alerts == [HeimdallMissing(Int(1), 100.0)]
      && NoHeimdallsMissingCheckAsWritten(r, Some(Tracked(0.0, l)), 100.0).0.alerts == []
  {
    var l := Inserted(Inserted(Empty, Int(1), 0.0), Int(2), 0.0);
    ExamplePass();
    assert SeenAlerts(l, Int(2)) == [];
  }

  /** The tracker pass of the example above: heimdall 1 is reported, heimdall 2 is not. */
  lemma ExamplePass()
    ensures var l := Inserted(Inserted(Empty, Int(1), 0.0), Int(2), 0.0);
      TrackerPass(Tracked(0.0, l), Int(2), 100.0).0 == [HeimdallMissing(Int(1), 100.0)]
  {
    var l := Inserted(Inserted(Empty, Int(1), 0.0), Int(2), 0.0);
    AddTwo(Int(1), Int(2), 0.0);
    var seen := Seen(l, Int(2), 100.0);
    ExampleMissing(seen);
    ExampleReport(seen);
  }

  /** A tracker built by adding two different ids to an empty one lists them in that order. */
  lemma AddTwo(a: Value, b: Value, t: real)
    requires a != b
    ensures var l := Inserted(Inserted(Empty, a, t), b, t);
      && l.order == [a, b]
      && b in l.entries
      && l.entries[a] == FreshEntry(a, t)
  {
    assert Inserted(Empty, a, t).order == [a];
  }

  /** In the example, only heimdall 1 is missing at time 100. */
  lemma ExampleMissing(seen: Ledger)
    requires seen.order == [Int(1), Int(2)] && Int(1) in seen.entries && Int(2) in seen.entries
    requires seen.entries[Int(1)] == FreshEntry(Int(1), 0.0) && seen.entries[Int(2)].tsLastSeen == 100.0
    ensures MissingIds(seen, 100.0) == [Int(1)]
  {
    assert IsMissing(seen.entries[Int(1)], 100.0) && !IsMissing(seen.entries[Int(2)], 100.0);
    assert seen.order[..1] == [Int(1)] && [Int(1)][..0] == [];
    assert MissingAmong([], seen.entries, 100.0) == [];
    assert MissingAmong([Int(1)], seen.entries, 100.0) == [Int(1)];
  }

  /** Heimdall 1's alert reports the 100 seconds since time 0. */
  lemma ExampleReport(seen: Ledger)
    requires Int(1) in seen.entries && seen.entries[Int(1)].tsLastSeen == 0.0
    ensures MissingAlerts([Int(1)], Stamped(seen, 100.0).entries, 100.0) == [HeimdallMissing(Int(1), 100.0)]
  {
    StampAlongEach(seen.order, seen.entries, 100.0);
    assert [Int(1)][..0] == [];
  }

  /** The outcome of a check that reads only the result and the configuration. */
  function DecideCheck(c: Check, r: ProbeResult, cfg: Config): Outcome
    requires c != NoHeimdallsAreMissing
  {
    match c
    case NoError => NoErrorCheck(r)
    case UserCountPresent => UserCountPresentCheck(r)
    case UserCountAboveThreshold => UserCountAboveThresholdCheck(r, cfg)
    case AllComponentsPresent => AllComponentsPresentCheck(r)
    case WhichDelayAboveThreshold => WhichDelayCheck(r, cfg)
    case GlobalIdInSync => GlobalIdInSyncCheck(r)
  }

  /** Dispatch: one check's outcome and the tracker after it. */
  function RunCheck(c: Check, r: ProbeResult, cfg: Config, t: Option<Tracked>, now: real): (res: (Outcome, Option<Tracked>))
  {
    if c == NoHeimdallsAreMissing then NoHeimdallsMissingCheck(r, t, now) else (DecideCheck(c, r, cfg), t)
  }

  /**
   * What `TestRunner.test` does: how many checks ran, the alerts in order,
   * the tracker afterwards, the exception that escaped (if any), and
   * whether it stopped before the end of the list.
   */
  datatype Run = Run(invoked: nat, alerts: seq<Alert>, tracker: Option<Tracked>, raised: Option<PyError>, stopped: bool)

  /** The effect of one check, given the tracker it finds. */
  type Step = (Check, Option<Tracked>) -> (Outcome, Option<Tracked>)

  /**
   * The loop of `TestRunner.test` for any checks: run them in order, up to
   * and including the first that does not pass.
   */
  function RunChecks(checks: seq<Check>, step: Step, t: Option<Tracked>): (run: Run)
    ensures run.invoked <= |checks|
    ensures !run.stopped ==> run.invoked == |checks| && run.raised.None?
    ensures run.raised.Some? ==> run.stopped
    ensures checks != [] ==> run.invoked >= 1
    decreases |checks|
  {
    if checks == [] then Run(0, [], t, None, false)
    else
      var res := step(checks[0], t);
      match res.0.verdict
      case Pass =>
        var rest := RunChecks(checks[1..], step, res.1);
        Run(rest.invoked + 1, res.0.alerts + rest.alerts, rest.tracker, rest.raised, rest.stopped)
      case Fail => Run(1, res.0.alerts, res.1, None, true)
      case Raised(e) => Run(1, res.0.alerts, res.1, Some(e), true)
  }

  /** The checks of this module, on one probe result, configuration and clock reading. */
  function CheckStep(r: ProbeResult, cfg: Config, now: real): Step
  {
    (c: Check, t: Option<Tracked>) => RunCheck(c, r, cfg, t, now)
  }

  /** `TestRunner.test` on a probe result. */
  function Chain(checks: seq<Check>, r: ProbeResult, cfg: Config, t: Option<Tracked>, now: real): Run
  {
    RunChecks(checks, CheckStep(r, cfg, now), t)
  }

  /** One turn of the runner: the first check's outcome decides whether the rest run. */
  lemma ChainFirst(checks: seq<Check>, r: ProbeResult, cfg: Config, t: Option<Tracked>, now: real)
    requires checks != []
    ensures var res := RunCheck(checks[0], r, cfg, t, now);
      var run := Chain(checks, r, cfg, t, now);
      var rest := Chain(checks[1..], r, cfg, res.1, now);
      && (res.0.verdict == Pass ==> run == Run(rest.invoked + 1, res.0.alerts + rest.alerts, rest.tracker, rest.raised, rest.stopped))
      && (res.0.verdict == Fail ==> run == Run(1, res.0.alerts, res.1, None, true))
      && (res.0.verdict.Raised? ==> run == Run(1, res.0.alerts, res.1, Some(res.0.verdict.error), true))
  {
    assert CheckStep(r, cfg, now)(checks[0], t) == RunCheck(checks[0], r, cfg, t, now);
  }

  /**
   * The runner after `done` checks passed, having emitted `emitted` and
   * left the tracker at `t`: running the remaining checks from there
   * finishes the run that started from `start`.
   */
  ghost predicate Resumes(checks: seq<Check>, r: ProbeResult, cfg: Config, now: real, start: Option<Tracked>, done: nat, emitted: seq<Alert>, t: Option<Tracked>)
    requires done <= |checks|
  {
    var rest := Chain(checks[done..], r, cfg, t, now);
    Chain(checks, r, cfg, start, now) == Run(done + rest.invoked, emitted + rest.alerts, rest.tracker, rest.raised, rest.stopped)
  }

  /**
   * Running check number `done` next either passes and leaves the rest to
   * run, or ends the chain with its outcome.
   */
  lemma ChainAdvance(checks: seq<Check>, done: nat, r: ProbeResult, cfg: Config, start: Option<Tracked>, t: Option<Tracked>, emitted: seq<Alert>, now: real)
    requires done < |checks|
    requires Resumes(checks, r, cfg, now, start, done, emitted, t)
    ensures var res := RunCheck(checks[done], r, cfg, t, now);
      && (res.0.verdict == Pass ==> Resumes(checks, r, cfg, now, start, done + 1, emitted + res.0.alerts, res.1))
      && (res.0.verdict != Pass ==>
            Chain(checks, r, cfg, start, now)
              == Run(done + 1, emitted + res.0.alerts, res.1, if res.0.verdict.Raised? then Some(res.0.verdict.error) else None, true))
  {
    assert checks[done..][0] == checks[done] && checks[done..][1..] == checks[done + 1..];
    ChainFirst(checks[done..], r, cfg, t, now);
    var res := RunCheck(checks[done], r, cfg, t, now);
    if res.0.verdict == Pass {
      var rest := Chain(checks[done + 1..], r, cfg, res.1, now);
      assert emitted + (res.0.alerts + rest.alerts) == (emitted + res.0.alerts) + rest.alerts;
    }
  }

  /** Every check run and passed: the run is over. */
  lemma ChainDone(checks: seq<Check>, r: ProbeResult, cfg: Config, start: Option<Tracked>, t: Option<Tracked>, emitted: seq<Alert>, now: real)
    requires Resumes(checks, r, cfg, now, start, |checks|, emitted, t)
    ensures Chain(checks, r, cfg, start, now) == Run(|checks|, emitted, t, None, false)
  {
    assert checks[|checks|..] == [];
  }

  /**
   * Once a prefix of the checks stops the runner, nothing after it runs:
   * appending checks changes neither the count nor the alerts nor the tracker.
   */
  lemma {:induction false} RunStopsAtFirstFailure(checks: seq<Check>, more: seq<Check>, step: Step, t: Option<Tracked>)
    requires RunChecks(checks, step, t).stopped
    ensures RunChecks(checks + more, step, t) == RunChecks(checks, step, t)
    decreases |checks|
  {
    var res := step(checks[0], t);
    assert (checks + more)[0] == checks[0];
    if res.0.verdict == Pass {
      assert (checks + more)[1..] == checks[1..] + more;
      RunStopsAtFirstFailure(checks[1..], more, step, res.1);
    }
  }

  /** When every check of a prefix passes, the rest of the list runs after it, on the tracker it left. */
  lemma {:induction false} RunContinues(checks: seq<Check>, more: seq<Check>, step: Step, t: Option<Tracked>)
    requires !RunChecks(checks, step, t).stopped
    ensures var first := RunChecks(checks, step, t);
      var rest := RunChecks(more, step, first.tracker);
      RunChecks(checks + more, step, t) == Run(first.invoked + rest.invoked, first.alerts + rest.alerts, rest.tracker, rest.raised, rest.stopped)
    decreases |checks|
  {
    if checks == [] {
      assert checks + more == more;
    } else {
      var res := step(checks[0], t);
      assert (checks + more)[0] == checks[0];
      assert (checks + more)[1..] == checks[1..] + more;
      RunContinues(checks[1..], more, step, res.1);
    }
  }

  /** A probe that reported an error stops the monitor's checks at the first, with its message. */
  lemma ErrorStopsMonitorChecks(r: ProbeResult, cfg: Config, t: Option<Tracked>, now: real)
    requires r.isError
    ensures Chain(MonitorChecks, r, cfg, t, now) == Run(1, [CycleFailed(r.errorMsg)], t, None, true)
  {
  }

  /**
   * In the monitor's order, every check that would raise on a missing
   * entry is guarded by an earlier check, except the delay: the only
   * exception that can escape is KeyError from a result without a delay.
   */
  lemma MonitorChecksRaiseOnlyWithoutDelay(r: ProbeResult, cfg: Config, t: Option<Tracked>, now: real)
    ensures Chain(MonitorChecks, r, cfg, t, now).raised.Some? ==>
      Chain(MonitorChecks, r, cfg, t, now).raised == Some(KeyError)
      && cfg.delayThreshold.Some? && r.which.delay.None?
  {
    ChainFirst(MonitorChecks, r, cfg, t, now);
    if !r.isError {
      PresentGuardRaise(r, cfg, t, now);
    }
  }

  /** From TestUserCountPresent on, the monitor's checks raise only for an absent delay. */
  lemma PresentGuardRaise(r: ProbeResult, cfg: Config, t: Option<Tracked>, now: real)
    ensures var run := Chain(MonitorChecks[1..], r, cfg, t, now);
      run.raised.Some? ==> run.raised == Some(KeyError) && cfg.delayThreshold.Some? && r.which.delay.None?
  {
    var cs := MonitorChecks[1..];
    ChainFirst(cs, r, cfg, t, now);
    if r.usercount.Some? {
      assert cs[1..] == MonitorChecks[2..];
      ThresholdGuardRaise(r, cfg, t, now);
    }
  }

  /** With a user count, from TestUserCountAboveThreshold on, the checks raise only for an absent delay. */
  lemma ThresholdGuardRaise(r: ProbeResult, cfg: Config, t: Option<Tracked>, now: real)
    requires r.usercount.Some?
    ensures var run := Chain(MonitorChecks[2..], r, cfg, t, now);
      run.raised.Some? ==> run.raised == Some(KeyError) && cfg.delayThreshold.Some? && r.which.delay.None?
  {
    var cs := MonitorChecks[2..];
    ChainFirst(cs, r, cfg, t, now);
    assert cs[1..] == [AllComponentsPresent, WhichDelayAboveThreshold, GlobalIdInSync, NoHeimdallsAreMissing];
    ComponentsGuardRaise(r, cfg, t, now);
  }

  /**
   * From TestAllComponentsPresent on, the monitor's checks raise only
   * KeyError, and only for a result without a delay.
   */
  lemma ComponentsGuardRaise(r: ProbeResult, cfg: Config, t: Option<Tracked>, now: real)
    ensures var run := Chain([AllComponentsPresent, WhichDelayAboveThreshold, GlobalIdInSync, NoHeimdallsAreMissing], r, cfg, t, now);
      run.raised.Some? ==> run.raised == Some(KeyError) && cfg.delayThreshold.Some? && r.which.delay.None?
  {
    var cs := [AllComponentsPresent, WhichDelayAboveThreshold, GlobalIdInSync, NoHeimdallsAreMissing];
    ChainFirst(cs, r, cfg, t, now);
    if r.which.heimdall.Some? {
      assert cs[1..] == [WhichDelayAboveThreshold, GlobalIdInSync, NoHeimdallsAreMissing];
      DelayGuardRaise(r, cfg, t, now);
    }
  }

  /** With a heimdall record, the last three checks raise only for an absent delay. */
  lemma DelayGuardRaise(r: ProbeResult, cfg: Config, t: Option<Tracked>, now: real)
    requires r.which.heimdall.Some?
    ensures var run := Chain([WhichDelayAboveThreshold, GlobalIdInSync, NoHeimdallsAreMissing], r, cfg, t, now);
      run.raised.Some? ==> run.raised == Some(KeyError) && cfg.delayThreshold.Some? && r.which.delay.None?
  {
    var cs := [WhichDelayAboveThreshold, GlobalIdInSync, NoHeimdallsAreMissing];
    ChainFirst(cs, r, cfg, t, now);
    assert cs[1..] == [GlobalIdInSync, NoHeimdallsAreMissing];
    LastChecksNeverRaise(r, cfg, t, now);
  }

  /** With a heimdall record, the last two checks raise nothing. */
  lemma LastChecksNeverRaise(r: ProbeResult, cfg: Config, t: Option<Tracked>, now: real)
    requires r.which.heimdall.Some?
    ensures Chain([GlobalIdInSync, NoHeimdallsAreMissing], r, cfg, t, now).raised.None?
  {
    var cs := [GlobalIdInSync, NoHeimdallsAreMissing];
    ChainFirst(cs, r, cfg, t, now);
    assert cs[1..] == [NoHeimdallsAreMissing];
    ChainFirst([NoHeimdallsAreMissing], r, cfg, t, now);
  }

  /**
   * TestRunner: the checks in order, the configuration dictionary they
   * share (with the tracker kept apart as the object it is), and the
   * alert sink every check reports to.
   */
  class TestRunner {
    const checks: seq<Check>
    var config: Config
    var tracker: Tracklist?
    const sink: AlertBuffer

    constructor(checks: seq<Check>, sink: AlertBuffer)
      ensures this.checks == checks && this.sink == sink
      ensures config == Config(None, None) && tracker == null
    {
      this.checks := checks;
      this.sink := sink;
      config := Config(None, None);
      tracker := null;
    }

    ghost function TrackedState(): Option<Tracked>
      reads this, tracker
    {
      if tracker == null then None else Some(Tracked(tracker.lastCheck, tracker.State()))
    }

    /** Raises each alert in order. */
    method Emit(alerts: seq<Alert>)
      modifies sink
      ensures sink.entries == old(sink.entries) + alerts
    {
      for k := 0 to |alerts|
        invariant sink.entries == old(sink.entries) + alerts[..k]
      {
        assert alerts[..k + 1] == alerts[..k] + [alerts[k]];
        sink.Alert(alerts[k]);
      }
      assert alerts[..|alerts|] == alerts;
    }

    /** TestNoHeimdallsAreMissing on the shared tracker object. */
    method NoHeimdallsMissing(r: ProbeResult, now: real) returns (verdict: Verdict)
      modifies sink, tracker
      ensures var (o, t) := NoHeimdallsMissingCheck(r, old(TrackedState()), now);
        sink.entries == old(sink.entries) + o.alerts && TrackedState() == t && verdict == o.verdict
    {
      if tracker == null {
        sink.Alert(ConfigMissing("heimdall_tracker"));
        return Fail;
      }
      tracker.UpdateLastCheck(now);
      if r.which.heimdall.None? {
        return Raised(KeyError);
      }
      var hid := r.which.heimdall.value.id;
      ghost var before := tracker.State();
      tracker.UpdateHeimdall(hid, now, sink);
      ghost var seen := tracker.State();
      var missing := tracker.FindMissing(now);
      ReportMissing(missing, now);
      AppendAssoc(old(sink.entries), SeenAlerts(before, hid), MissingAlerts(missing, tracker.heimdalls, now));
      assert TrackerPass(Tracked(old(tracker.lastCheck), before), hid, now)
        == (SeenAlerts(before, hid) + MissingAlerts(missing, tracker.heimdalls, now), Tracked(now, tracker.State()));
      return Pass;
    }

    /** The alert loop of TestNoHeimdallsAreMissing: one alert per id, with how long ago it was last seen. */
    method ReportMissing(missing: seq<Value>, now: real)
      requires tracker != null
      requires forall k :: 0 <= k < |missing| ==> missing[k] in tracker.heimdalls
      modifies sink
      ensures sink.entries == old(sink.entries) + MissingAlerts(missing, tracker.heimdalls, now)
    {
      for k := 0 to |missing|
        invariant sink.entries == old(sink.entries) + MissingAlerts(missing[..k], tracker.heimdalls, now)
      {
        var e := tracker.Get(missing[k]);
        var a := HeimdallMissing(missing[k], now - e.value.tsLastSeen);
        assert missing[..k + 1][..k] == missing[..k];
        assert MissingAlerts(missing[..k + 1], tracker.heimdalls, now) == MissingAlerts(missing[..k], tracker.heimdalls, now) + [a];
        AppendAssoc(old(sink.entries), MissingAlerts(missing[..k], tracker.heimdalls, now), [a]);
        sink.Alert(a);
      }
      assert missing[..|missing|] == missing;
    }

    /** One check's `test`. */
    method RunOne(c: Check, r: ProbeResult, now: real) returns (verdict: Verdict)
      modifies sink, tracker
      ensures var (o, t) := RunCheck(c, r, config, old(TrackedState()), now);
        sink.entries == old(sink.entries) + o.alerts && TrackedState() == t && verdict == o.verdict
    {
      if c == NoHeimdallsAreMissing {
        verdict := NoHeimdallsMissing(r, now);
      } else {
        var o := DecideCheck(c, r, config);
        Emit(o.alerts);
        verdict := o.verdict;
      }
    }

    /**
     * `test`: runs the checks in order and stops right after the first one
     * that does not pass; an exception a check raises escapes to the caller.
     */
    method Test(r: ProbeResult, now: real) returns (raised: Option<PyError>)
      modifies sink, tracker
      ensures var run := Chain(checks, r, config, old(TrackedState()), now);
        && sink.entries == old(sink.entries) + run.alerts
        && TrackedState() == run.tracker
        && raised == run.raised
    {
      ghost var start := TrackedState();
      ghost var t := start;
      ghost var emitted: seq<Alert> := [];
      var j := 0;
      while j < |checks|
        invariant 0 <= j <= |checks|
        invariant t == TrackedState()
        invariant sink.entries == old(sink.entries) + emitted
        invariant Resumes(checks, r, config, now, start, j, emitted, t)
      {
        ghost var res := RunCheck(checks[j], r, config, t, now);
        ChainAdvance(checks, j, r, config, start, t, emitted, now);
        var verdict := RunOne(checks[j], r, now);
        AppendAssoc(old(sink.entries), emitted, res.0.alerts);
        emitted := emitted + res.0.alerts;
        t := res.1;
        match verdict
        case Pass =>
          j := j + 1;
        case Fail =>
          return None;
        case Raised(e) =>
          return Some(e);
      }
      ChainDone(checks, r, config, start, t, emitted, now);
      return None;
    }
  }
}
