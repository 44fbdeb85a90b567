/** The statistics trigger of rmr_dump: any number of threads, no lock, one counter. Every atomic
    access is one step, and the steps of the threads interleave in any way. */
module Stats {

  /** Where a thread is inside a callback. */
  datatype Phase =
    | Counted                          // the message is counted, the trigger not yet touched
    | Took(curv: int)                  // it has what the decrement returned
    | Zero                             // it saw exactly zero
    | Loaded(first: bool, value: int)  // it has read one of the two counts, the processed one if `first`
    | Wrote                            // the report is out, the trigger not yet reset

  /** `threads` holds those inside a callback. The last four fields only keep count: of the
      decrements, of those that returned zero, of those that returned less, and what was reported. */
  datatype State = State(
    hdr: int, freq: int, pcount: int, icount: int, threads: map<nat, Phase>,
    calls: nat, zeros: nat, lost: nat, reports: seq<(int, int)>)

  /** Before any message; the option parser admits no frequency under five. */
  predicate Init(s: State) {
    s.freq >= 5 && s == State(s.freq, s.freq, 0, 0, map[], 0, 0, 0, [])
  }

  /** The next step of thread `t`. An idle thread enters cb1, which counts a message as processed, or cbd.
      In what order the two counts of a report are read is open as well: they are arguments of one call. */
  function Step(s: State, t: nat, processed: bool): State {
    if t !in s.threads then
      var s1 := s.(threads := s.threads[t := Counted]);
      if processed then s1.(pcount := s.pcount + 1) else s1.(icount := s.icount + 1)
    else
      match s.threads[t]
      case Counted =>
        s.(hdr := s.hdr - 1, threads := s.threads[t := Took(s.hdr)], calls := s.calls + 1,
           zeros := if s.hdr == 0 then s.zeros + 1 else s.zeros, lost := if s.hdr < 0 then s.lost + 1 else s.lost)
      case Took(curv) =>
        if curv == 0 then s.(threads := s.threads[t := Zero]) else s.(threads := s.threads - {t})
      case Zero => s.(threads := s.threads[t := Loaded(processed, if processed then s.pcount else s.icount)])
      case Loaded(first, value) =>
        s.(threads := s.threads[t := Wrote],
           reports := s.reports + [if first then (s.icount, value) else (value, s.pcount)])
      case Wrote => s.(hdr := s.freq, threads := s.threads - {t})
  }

  function Run(s: State, schedule: seq<(nat, bool)>): State
    decreases |schedule|
  {
    if schedule == [] then s
    else Step(Run(s, schedule[..|schedule| - 1]), schedule[|schedule| - 1].0, schedule[|schedule| - 1].1)
  }

  /** Between seeing zero and the reset. */
  predicate Reporting(p: Phase) { p == Took(0) || p.Zero? || p.Loaded? || p.Wrote? }

  predicate IsReporting(s: State, t: nat) { t in s.threads && Reporting(s.threads[t]) }

  predicate Started(p: Phase) { p.Counted? }

  function Waiting(s: State): set<nat> { set t | t in s.threads && Started(s.threads[t]) }

  /** At most one thread reports, and the trigger is negative exactly while one does. */
  ghost predicate OneReporter(s: State) {
    && (forall t, u :: IsReporting(s, t) && IsReporting(s, u) ==> t == u)
    && (s.hdr < 0 <==> exists t :: IsReporting(s, t))
  }

  /** Every decrement is accounted for: a zero for each round of them, the round under way, and those
      that came while a report was being made. */
  predicate Accounted(s: State) {
    && s.freq >= 5 && s.hdr <= s.freq
    && s.calls == s.zeros * (s.freq + 1) + s.lost + (if s.hdr >= 0 then s.freq - s.hdr else 0)
    && s.pcount >= 0 && s.icount >= 0 && s.pcount + s.icount == s.calls + |Waiting(s)|
  }

  /** The report of the last zero is still to come. */
  predicate Due(p: Phase) { p == Took(0) || p.Zero? || p.Loaded? }

  /** There is a report for every zero, or one is due. Counts never go back from one report to the
      next, and the total in the k-th shows at least k rounds of messages. */
  ghost predicate ReportsOk(s: State) {
    && |s.reports| == s.zeros - (if exists t :: t in s.threads && Due(s.threads[t]) then 1 else 0)
    && (forall k :: 0 <= k < |s.reports| ==>
      && 0 <= s.reports[k].0 <= s.icount && 0 <= s.reports[k].1 <= s.pcount
      && s.reports[k].0 + s.reports[k].1 >= (k + 1) * (s.freq + 1))
    && (forall j, k :: 0 <= j < k < |s.reports| ==>
      s.reports[j].0 <= s.reports[k].0 && s.reports[j].1 <= s.reports[k].1)
    && forall t :: t in s.threads && s.threads[t].Loaded? ==>
      LoadOk(s, s.threads[t].first, s.threads[t].value)
  }

  ghost predicate LoadOk(s: State, first: bool, value: int) {
    && 0 <= value <= (if first then s.pcount else s.icount)
    && value + (if first then s.icount else s.pcount) >= s.zeros * (s.freq + 1)
    && forall k :: 0 <= k < |s.reports| ==> (if first then s.reports[k].1 else s.reports[k].0) <= value
  }

  ghost predicate Inv(s: State) { OneReporter(s) && Accounted(s) && ReportsOk(s) }

  lemma InitInv(s: State)
    requires Init(s)
    ensures Inv(s)
  {
    assert Waiting(s) == {};
  }

  lemma StepOne(s: State, t: nat, processed: bool)
    requires OneReporter(s) && s.freq >= 0
    ensures OneReporter(Step(s, t, processed))
  {
    var s' := Step(s, t, processed);
    assert forall u :: u != t ==> (IsReporting(s', u) <==> IsReporting(s, u));
    if t in s.threads && s.threads[t].Counted? {
      if s.hdr == 0 {
        assert IsReporting(s', t);
      } else {
        assert !IsReporting(s', t) && !IsReporting(s, t);
      }
    } else if t in s.threads && s.threads[t].Wrote? {
      assert IsReporting(s, t) && !IsReporting(s', t);
    } else {
      assert IsReporting(s', t) <==> IsReporting(s, t);
    }
  }

  lemma StepAccounted(s: State, t: nat, processed: bool)
    requires OneReporter(s) && Accounted(s)
    ensures Accounted(Step(s, t, processed))
  {
    hide OneReporter;
    var s' := Step(s, t, processed);
    if t !in s.threads {
      assert Waiting(s') == Waiting(s) + {t};
    } else if s.threads[t].Counted? {
      StepCounted(s, t, processed);
    } else {
      assert Waiting(s') == Waiting(s);
      if s.threads[t].Wrote? {
        NegativeTrigger(s, t);
      }
    }
  }

  lemma NegativeTrigger(s: State, t: nat)
    requires OneReporter(s) && IsReporting(s, t)
    ensures s.hdr < 0
  {
  }

  lemma StepCounted(s: State, t: nat, processed: bool)
    requires Accounted(s) && t in s.threads && s.threads[t].Counted?
    ensures Accounted(Step(s, t, processed))
  {
    var s' := Step(s, t, processed);
    assert Waiting(s') == Waiting(s) - {t} by {
      forall u ensures u in Waiting(s') <==> u in Waiting(s) && u != t { }
    }
    assert t in Waiting(s);
    Rounds(s.zeros, s.freq);
  }

  lemma Rounds(zeros: nat, freq: int)
    ensures (zeros + 1) * (freq + 1) == zeros * (freq + 1) + freq + 1
  {
  }

  lemma StepReports(s: State, t: nat, processed: bool)
    requires Inv(s)
    ensures ReportsOk(Step(s, t, processed))
  {
    var s' := Step(s, t, processed);
    assert forall u :: u != t && u in s.threads ==> u in s'.threads && s'.threads[u] == s.threads[u];
    if t !in s.threads {
      Entered(s, t, processed);
    } else {
      match s.threads[t] {
        case Counted => Decremented(s, t, processed);
        case Took(_) => Compared(s, t, processed);
        case Zero => Loading(s, t, processed);
        case Loaded(_, _) => Reported(s, t, processed);
        case Wrote => Resetting(s, t, processed);
      }
    }
  }

  /** A step that leaves the reports and the zeros, and loads nothing. */
  lemma ReportsKept(s: State, s': State)
    requires ReportsOk(s) && s'.reports == s.reports && s'.zeros == s.zeros && s'.freq == s.freq
    requires s'.icount >= s.icount && s'.pcount >= s.pcount
    requires forall u :: u in s.threads && Due(s.threads[u]) <==> u in s'.threads && Due(s'.threads[u])
    requires forall u :: u in s'.threads && s'.threads[u].Loaded? ==> u in s.threads && s.threads[u] == s'.threads[u]
    ensures ReportsOk(s')
  {
    hide Due;
  }

  lemma Entered(s: State, t: nat, processed: bool)
    requires Inv(s) && t !in s.threads
    ensures ReportsOk(Step(s, t, processed))
  {
    hide ReportsOk, OneReporter, Accounted;
    ReportsKept(s, Step(s, t, processed));
  }

  lemma Decremented(s: State, t: nat, processed: bool)
    requires Inv(s) && t in s.threads && s.threads[t].Counted?
    ensures ReportsOk(Step(s, t, processed))
  {
    hide ReportsOk, Accounted;
    if s.hdr == 0 {
      FirstZero(s, t, processed);
    } else {
      ReportsKept(s, Step(s, t, processed));
    }
  }

  lemma FirstZero(s: State, t: nat, processed: bool)
    requires Inv(s) && t in s.threads && s.threads[t].Counted? && s.hdr == 0
    ensures ReportsOk(Step(s, t, processed))
  {
    var s' := Step(s, t, processed);
    assert forall u :: u in s.threads ==> !IsReporting(s, u);
    assert t in s'.threads && Due(s'.threads[t]);
    assert forall u :: u in s'.threads ==> !s'.threads[u].Loaded?;
    assert forall u :: u in s.threads ==> !Due(s.threads[u]);
  }

  lemma Compared(s: State, t: nat, processed: bool)
    requires Inv(s) && t in s.threads && s.threads[t].Took?
    ensures ReportsOk(Step(s, t, processed))
  {
    hide ReportsOk, OneReporter, Accounted;
    ReportsKept(s, Step(s, t, processed));
  }

  lemma Loading(s: State, t: nat, processed: bool)
    requires Inv(s) && t in s.threads && s.threads[t].Zero?
    ensures ReportsOk(Step(s, t, processed))
  {
    hide Accounted;
    var s' := Step(s, t, processed);
    AccountedTotal(s);
    assert forall u :: u in s.threads && Due(s.threads[u]) <==> u in s'.threads && Due(s'.threads[u]);
  }

  lemma AccountedTotal(s: State)
    requires Accounted(s)
    ensures s.pcount >= 0 && s.icount >= 0 && s.icount + s.pcount >= s.zeros * (s.freq + 1)
  {
  }

  lemma Reported(s: State, t: nat, processed: bool)
    requires Inv(s) && t in s.threads && s.threads[t].Loaded?
    ensures ReportsOk(Step(s, t, processed))
  {
    var s' := Step(s, t, processed);
    assert IsReporting(s, t) && Due(s.threads[t]);
    assert forall u :: u in s.threads && u != t ==> !IsReporting(s, u);
    assert forall u :: u in s'.threads ==> !Due(s'.threads[u]);
    assert |s'.reports| == s.zeros;
  }

  lemma Resetting(s: State, t: nat, processed: bool)
    requires Inv(s) && t in s.threads && s.threads[t].Wrote?
    ensures ReportsOk(Step(s, t, processed))
  {
    hide ReportsOk, OneReporter, Accounted;
    ReportsKept(s, Step(s, t, processed));
  }

  /** Under every interleaving. */
  lemma {:induction false} RunInv(s: State, schedule: seq<(nat, bool)>)
    requires Init(s)
    ensures Inv(Run(s, schedule)) && Run(s, schedule).freq == s.freq
    decreases |schedule|
  {
    hide OneReporter, Accounted, ReportsOk;
    if schedule == [] {
      InitInv(s);
    } else {
      var init, last := schedule[..|schedule| - 1], schedule[|schedule| - 1];
      RunInv(s, init);
      FreqOk(Run(s, init));
      StepOne(Run(s, init), last.0, last.1);
      StepAccounted(Run(s, init), last.0, last.1);
      StepReports(Run(s, init), last.0, last.1);
    }
  }

  lemma FreqOk(s: State)
    requires Accounted(s)
    ensures s.freq >= 5
  {
  }

  /** What the comment in the source claims, for every interleaving: one reporter at a time; reports
      times (frequency + 1) never exceeds the calls of stats; and with no call during a report, every
      (frequency + 1)-th call reports. */
  lemma Reports(s: State, schedule: seq<(nat, bool)>)
    requires Init(s)
    ensures var r := Run(s, schedule);
      && (forall t, u :: IsReporting(r, t) && IsReporting(r, u) ==> t == u)
      && (r.hdr >= 0 <==> forall t :: !IsReporting(r, t))
      && |r.reports| * (s.freq + 1) <= r.zeros * (s.freq + 1) <= r.calls
      && (r.lost == 0 ==> r.calls < (r.zeros + 1) * (s.freq + 1))
  {
    RunInv(s, schedule);
    var r := Run(s, schedule);
    var rest := r.calls - r.zeros * (s.freq + 1) - r.lost;
    assert 0 <= rest <= s.freq;
    assert |r.reports| <= r.zeros;
    Times(|r.reports|, r.zeros, s.freq + 1);
    Rounds(r.zeros, s.freq);
  }

  lemma Times(a: nat, b: nat, f: nat)
    requires a <= b
    ensures a * f <= b * f
  {
  }

  // ----- which callback raises which count

  /** How many messages cb1 (or cbd) was called for, by the schedule: the steps that find their thread
      outside a callback. */
  function Called(s: State, schedule: seq<(nat, bool)>, processed: bool): nat
    decreases |schedule|
  {
    if schedule == [] then 0
    else
      var init, last := schedule[..|schedule| - 1], schedule[|schedule| - 1];
      Called(s, init, processed) + if last.0 !in Run(s, init).threads && last.1 == processed then 1 else 0
  }

  lemma {:induction false} CountsAre(s: State, schedule: seq<(nat, bool)>)
    requires Init(s)
    ensures Run(s, schedule).pcount == Called(s, schedule, true)
    ensures Run(s, schedule).icount == Called(s, schedule, false)
    decreases |schedule|
  {
    if schedule != [] {
      CountsAre(s, schedule[..|schedule| - 1]);
    }
  }

  /** When all messages are processed ones, every report says so, and at least as many as a round has; the
      same when all are ignored ones. */
  lemma ReportsOfOneKind(s: State, schedule: seq<(nat, bool)>, k: nat)
    requires Init(s) && k < |Run(s, schedule).reports|
    ensures var (ignored, processed) := Run(s, schedule).reports[k];
      && ignored + processed >= (k + 1) * (s.freq + 1) >= 6
      && (Called(s, schedule, false) == 0 ==> ignored == 0) && (Called(s, schedule, true) == 0 ==> processed == 0)
      && ignored <= Called(s, schedule, false) && processed <= Called(s, schedule, true)
  {
    hide Called, Run;
    RunInv(s, schedule);
    CountsAre(s, schedule);
    ReportBounds(Run(s, schedule), k);
  }

  lemma ReportBounds(r: State, k: nat)
    requires Inv(r) && k < |r.reports|
    ensures 0 <= r.reports[k].0 <= r.icount && 0 <= r.reports[k].1 <= r.pcount
    ensures r.reports[k].0 + r.reports[k].1 >= (k + 1) * (r.freq + 1) >= 6
  {
    hide OneReporter;
    AccountedFreq(r);
    hide Accounted;
    Times(1, k + 1, r.freq + 1);
  }

  lemma AccountedFreq(r: State)
    requires Accounted(r)
    ensures r.freq >= 5
  {
  }

  // ----- one thread alone

  /** `n` messages of one thread, each a processed one, that do not yet make a report: three steps each. */
  function Quiet(t: nat, n: nat): seq<(nat, bool)> {
    if n == 0 then [] else Quiet(t, n - 1) + [(t, true), (t, true), (t, true)]
  }

  lemma RunMore(s: State, schedule: seq<(nat, bool)>, step: (nat, bool))
    ensures Run(s, schedule + [step]) == Step(Run(s, schedule), step.0, step.1)
  {
    assert (schedule + [step])[..|schedule|] == schedule;
  }

  lemma {:induction false} QuietRun(s: State, t: nat, n: nat)
    requires Init(s) && n <= s.freq
    ensures Run(s, Quiet(t, n)) == s.(hdr := s.freq - n, pcount := n, calls := n)
  {
    hide Run, Step;
    var step := (t, true);
    if n > 0 {
      QuietRun(s, t, n - 1);
      var q := Quiet(t, n - 1);
      assert Quiet(t, n) == q + [step] + [step] + [step];
      RunMore(s, q, step);
      RunMore(s, q + [step], step);
      RunMore(s, q + [step] + [step], step);
      QuietSteps(Run(s, q), t);
    } else {
      RunNone(s);
    }
  }

  lemma RunNone(s: State)
    ensures Run(s, []) == s
  {
  }

  /** A message that the trigger only counts down for. */
  lemma QuietSteps(s: State, t: nat)
    requires s.threads == map[] && s.hdr > 0
    ensures Step(Step(Step(s, t, true), t, true), t, true) ==
      s.(hdr := s.hdr - 1, pcount := s.pcount + 1, calls := s.calls + 1)
  {
    var s3 := Step(Step(Step(s, t, true), t, true), t, true);
    assert s3.threads == map[];
  }

  /** A message that makes a report. */
  lemma ReportSteps(s: State, t: nat)
    requires s.threads == map[] && s.hdr == 0
    ensures var s3 := Step(Step(Step(s, t, true), t, true), t, true);
      Step(Step(Step(s3, t, true), t, true), t, true) ==
        s.(hdr := s.freq, pcount := s.pcount + 1, calls := s.calls + 1, zeros := s.zeros + 1,
           reports := s.reports + [(s.icount, s.pcount + 1)])
  {
    var s3 := Step(Step(Step(s, t, true), t, true), t, true);
    assert s3 == s.(hdr := -1, pcount := s.pcount + 1, calls := s.calls + 1, zeros := s.zeros + 1,
                    threads := map[t := Zero]);
    var s6 := Step(Step(Step(s3, t, true), t, true), t, true);
    assert s6.threads == map[];
  }

  /** The first report of a thread that is alone and processes every message comes with the first message
      after as many as the frequency says, and counts them all. */
  lemma FirstReport(s: State, t: nat)
    requires Init(s)
    ensures var step := (t, true);
      Run(s, Quiet(t, s.freq) + [step] + [step] + [step] + [step] + [step] + [step]) ==
        State(s.freq, s.freq, s.freq + 1, 0, map[], s.freq + 1, 1, 0, [(0, s.freq + 1)])
  {
    hide Run, Step, Quiet;
    var q, step := Quiet(t, s.freq), (t, true);
    QuietRun(s, t, s.freq);
    RunMore(s, q, step);
    RunMore(s, q + [step], step);
    RunMore(s, q + [step] + [step], step);
    RunMore(s, q + [step] + [step] + [step], step);
    RunMore(s, q + [step] + [step] + [step] + [step], step);
    RunMore(s, q + [step] + [step] + [step] + [step] + [step], step);
    ReportSteps(Run(s, q), t);
  }
}
