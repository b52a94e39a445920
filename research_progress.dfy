/**
 * The cosmetic progress simulator (components/research-progress.tsx). Six
 * fixed steps are advanced by a step timer while the component is active;
 * a one-second interval counts elapsed seconds. The timers are modelled as
 * discrete events: `SetActive` (the `isActive` prop changes), `FireStepTimer`
 * (the pending step timeout elapses) and `Tick` (the interval fires).
 */
module ResearchProgress {
  import opened Types
  import Text

  /** One row of the step table; `title` holds the step's `label` (a reserved word in Dafny). */
  datatype Step = Step(id: string, title: string, description: string, duration: nat)

  /** `RESEARCH_STEPS`; durations are in milliseconds. */
  const Steps: seq<Step> := [
    Step("planning", "Planning Research",
      "Analyzing your question and creating a research plan...", 3000),
    Step("generating", "Generating Sub-questions",
      "Breaking down your query into focused research questions...", 4000),
    Step("searching", "Searching Sources",
      "Searching across multiple sources for relevant information...", 8000),
    Step("analyzing", "Analyzing Results",
      "Reading and extracting key insights from sources...", 6000),
    Step("synthesizing", "Synthesizing Answer",
      "Combining information into a comprehensive response...", 5000),
    Step("refining", "Refining & Quality Check",
      "Improving answer quality and verifying accuracy...", 4000)
  ]

  /** `RESEARCH_STEPS.length - 1` */
  const LastIndex: nat := |Steps| - 1

  /**
   * The prop, the three pieces of component state, and whether a step
   * timeout is currently scheduled (the second effect schedules one each
   * time it runs with a valid step index; the cleanup cancels it).
   */
  datatype State = State(
    isActive: bool,
    currentStepIndex: nat,
    completedSteps: set<string>,
    elapsedTime: nat,
    stepTimerArmed: bool)

  /** The ids of the first k steps. */
  function FirstIds(k: nat): set<string>
    requires k <= |Steps|
  {
    set i | 0 <= i < k :: Steps[i].id
  }

  /** The sum of the durations of the first k steps. */
  function PrefixDuration(k: nat): nat
    requires k <= |Steps|
  {
    if k == 0 then 0 else PrefixDuration(k - 1) + Steps[k - 1].duration
  }

  /** The state after the first render with the given prop. */
  function Mount(isActive: bool): State {
    State(isActive, 0, {}, 0, isActive)
  }

  /**
   * The prop changes. Becoming active resets index, completed set and
   * elapsed time and schedules the first step timer; becoming inactive
   * cancels both timers and leaves the rest as it was.
   */
  function SetActive(s: State, isActive: bool): (t: State)
    ensures t.isActive == isActive
    ensures isActive && !s.isActive ==>
      t.currentStepIndex == 0 && t.completedSteps == {} && t.elapsedTime == 0 && t.stepTimerArmed
    ensures !isActive && s.isActive ==> !t.stepTimerArmed
    ensures !isActive ==>
      && t.currentStepIndex == s.currentStepIndex
      && t.completedSteps == s.completedSteps
      && t.elapsedTime == s.elapsedTime
    ensures isActive == s.isActive ==> t == s
  {
    if isActive == s.isActive then s
    else if isActive then State(true, 0, {}, 0, true)
    else s.(isActive := false, stepTimerArmed := false)
  }

  /**
   * The scheduled step timeout elapses: the current step is completed and,
   * unless it is the last, the next becomes current (which re-runs the
   * effect and schedules the next timeout). With nothing scheduled, nothing
   * happens.
   */
  function FireStepTimer(s: State): (t: State)
    ensures t.isActive == s.isActive && t.elapsedTime == s.elapsedTime
    ensures t.completedSteps == s.completedSteps
         || (s.currentStepIndex < |Steps| && t.completedSteps == s.completedSteps + {Steps[s.currentStepIndex].id})
    ensures s.currentStepIndex <= t.currentStepIndex <= s.currentStepIndex + 1
    ensures s.currentStepIndex <= LastIndex ==> t.currentStepIndex <= LastIndex
    ensures !s.isActive ==> t == s
  {
    if !s.isActive || !s.stepTimerArmed || s.currentStepIndex >= |Steps| then s
    else
      var done := s.completedSteps + {Steps[s.currentStepIndex].id};
      if s.currentStepIndex < LastIndex then
        s.(completedSteps := done, currentStepIndex := s.currentStepIndex + 1)
      else
        s.(completedSteps := done, stepTimerArmed := false)
  }

  /** The one-second interval fires; it only runs while active. */
  function Tick(s: State): (t: State)
    ensures t.elapsedTime == if s.isActive then s.elapsedTime + 1 else s.elapsedTime
    ensures t.(elapsedTime := s.elapsedTime) == s
  {
    if s.isActive then s.(elapsedTime := s.elapsedTime + 1) else s
  }

  /** The step timer firing n times in a row. */
  function FireTimes(s: State, n: nat): State
    decreases n
  {
    if n == 0 then s else FireTimes(FireStepTimer(s), n - 1)
  }

  datatype Event = Activate | Deactivate | StepTimer | Interval

  function Handle(s: State, e: Event): State {
    match e
    case Activate => SetActive(s, true)
    case Deactivate => SetActive(s, false)
    case StepTimer => FireStepTimer(s)
    case Interval => Tick(s)
  }

  function RunEvents(s: State, events: seq<Event>): State
    decreases |events|
  {
    if events == [] then s else RunEvents(Handle(s, events[0]), events[1..])
  }

  /** `completedSteps.has(step.id)` */
  predicate IsCompleted(s: State, i: nat)
    requires i < |Steps|
  {
    Steps[i].id in s.completedSteps
  }

  /** `index === currentStepIndex && !isCompleted` */
  predicate IsCurrent(s: State, i: nat)
    requires i < |Steps|
    ensures IsCurrent(s, i) ==> !IsCompleted(s, i) && !IsPending(s, i)
  {
    i == s.currentStepIndex && !IsCompleted(s, i)
  }

  /** `index > currentStepIndex` */
  predicate IsPending(s: State, i: nat)
    requires i < |Steps|
  {
    i > s.currentStepIndex
  }

  /** Nothing renders while inactive. */
  predicate Renders(s: State) {
    s.isActive
  }

  /**
   * The shape of every reachable state: the index stays in 0..5 and the
   * completed set is exactly the steps before it, except after the last
   * firing, when it holds all six and no timer is scheduled.
   */
  ghost predicate Reachable(s: State) {
    && s.currentStepIndex <= LastIndex
    && (s.stepTimerArmed ==> s.isActive)
    && ((s.completedSteps == FirstIds(s.currentStepIndex) && (s.isActive ==> s.stepTimerArmed))
        || (s.currentStepIndex == LastIndex && s.completedSteps == FirstIds(|Steps|) && !s.stepTimerArmed))
  }

  /** Six steps with distinct ids and the fixed durations, 30 seconds in all. */
  lemma StepTable()
    ensures |Steps| == 6 && LastIndex == 5
    ensures forall i, j :: 0 <= i < j < |Steps| ==> Steps[i].id != Steps[j].id
    ensures Steps[0].duration == 3000 && Steps[1].duration == 4000 && Steps[2].duration == 8000
    ensures Steps[3].duration == 6000 && Steps[4].duration == 5000 && Steps[5].duration == 4000
    ensures PrefixDuration(|Steps|) == 30000
  {
  }

  /** A step's id is among the first k ids exactly when the step is among the first k. */
  lemma IdInFirstIds(i: nat, k: nat)
    requires i < |Steps| && k <= |Steps|
    ensures Steps[i].id in FirstIds(k) <==> i < k
  {
    StepTable();
    if Steps[i].id in FirstIds(k) {
      var j :| 0 <= j < k && Steps[j].id == Steps[i].id;
      assert i == j;
    }
  }

  lemma FirstIdsStep(k: nat)
    requires k < |Steps|
    ensures FirstIds(k + 1) == FirstIds(k) + {Steps[k].id}
  {
  }

  /** Activation resets index, completed set and elapsed time. */
  lemma ActivationResets(s: State)
    requires !s.isActive
    ensures var t := SetActive(s, true);
      t.isActive && t.currentStepIndex == 0 && t.completedSteps == {} && t.elapsedTime == 0 && t.stepTimerArmed
  {
  }

  /** While inactive, neither timer changes anything, and nothing renders. */
  lemma InactiveIsFrozen(s: State)
    requires !s.isActive
    ensures FireStepTimer(s) == s && Tick(s) == s && !Renders(s)
  {
  }

  /** A tick while active adds one second and changes nothing else. */
  lemma TickCounts(s: State)
    requires s.isActive
    ensures Tick(s) == s.(elapsedTime := s.elapsedTime + 1)
  {
  }

  /** A firing completes the current step and advances only below the last index; the index stays in range. */
  lemma FiringAdvances(s: State)
    requires s.isActive && s.stepTimerArmed && s.currentStepIndex <= LastIndex
    ensures var t := FireStepTimer(s);
      && t.completedSteps == s.completedSteps + {Steps[s.currentStepIndex].id}
      && t.currentStepIndex == (if s.currentStepIndex < LastIndex then s.currentStepIndex + 1 else s.currentStepIndex)
      && t.currentStepIndex <= LastIndex
      && t.elapsedTime == s.elapsedTime
  {
  }

  /** After k firings from activation (k at most six), exactly the first k steps are completed and the index is min(k, 5). */
  lemma {:induction false} FiringsFromActivation(k: nat)
    requires k <= |Steps|
    ensures FireTimes(Mount(true), k)
         == State(true, if k < |Steps| then k else LastIndex, FirstIds(k), 0, k < |Steps|)
    decreases k
  {
    if k > 0 {
      FiringsFromActivation(k - 1);
      FireTimesLast(Mount(true), k - 1);
      FirstIdsStep(k - 1);
    }
  }

  lemma {:induction false} FireTimesLast(s: State, n: nat)
    ensures FireTimes(s, n + 1) == FireStepTimer(FireTimes(s, n))
    decreases n
  {
    if n > 0 {
      FireTimesLast(FireStepTimer(s), n - 1);
    }
  }

  /**
   * After the sixth firing every step is completed and none is current; no
   * timer is scheduled any more, so further firings change nothing.
   */
  lemma {:induction false} AllDoneAfterSixFirings(extra: nat)
    ensures var s := FireTimes(Mount(true), |Steps|);
      && (forall i :: 0 <= i < |Steps| ==> IsCompleted(s, i) && !IsCurrent(s, i) && !IsPending(s, i))
      && !s.stepTimerArmed
      && FireTimes(s, extra) == s
    decreases extra
  {
    var s := FireTimes(Mount(true), |Steps|);
    FiringsFromActivation(|Steps|);
    forall i | 0 <= i < |Steps| ensures IsCompleted(s, i) {
      IdInFirstIds(i, |Steps|);
    }
    if extra > 0 {
      AllDoneAfterSixFirings(extra - 1);
      FireTimesLast(s, extra - 1);
    }
  }

  /** How many step timers have fired t milliseconds after activation. */
  function FiredBy(t: nat): (k: nat)
    ensures k <= |Steps| && PrefixDuration(k) <= t
    ensures k < |Steps| ==> t < PrefixDuration(k + 1)
  {
    FiredFrom(t, 0)
  }

  function FiredFrom(t: nat, k: nat): (r: nat)
    requires k <= |Steps| && PrefixDuration(k) <= t
    ensures k <= r <= |Steps| && PrefixDuration(r) <= t
    ensures r < |Steps| ==> t < PrefixDuration(r + 1)
    decreases |Steps| - k
  {
    if k < |Steps| && PrefixDuration(k + 1) <= t then FiredFrom(t, k + 1) else k
  }

  lemma ReachableInitially(isActive: bool)
    ensures Reachable(Mount(isActive))
  {
  }

  lemma HandlePreservesReachable(s: State, e: Event)
    requires Reachable(s)
    ensures Reachable(Handle(s, e))
  {
    if e == StepTimer && s.isActive && s.stepTimerArmed {
      FirstIdsStep(s.currentStepIndex);
    }
  }

  /** Every state reached from a mount by any sequence of events has the reachable shape. */
  lemma {:induction false} RunKeepsReachable(s: State, events: seq<Event>)
    requires Reachable(s)
    ensures Reachable(RunEvents(s, events))
    decreases |events|
  {
    if events != [] {
      HandlePreservesReachable(s, events[0]);
      RunKeepsReachable(Handle(s, events[0]), events[1..]);
    }
  }

  /**
   * In a reachable state the completed set follows the index: every step
   * before the current one is completed, and no pending step is.
   */
  lemma StatusFollowsIndex(s: State, i: nat)
    requires Reachable(s) && i < |Steps|
    ensures i < s.currentStepIndex ==> IsCompleted(s, i)
    ensures IsPending(s, i) ==> !IsCompleted(s, i)
  {
    IdInFirstIds(i, s.currentStepIndex);
    IdInFirstIds(i, |Steps|);
  }

  /** In a reachable state each step is exactly one of completed, current or pending. */
  lemma ExactlyOneStatus(s: State, i: nat)
    requires Reachable(s) && i < |Steps|
    ensures IsCompleted(s, i) || IsCurrent(s, i) || IsPending(s, i)
    ensures !(IsCompleted(s, i) && IsCurrent(s, i))
    ensures !(IsCompleted(s, i) && IsPending(s, i))
    ensures !(IsCurrent(s, i) && IsPending(s, i))
  {
    IdInFirstIds(i, s.currentStepIndex);
    IdInFirstIds(i, |Steps|);
  }

  /** `formatTime`: whole minutes, a colon, and the seconds padded to two digits. */
  function FormatTime(seconds: nat): (r: string)
    ensures ReadTime(r) == Some(seconds)
    ensures Text.DecimalValue(r[|r| - 2..]) < 60
    ensures r[0] == '0' ==> |r| == 4
  {
    var mins, secs := seconds / 60, seconds % 60;
    assert mins * 60 + secs == seconds;
    Display(mins, secs)
  }

  /** The minutes, a colon and the two-digit seconds; reading it back gives minutes * 60 + seconds. */
  function Display(mins: nat, secs: nat): (r: string)
    requires secs < 60
    ensures ReadTime(r) == Some(mins * 60 + secs)
    ensures |r| >= 2 && Text.AllDigits(r[|r| - 2..]) && Text.DecimalValue(r[|r| - 2..]) == secs
    ensures r[0] == '0' ==> |r| == 4
  {
    var m := Text.Decimal(mins);
    var p := Text.PadStart(Text.Decimal(secs), 2, '0');
    TwoDigits(secs);
    TwoDigitValue(secs);
    Text.DecimalRoundTrip(mins);
    ColonShape(m, p, mins, secs);
    m + ":" + p
  }

  /** Below 100, padding to two places gives the tens digit and the units digit. */
  lemma TwoDigits(n: nat)
    requires n < 100
    ensures Text.PadStart(Text.Decimal(n), 2, '0') == [Text.DigitChar(n / 10), Text.DigitChar(n % 10)]
  {
    var d := Text.Decimal(n);
    if n < 10 {
      var p := Text.PadStart(d, 2, '0');
      assert p[1..] == d;
    } else {
      assert Text.Decimal(n / 10) == [Text.DigitChar(n / 10)];
    }
  }

  lemma TwoDigitValue(n: nat)
    requires n < 100
    ensures Text.AllDigits([Text.DigitChar(n / 10), Text.DigitChar(n % 10)])
    ensures Text.DecimalValue([Text.DigitChar(n / 10), Text.DigitChar(n % 10)]) == n
  {
    var p := [Text.DigitChar(n / 10), Text.DigitChar(n % 10)];
    assert Text.DigitValue(p[0]) == n / 10 && Text.DigitValue(p[1]) == n % 10;
    assert p[..1] == [p[0]] && [p[0]][..0] == [];
    assert Text.DecimalValue(p[..1]) == n / 10;
  }

  /**
   * Reads an `m:ss` display back: digits, a colon and two digits give
   * minutes * 60 + seconds; anything else is not a display.
   */
  function ReadTime(t: string): Option<nat> {
    if |t| >= 4 && t[|t| - 3] == ':' && Text.AllDigits(t[..|t| - 3]) && Text.AllDigits(t[|t| - 2..])
    then Some(Text.DecimalValue(t[..|t| - 3]) * 60 + Text.DecimalValue(t[|t| - 2..]))
    else None
  }

  /** Digits, a colon and two digits split back into their two numbers. */
  lemma ColonShape(m: string, p: string, mins: nat, secs: nat)
    requires |m| >= 1 && |p| == 2 && Text.AllDigits(m) && Text.AllDigits(p)
    requires Text.DecimalValue(m) == mins && Text.DecimalValue(p) == secs && secs < 60
    ensures var t := m + ":" + p;
      && ReadTime(t) == Some(mins * 60 + secs)
      && |t| >= 2 && Text.AllDigits(t[|t| - 2..]) && Text.DecimalValue(t[|t| - 2..]) == secs
  {
    var t := m + ":" + p;
    assert t[..|t| - 3] == m;
    assert t[|t| - 2..] == p;
  }

  /** Different elapsed times are displayed differently. */
  lemma FormatTimeInjective(a: nat, b: nat)
    ensures FormatTime(a) == FormatTime(b) ==> a == b
  {
  }

  class Progress {
    var isActive: bool
    var currentStepIndex: nat
    var completedSteps: set<string>
    var elapsedTime: nat
    var stepTimerArmed: bool

    function Snapshot(): State
      reads this
    {
      State(isActive, currentStepIndex, completedSteps, elapsedTime, stepTimerArmed)
    }

    ghost predicate Valid()
      reads this
    {
      Reachable(Snapshot())
    }

    constructor (active: bool)
      ensures Valid() && Snapshot() == Mount(active)
    {
      isActive, currentStepIndex, completedSteps, elapsedTime, stepTimerArmed := active, 0, {}, 0, active;
    }

    method SetActive(active: bool)
      requires Valid()
      modifies this
      ensures Valid()
      ensures Snapshot() == Handle(old(Snapshot()), if active then Activate else Deactivate)
    {
      if active != isActive {
        if active {
          isActive, currentStepIndex, completedSteps, elapsedTime, stepTimerArmed := true, 0, {}, 0, true;
        } else {
          isActive, stepTimerArmed := false, false;
        }
      }
      HandlePreservesReachable(old(Snapshot()), if active then Activate else Deactivate);
    }

    method FireStepTimer()
      requires Valid()
      modifies this
      ensures Valid()
      ensures Snapshot() == Handle(old(Snapshot()), StepTimer)
    {
      if isActive && stepTimerArmed && currentStepIndex < |Steps| {
        completedSteps := completedSteps + {Steps[currentStepIndex].id};
        if currentStepIndex < LastIndex {
          currentStepIndex := currentStepIndex + 1;
        } else {
          stepTimerArmed := false;
        }
      }
      HandlePreservesReachable(old(Snapshot()), StepTimer);
    }

    method Tick()
      requires Valid()
      modifies this
      ensures Valid()
      ensures Snapshot() == Handle(old(Snapshot()), Interval)
    {
      if isActive {
        elapsedTime := elapsedTime + 1;
      }
    }
  }
}
