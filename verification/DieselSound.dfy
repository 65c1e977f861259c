// The diesel sound: a stepper through the speed steps, with a cancel from another thread at any moment.
module DieselSound {
  import opened Util

  /** The samples of a speed step: going up into it, running at it, going down out of it. */
  datatype Sample = Up(k: int) | Hold(k: int) | Down(k: int)

  /** Where the loop is. Each value stands between two accesses to the shared fields. */
  datatype Pc = Head | Read | Test | SwitchOff | Pick | Compare | Less | Done

  /**
   * doRun, curr and the loco speed are shared; last, seen and the played samples belong to the loop.
   * Steps are numbered from 0; -1 means the engine is off.
   */
  datatype State = State(doRun: bool, curr: int, speed: int, last: int, seen: int, pc: Pc, played: seq<Sample>)

  /** Task: one access of the sound loop. CancelStep, CancelRun: the two writes of cancel. SetSpeed: a new loco speed. */
  datatype Action = Task | CancelStep | CancelRun | SetSpeed(speed: int)

  /** The step thresholds; the loader sets the first one to 1. */
  ghost predicate ValidLimits(limits: seq<int>) {
    |limits| > 0 && limits[0] == 1
  }

  /** The first step whose threshold is above the speed, or none. */
  function FirstAbove(limits: seq<int>, speed: int): (i: nat)
    ensures i <= |limits|
    ensures i < |limits| ==> speed < limits[i]
    ensures forall j :: 0 <= j < i ==> speed >= limits[j]
  {
    if limits == [] || speed < limits[0] then 0 else 1 + FirstAbove(limits[1..], speed)
  }

  /** The search loop for the step. */
  method FindStep(limits: seq<int>, speed: int, curr: int) returns (step: int)
    ensures step == if FirstAbove(limits, speed) < |limits| then FirstAbove(limits, speed) else curr
  {
    step := curr;
    for i := 0 to |limits|
      invariant step == curr && forall j :: 0 <= j < i ==> speed >= limits[j]
    {
      if speed < limits[i] {
        FirstAboveIs(limits, speed, i);
        return i;
      }
    }
    FirstAboveIs(limits, speed, |limits|);
  }

  lemma FirstAboveIs(limits: seq<int>, speed: int, i: nat)
    requires i <= |limits| && (i < |limits| ==> speed < limits[i]) && forall j :: 0 <= j < i ==> speed >= limits[j]
    ensures FirstAbove(limits, speed) == i
  {
  }

  /** One access of the loop. */
  function TaskStep(limits: seq<int>, s: State): State {
    match s.pc
    case Head => s.(pc := if s.doRun || s.last >= 0 then Read else Done)
    case Read => s.(seen := s.speed, pc := Test)
    case Test => s.(pc := if s.seen == 0 && s.last == 0 && !s.doRun then SwitchOff else Pick)
    case SwitchOff => s.(curr := -1, pc := Compare)
    case Pick =>
      var i := FirstAbove(limits, s.seen);
      s.(curr := if i < |limits| then i else s.curr, pc := Compare)
    case Compare =>
      if s.curr != s.last then s.(pc := Less)
      else if s.last == -1 then s.(pc := Head)
      else s.(played := s.played + [Hold(s.last)], pc := Head)
    case Less =>
      if s.curr < s.last then s.(played := s.played + [Down(s.last)], last := s.last - 1, pc := Head)
      else s.(played := s.played + [Up(s.last + 1)], last := s.last + 1, pc := Head)
    case Done => s
  }

  function Next(limits: seq<int>, s: State, a: Action): State {
    match a
    case Task => TaskStep(limits, s)
    case CancelStep => s.(curr := -1)
    case CancelRun => s.(doRun := false)
    case SetSpeed(v) => s.(speed := v)
  }

  function Run(limits: seq<int>, s: State, acts: seq<Action>): State
    decreases |acts|
  {
    if acts == [] then s else Run(limits, Next(limits, s, acts[0]), acts[1..])
  }

  /** The step after playing samples from step p, each of which must start where the one before ended. */
  ghost predicate Walks(p: int, played: seq<Sample>, q: int)
    decreases |played|
  {
    if played == [] then p == q
    else
      var before := played[..|played| - 1];
      match played[|played| - 1]
      case Up(k) => q == k && Walks(p, before, k - 1)
      case Hold(k) => q == k && Walks(p, before, k)
      case Down(k) => q == k - 1 && Walks(p, before, k)
  }

  /** A sample takes the engine from step p to step q. */
  predicate Moves(p: int, x: Sample, q: int) {
    match x
    case Up(k) => p == k - 1 && q == k
    case Hold(k) => p == k && q == k
    case Down(k) => p == k && q == k - 1
  }

  ghost predicate InSteps(played: seq<Sample>, n: nat) {
    forall i :: 0 <= i < |played| ==> 0 <= played[i].k < n
  }

  ghost predicate Inv(limits: seq<int>, start: int, s: State) {
    && -1 <= s.curr < |limits|
    && -1 <= s.last < |limits|
    && (s.pc == Less ==> s.curr != s.last || s.curr == -1)
    && InSteps(s.played, |limits|)
    && Walks(start, s.played, s.last)
  }

  lemma WalksSnoc(p: int, played: seq<Sample>, q: int, x: Sample, q': int)
    requires Walks(p, played, q)
    requires Moves(q, x, q')
    ensures Walks(p, played + [x], q')
  {
  }

  lemma PlayKeepsInv(limits: seq<int>, start: int, s: State, x: Sample, last: int)
    requires Inv(limits, start, s) && 0 <= x.k < |limits| && -1 <= last < |limits|
    requires Moves(s.last, x, last)
    ensures Inv(limits, start, s.(played := s.played + [x], last := last, pc := Head))
  {
    WalksSnoc(start, s.played, s.last, x, last);
  }

  /** An access that plays nothing keeps the walk. */
  lemma QuietKeepsInv(limits: seq<int>, start: int, s: State, s': State)
    requires Inv(limits, start, s) && s'.played == s.played && s'.last == s.last
    requires -1 <= s'.curr < |limits| && (s'.pc == Less ==> s'.curr != s'.last || s'.curr == -1)
    ensures Inv(limits, start, s')
  {
  }

  lemma CompareKeepsInv(limits: seq<int>, start: int, s: State)
    requires ValidLimits(limits) && Inv(limits, start, s) && (s.pc == Compare || s.pc == Less)
    ensures Inv(limits, start, TaskStep(limits, s))
  {
    var s' := TaskStep(limits, s);
    if s.pc == Compare && s.curr == s.last != -1 {
      PlayKeepsInv(limits, start, s, Hold(s.last), s.last);
    } else if s.pc == Compare {
      QuietKeepsInv(limits, start, s, s');
    } else if s.curr < s.last {
      PlayKeepsInv(limits, start, s, Down(s.last), s.last - 1);
    } else {
      PlayKeepsInv(limits, start, s, Up(s.last + 1), s.last + 1);
    }
  }

  lemma NextKeepsInv(limits: seq<int>, start: int, s: State, a: Action)
    requires ValidLimits(limits) && Inv(limits, start, s)
    ensures Inv(limits, start, Next(limits, s, a))
  {
    if a.Task? && (s.pc == Compare || s.pc == Less) {
      CompareKeepsInv(limits, start, s);
    } else {
      QuietKeepsInv(limits, start, s, Next(limits, s, a));
    }
  }

  /** The state in which the loop begins, for a current step left over from before. */
  function Start(step: int, doRun: bool, speed: int): State {
    State(doRun, 0, speed, step, 0, Head, [])
  }

  /**
   * With cancel interleaved anywhere, only existing steps are played, and the samples form a connected walk: up into a
   * step, hold at it, down out of it.
   */
  lemma PlaysWalk(limits: seq<int>, step: int, doRun: bool, speed: int, acts: seq<Action>)
    requires ValidLimits(limits) && -1 <= step < |limits|
    ensures var s := Run(limits, Start(step, doRun, speed), acts);
      InSteps(s.played, |limits|) && Walks(step, s.played, s.last) && -1 <= s.last < |limits|
  {
    RunKeepsInv(limits, step, Start(step, doRun, speed), acts);
  }

  lemma {:induction false} RunKeepsInv(limits: seq<int>, start: int, s: State, acts: seq<Action>)
    requires ValidLimits(limits) && Inv(limits, start, s)
    ensures Inv(limits, start, Run(limits, s, acts))
    decreases |acts|
  {
    if acts != [] {
      NextKeepsInv(limits, start, s, acts[0]);
      RunKeepsInv(limits, start, Next(limits, s, acts[0]), acts[1..]);
    }
  }

  // ----- coming to rest -----

  /** Samples of going down from step k to engine off. */
  function DownFrom(k: int): seq<Sample>
    requires k >= -1
    decreases k + 1
  {
    if k < 0 then [] else [Down(k)] + DownFrom(k - 1)
  }

  /** The loop was told to stop and the loco stands: the state inside a round is bound to go down one step. */
  ghost predicate Stopping(s: State) {
    && !s.doRun && s.speed == 0 && s.last >= -1
    && (s.pc != Head && s.pc != Done ==> s.last >= 0)
    && (s.pc == Test || s.pc == SwitchOff || s.pc == Pick ==> s.seen == 0)
    && (s.pc == Pick ==> s.last > 0)
    && (s.pc == SwitchOff ==> s.last == 0)
    && (s.pc == Compare || s.pc == Less ==> s.curr < s.last)
    && (s.pc == Done ==> s.last == -1)
  }

  /** The number of accesses left. */
  function Remaining(s: State): int {
    match s.pc
    case Done => 0
    case Head => 6 * (s.last + 1) + 1
    case Read => 6 * (s.last + 1)
    case Test => 6 * (s.last + 1) - 1
    case SwitchOff => 6 * (s.last + 1) - 2
    case Pick => 6 * (s.last + 1) - 2
    case Compare => 6 * (s.last + 1) - 3
    case Less => 6 * (s.last + 1) - 4
  }

  lemma StoppingStep(limits: seq<int>, s: State, a: Action)
    requires ValidLimits(limits) && Stopping(s) && !a.SetSpeed?
    ensures var s' := Next(limits, s, a);
      && Stopping(s')
      && Remaining(s') == (if a.Task? && s.pc != Done then Remaining(s) - 1 else Remaining(s))
      && s'.played + DownFrom(s'.last) == s.played + DownFrom(s.last)
  {
    if a.Task? && s.pc == Less {
      assert s.played + [Down(s.last)] + DownFrom(s.last - 1) == s.played + ([Down(s.last)] + DownFrom(s.last - 1));
    }
    if a.Task? && s.pc == Pick {
      FirstAboveIs(limits, 0, 0);
    }
  }

  function Tasks(acts: seq<Action>): nat {
    if acts == [] then 0 else (if acts[0].Task? then 1 else 0) + Tasks(acts[1..])
  }

  lemma {:induction false} StoppingRun(limits: seq<int>, s: State, acts: seq<Action>)
    requires ValidLimits(limits) && Stopping(s)
    requires forall k :: 0 <= k < |acts| ==> !acts[k].SetSpeed?
    ensures var s' := Run(limits, s, acts);
      && Stopping(s')
      && Remaining(s') == (if Tasks(acts) >= Remaining(s) then 0 else Remaining(s) - Tasks(acts))
      && s'.played + DownFrom(s'.last) == s.played + DownFrom(s.last)
    decreases |acts|
  {
    if acts != [] {
      StoppingStep(limits, s, acts[0]);
      StoppingRun(limits, Next(limits, s, acts[0]), acts[1..]);
    }
  }

  /**
   * From the top of the loop, with the stop flag down and the loco standing, whatever cancel does in between: the loop
   * makes exactly last + 1 more rounds of six accesses, in which it plays the way down step by step, and then ends.
   */
  lemma SoundComesToRest(limits: seq<int>, s: State, acts: seq<Action>)
    requires ValidLimits(limits) && s.pc == Head && !s.doRun && s.speed == 0 && -1 <= s.last < |limits|
    requires forall k :: 0 <= k < |acts| ==> !acts[k].SetSpeed?
    ensures var s' := Run(limits, s, acts);
      && (s'.pc == Done <==> Tasks(acts) >= 6 * (s.last + 1) + 1)
      && (s'.pc == Done ==> s'.played == s.played + DownFrom(s.last))
  {
    StoppingRun(limits, s, acts);
    var s' := Run(limits, s, acts);
    if s'.pc == Done {
      assert s'.played + [] == s'.played;
    }
  }

  // ----- following the speed -----

  /** A number of accesses of the loop in a row, without interruption. */
  ghost predicate Undisturbed(acts: seq<Action>, n: nat) {
    |acts| == n && forall k :: 0 <= k < n ==> acts[k].Task?
  }

  lemma FirstTask(limits: seq<int>, s: State, acts: seq<Action>, n: nat, s': State)
    requires n > 0 && Undisturbed(acts, n) && s' == TaskStep(limits, s)
    ensures Undisturbed(acts[1..], n - 1) && Run(limits, s, acts) == Run(limits, s', acts[1..])
  {
  }

  /** From the top of the loop to the comparison: the step of the speed is chosen. */
  lemma RoundPicks(limits: seq<int>, s: State, acts: seq<Action>, n: nat)
    requires s.pc == Head && s.doRun && FirstAbove(limits, s.speed) < |limits| && n >= 4 && Undisturbed(acts, n)
    ensures Undisturbed(acts[4..], n - 4)
    ensures Run(limits, s, acts)
      == Run(limits, s.(pc := Compare, curr := FirstAbove(limits, s.speed), seen := s.speed), acts[4..])
  {
    var s1 := s.(pc := Read);
    var s2 := s.(pc := Test, seen := s.speed);
    var s3 := s.(pc := Pick, seen := s.speed);
    var s4 := s.(pc := Compare, curr := FirstAbove(limits, s.speed), seen := s.speed);
    FirstTask(limits, s, acts, n, s1);
    FirstTask(limits, s1, acts[1..], n - 1, s2);
    FirstTask(limits, s2, acts[1..][1..], n - 2, s3);
    FirstTask(limits, s3, acts[1..][1..][1..], n - 3, s4);
    assert acts[1..][1..][1..][1..] == acts[4..];
  }

  /** From the comparison to the top of the loop: one sample, one step. */
  lemma RoundPlays(limits: seq<int>, s: State, acts: seq<Action>)
    requires s.pc == Compare && s.curr != s.last && Undisturbed(acts, 2)
    ensures Run(limits, s, acts)
      == if s.curr < s.last then s.(played := s.played + [Down(s.last)], last := s.last - 1, pc := Head)
         else s.(played := s.played + [Up(s.last + 1)], last := s.last + 1, pc := Head)
  {
    var s1 := s.(pc := Less);
    FirstTask(limits, s, acts, 2, s1);
    FirstTask(limits, s1, acts[1..], 1, TaskStep(limits, s1));
  }

  /** One undisturbed round while the engine runs: one step towards the step of the speed. */
  lemma RoundMoves(limits: seq<int>, s: State, acts: seq<Action>)
    requires s.pc == Head && s.doRun && FirstAbove(limits, s.speed) < |limits| && s.last != FirstAbove(limits, s.speed)
    requires Undisturbed(acts, 6)
    ensures var s' := Run(limits, s, acts);
      && s'.pc == Head && s'.doRun && s'.speed == s.speed
      && s'.last == (if s.last < FirstAbove(limits, s.speed) then s.last + 1 else s.last - 1)
      && s'.played == s.played + [if s.last < FirstAbove(limits, s.speed) then Up(s.last + 1) else Down(s.last)]
  {
    RoundPicks(limits, s, acts, 6);
    RoundPlays(limits, s.(pc := Compare, curr := FirstAbove(limits, s.speed), seen := s.speed), acts[4..]);
  }

  lemma {:induction false} RunAppend(limits: seq<int>, s: State, a: seq<Action>, b: seq<Action>)
    ensures Run(limits, s, a + b) == Run(limits, Run(limits, s, a), b)
    decreases |a|
  {
    if a == [] {
      assert a + b == b;
    } else {
      assert (a + b)[0] == a[0] && (a + b)[1..] == a[1..] + b;
      RunAppend(limits, Next(limits, s, a[0]), a[1..], b);
    }
  }

  /** With a steady speed the sound reaches the step of that speed, in one round of six accesses per step between. */
  lemma {:induction false} SoundFollowsSpeed(limits: seq<int>, s: State, acts: seq<Action>)
    requires s.pc == Head && s.doRun && FirstAbove(limits, s.speed) < |limits|
    requires Undisturbed(acts, 6 * Distance(s.last, FirstAbove(limits, s.speed)))
    ensures var s' := Run(limits, s, acts);
      s'.pc == Head && s'.doRun && s'.speed == s.speed && s'.last == FirstAbove(limits, s.speed)
    decreases |acts|
  {
    if s.last != FirstAbove(limits, s.speed) {
      var round, others := acts[..6], acts[6..];
      assert acts == round + others;
      RunAppend(limits, s, round, others);
      RoundMoves(limits, s, round);
      SoundFollowsSpeed(limits, Run(limits, s, round), others);
    }
  }

  /** A new speed makes the sound follow it. */
  lemma SoundFollowsNewSpeed(limits: seq<int>, s: State, v: int, acts: seq<Action>)
    requires s.pc == Head && s.doRun && FirstAbove(limits, v) < |limits|
    requires Undisturbed(acts, 6 * Distance(s.last, FirstAbove(limits, v)))
    ensures Run(limits, s, [SetSpeed(v)] + acts).last == FirstAbove(limits, v)
  {
    assert ([SetSpeed(v)] + acts)[1..] == acts;
    SoundFollowsSpeed(limits, s.(speed := v), acts);
  }

  // ----- cancel -----

  /** Only cancel takes the run flag down. */
  lemma {:induction false} FlagStays(limits: seq<int>, s: State, acts: seq<Action>)
    requires forall k :: 0 <= k < |acts| ==> !acts[k].CancelRun?
    ensures Run(limits, s, acts).doRun == s.doRun
    decreases |acts|
  {
    if acts != [] {
      FlagStays(limits, Next(limits, s, acts[0]), acts[1..]);
    }
  }

  /** The first write of cancel, between the choice of a step and the comparison, makes the next sample a way down. */
  lemma CancelTurnsDown(limits: seq<int>, s: State)
    requires s.pc == Compare && s.last >= 0
    ensures var s' := Run(limits, s, [CancelStep] + ([Task] + ([Task] + [])));
      s'.pc == Head && s'.last == s.last - 1 && s'.played == s.played + [Down(s.last)]
  {
    var s1 := s.(curr := -1);
    RunCons(limits, s, CancelStep, [Task] + ([Task] + []));
    RunCons(limits, s1, Task, [Task] + []);
    RunCons(limits, s1.(pc := Less), Task, []);
  }

  lemma RunCons(limits: seq<int>, s: State, a: Action, acts: seq<Action>)
    ensures Run(limits, s, [a] + acts) == Run(limits, Next(limits, s, a), acts)
  {
    assert ([a] + acts)[1..] == acts;
  }

  /** Inside a run with the loco standing: what was read of the speed is 0. */
  ghost predicate Standing(limits: seq<int>, s: State) {
    && s.speed == 0 && -1 <= s.curr < |limits| && -1 <= s.last < |limits|
    && (s.pc == Test || s.pc == SwitchOff || s.pc == Pick ==> s.seen == 0)
    && (s.pc == SwitchOff ==> !s.doRun && s.last == 0)
    && (s.pc == Done ==> !s.doRun && s.last == -1)
  }

  lemma StandingStep(limits: seq<int>, s: State, a: Action)
    requires ValidLimits(limits) && Standing(limits, s) && !a.SetSpeed?
    requires s.pc == Less ==> s.curr != s.last || s.curr == -1
    ensures Standing(limits, Next(limits, s, a))
    ensures var s' := Next(limits, s, a); s'.pc == Less ==> s'.curr != s'.last || s'.curr == -1
  {
  }

  /** An upper bound for the accesses left once the flag is down: at most the round under way and one step more. */
  function AtMost(s: State): int {
    match s.pc
    case Read => 6 * (s.last + 2) + 6
    case Test => 6 * (s.last + 2) + 5
    case SwitchOff => 6 * (s.last + 2) + 4
    case Pick => 6 * (s.last + 2) + 4
    case Compare => 6 * (s.last + 2) + 3
    case Less => 6 * (s.last + 2) + 2
    case _ => Remaining(s)
  }

  ghost predicate Ending(limits: seq<int>, s: State) {
    Standing(limits, s) && !s.doRun && (s.pc == Less ==> s.curr != s.last || s.curr == -1)
  }

  /** One access with the flag down: the loop is bound to go down, or the round under way goes on. */
  lemma EndingStep(limits: seq<int>, s: State, a: Action)
    requires ValidLimits(limits) && Ending(limits, s) && !Stopping(s) && !a.SetSpeed?
    ensures var s' := Next(limits, s, a);
      && Ending(limits, s') && (s'.last == s.last || s'.last == s.last + 1)
      && (a.Task? ==> (if Stopping(s') then Remaining(s') else AtMost(s')) < AtMost(s))
      && (!a.Task? ==> (if Stopping(s') then Remaining(s') else AtMost(s')) <= AtMost(s))
      && (!Stopping(s') ==> s'.played == s.played && s'.last == s.last)
      && s.played <= s'.played && |s'.played| <= |s.played| + 1
  {
    StandingStep(limits, s, a);
    if a.Task? && s.pc == Pick {
      FirstAboveIs(limits, 0, 0);
    }
  }

  /** Once the flag is down, enough accesses of the loop end it, with at most one sample before the way down. */
  lemma {:induction false} EndingRun(limits: seq<int>, s: State, acts: seq<Action>) returns (p: seq<Sample>, k: int)
    requires ValidLimits(limits) && Ending(limits, s)
    requires forall i :: 0 <= i < |acts| ==> !acts[i].SetSpeed?
    requires Tasks(acts) >= if Stopping(s) then Remaining(s) else AtMost(s)
    ensures Run(limits, s, acts).pc == Done && k >= -1 && Run(limits, s, acts).played == p + DownFrom(k)
    ensures s.played <= p && |p| <= |s.played| + 1 && (k == s.last || k == s.last + 1)
    ensures Stopping(s) ==> p == s.played && k == s.last
    decreases |acts|
  {
    if Stopping(s) {
      StoppingRun(limits, s, acts);
      p, k := s.played, s.last;
      var s' := Run(limits, s, acts);
      assert s'.played + [] == s'.played;
    } else {
      assert acts != [];
      EndingStep(limits, s, acts[0]);
      p, k := EndingRun(limits, Next(limits, s, acts[0]), acts[1..]);
    }
  }

  lemma {:induction false} StandingRun(limits: seq<int>, s: State, acts: seq<Action>)
    requires ValidLimits(limits) && Standing(limits, s) && (s.pc == Less ==> s.curr != s.last || s.curr == -1)
    requires forall i :: 0 <= i < |acts| ==> !acts[i].SetSpeed?
    ensures var s' := Run(limits, s, acts);
      Standing(limits, s') && (s'.pc == Less ==> s'.curr != s'.last || s'.curr == -1)
    decreases |acts|
  {
    if acts != [] {
      StandingStep(limits, s, acts[0]);
      StandingRun(limits, Next(limits, s, acts[0]), acts[1..]);
    }
  }

  /**
   * Cancel ends the loop. From the top of the loop with the loco standing, whatever accesses come before and between the
   * writes of cancel: once the run flag is written, enough accesses of the loop end it, and what is played then is at
   * most one sample of the round under way and the way down.
   */
  lemma CancelEndsLoop(limits: seq<int>, s: State, before: seq<Action>, behind: seq<Action>)
    returns (p: seq<Sample>, k: int)
    requires ValidLimits(limits) && s.pc == Head && s.speed == 0 && -1 <= s.curr < |limits| && -1 <= s.last < |limits|
    requires forall i :: 0 <= i < |before| ==> !before[i].SetSpeed?
    requires forall i :: 0 <= i < |behind| ==> !behind[i].SetSpeed?
    requires Tasks(behind) >= 6 * |limits| + 12
    ensures var r, s' := Run(limits, s, before), Run(limits, s, before + ([CancelRun] + behind));
      && s'.pc == Done && k >= -1 && s'.played == p + DownFrom(k)
      && r.played <= p && |p| <= |r.played| + 1 && (k == r.last || k == r.last + 1)
  {
    StandingRun(limits, s, before);
    var r := Run(limits, s, before);
    RunAppend(limits, s, before, [CancelRun] + behind);
    assert ([CancelRun] + behind)[1..] == behind;
    p, k := EndingRun(limits, r.(doRun := false), behind);
  }

  /** At the step of the speed the sample of that step is played again and again. */
  lemma SoundHolds(limits: seq<int>, s: State, acts: seq<Action>)
    requires s.pc == Head && s.doRun && s.last == FirstAbove(limits, s.speed) < |limits| && Undisturbed(acts, 5)
    ensures var s' := Run(limits, s, acts);
      s'.pc == Head && s'.last == s.last && s'.played == s.played + [Hold(s.last)]
  {
    RoundPicks(limits, s, acts, 5);
    var s4 := s.(pc := Compare, curr := FirstAbove(limits, s.speed), seen := s.speed);
    FirstTask(limits, s4, acts[4..], 1, TaskStep(limits, s4));
  }

  /** Faster than every threshold, no step is chosen: the loop, which begins with step 0 as its aim, goes down. */
  lemma TooFastGoesDown(limits: seq<int>, step: int, speed: int, acts: seq<Action>)
    requires 0 < step < |limits| && FirstAbove(limits, speed) == |limits| && Undisturbed(acts, 6)
    ensures var s' := Run(limits, Start(step, true, speed), acts);
      s'.pc == Head && s'.last == step - 1 && s'.played == [Down(step)]
  {
    var s := Start(step, true, speed);
    var s4 := s.(pc := Compare, seen := speed);
    FirstTask(limits, s, acts, 6, s.(pc := Read));
    FirstTask(limits, s.(pc := Read), acts[1..], 5, s.(pc := Test, seen := speed));
    FirstTask(limits, s.(pc := Test, seen := speed), acts[1..][1..], 4, s.(pc := Pick, seen := speed));
    FirstTask(limits, s.(pc := Pick, seen := speed), acts[1..][1..][1..], 3, s4);
    RoundPlays(limits, s4, acts[1..][1..][1..][1..]);
  }
}
