// The Raspberry pin controller: several alternative expressions per pin, each digital or dimmed by soft PWM.
module PinControl {

  /** One line of the pin configuration with its history. pwm 100 means digital, maxTime 0 means unlimited. */
  datatype Entry = Entry(pin: int, pwm: int, maxTime: nat, lastState: bool, lastChange: int)

  /** What a pin does. While a soft PWM runs, its thread overrides digital writes. */
  datatype Output = Digital(on: bool) | SoftPwm(percent: int)

  function DigitalWrite(out: Output, on: bool): Output {
    if out.SoftPwm? then out else Digital(on)
  }

  function SoftPwmStop(out: Output): Output {
    if out.SoftPwm? then Digital(false) else out
  }

  // ----- one pin -----

  /** The state inside the do-while loop over the alternatives of one pin. */
  datatype Walk = Walk(es: seq<Entry>, out: Output, value: bool, ctl: nat)

  /** One alternative: a true one takes over, a false one that was active is switched off. */
  function Visit(w: Walk, i: nat, holds: bool): (w': Walk)
    requires i < |w.es| && w.ctl < |w.es|
    ensures |w'.es| == |w.es| && w'.ctl < |w'.es|
  {
    if holds then w.(value := true, ctl := i)
    else if w.es[i].lastState then
      var out := if w.es[i].pwm != 100 then SoftPwmStop(w.out) else DigitalWrite(w.out, w.value);
      var es := w.es[i := w.es[i].(lastState := false)];
      w.(out := out, es := es[w.ctl := es[w.ctl].(lastState := false)])
    else w
  }

  /** The alternatives from i on, in order. */
  function VisitAll(w: Walk, i: nat, holds: seq<bool>): (w': Walk)
    requires i <= |w.es| == |holds| && w.ctl < |w.es|
    ensures |w'.es| == |w.es| && w'.ctl < |w'.es|
    decreases |holds| - i
  {
    if i == |holds| then w else VisitAll(Visit(w, i, holds[i]), i + 1, holds)
  }

  /** What happens to the pin after the walk. */
  function Settle(w: Walk, force: bool, now: int): (w': Walk)
    requires w.ctl < |w.es|
    ensures |w'.es| == |w.es| && w'.ctl == w.ctl
  {
    var e := w.es[w.ctl];
    if force || w.value != e.lastState then
      var out :=
        if e.pwm != 100 then (if w.value then SoftPwm(e.pwm) else w.out)
        else DigitalWrite(w.out, w.value);
      w.(out := out, es := w.es[w.ctl := e.(lastState := w.value, lastChange := now)])
    else if e.maxTime != 0 && w.value && Half(now) == Half(e.lastChange + e.maxTime) then
      w.(out := DigitalWrite(w.out, false))
    else w
  }

  /** A shift right by one, which rounds down. */
  function Half(x: int): int {
    x / 2
  }

  function CommitPin(es: seq<Entry>, out: Output, holds: seq<bool>, force: bool, now: int): (w: Walk)
    requires 0 < |es| == |holds|
    ensures |w.es| == |es|
  {
    Settle(VisitAll(Walk(es, out, false, 0), 0, holds), force, now)
  }

  // ----- what a pin should do -----

  /** The last alternative that holds, or -1. */
  function LastTrue(holds: seq<bool>): (t: int)
    ensures -1 <= t < |holds|
    ensures t >= 0 ==> holds[t]
    ensures forall i :: t < i < |holds| ==> !holds[i]
  {
    if holds == [] then -1
    else if holds[|holds| - 1] then |holds| - 1
    else LastTrue(holds[..|holds| - 1])
  }

  function Wanted(es: seq<Entry>, a: int): Output
    requires -1 <= a < |es|
  {
    if a < 0 then Digital(false) else if es[a].pwm == 100 then Digital(true) else SoftPwm(es[a].pwm)
  }

  /** Alternative a drives the pin, or none does if a is -1: its configuration is on the output, its history says so. */
  ghost predicate Drives(es: seq<Entry>, a: int, out: Output) {
    && -1 <= a < |es|
    && (forall i :: 0 <= i < |es| ==> (es[i].lastState <==> i == a))
    && out == Wanted(es, a)
  }

  /** The alternative that drives the pin either gives way or is still the last one that holds. */
  ghost predicate GivesWay(a: int, holds: seq<bool>)
    requires -1 <= a < |holds|
  {
    a == -1 || !holds[a] || a == LastTrue(holds)
  }

  ghost predicate Unlimited(es: seq<Entry>) {
    forall i :: 0 <= i < |es| ==> es[i].maxTime == 0
  }

  /** Same configuration, maybe another history. */
  ghost predicate SameConfig(es: seq<Entry>, es': seq<Entry>) {
    && |es| == |es'|
    && forall i :: 0 <= i < |es| ==> es'[i].pin == es[i].pin && es'[i].pwm == es[i].pwm && es'[i].maxTime == es[i].maxTime
  }

  /** The walk after i alternatives, when a drives the pin and gives way or stays last. */
  ghost predicate Walking(es: seq<Entry>, a: int, holds: seq<bool>, i: nat, w: Walk) {
    && |w.es| == |es| == |holds| && i <= |es| && -1 <= a < |es| && SameConfig(es, w.es)
    && w.value == (LastTrue(holds[..i]) >= 0)
    && w.ctl == (if LastTrue(holds[..i]) >= 0 then LastTrue(holds[..i]) else 0)
    && var off := 0 <= a < i && !holds[a];
      && (forall k :: 0 <= k < |es| ==> (w.es[k].lastState <==> k == a && !off))
      && (!off ==> w.out == Wanted(es, a))
      && (off && w.out.SoftPwm? ==> false)
      && (off && LastTrue(holds[..i]) < 0 ==> w.out == Digital(false))
  }

  lemma VisitStep(es: seq<Entry>, a: int, holds: seq<bool>, i: nat, w: Walk)
    requires Walking(es, a, holds, i, w) && i < |es|
    ensures Walking(es, a, holds, i + 1, Visit(w, i, holds[i]))
  {
    assert holds[..i + 1][..i] == holds[..i];
    assert LastTrue(holds[..i + 1]) == if holds[i] then i else LastTrue(holds[..i]);
  }

  lemma {:induction false} VisitRest(es: seq<Entry>, a: int, holds: seq<bool>, i: nat, w: Walk)
    requires Walking(es, a, holds, i, w) && w.ctl < |es|
    ensures Walking(es, a, holds, |es|, VisitAll(w, i, holds))
    decreases |es| - i
  {
    if i < |es| {
      VisitStep(es, a, holds, i, w);
      VisitRest(es, a, holds, i + 1, Visit(w, i, holds[i]));
    }
  }

  /** The walk of a pin whose driving alternative stays. */
  lemma SettleStays(es: seq<Entry>, a: int, w: Walk, force: bool, now: int)
    requires 0 < |es| == |w.es| && SameConfig(es, w.es) && Unlimited(es) && Drives(w.es, a, w.out)
    requires w.value == (a >= 0) && w.ctl == if a >= 0 then a else 0
    ensures SameConfig(es, Settle(w, force, now).es) && Drives(Settle(w, force, now).es, a, Settle(w, force, now).out)
  {
  }

  /** The walk of a pin that was switched off on the way: the last alternative that holds, if any, switches it on. */
  lemma SettleSwitches(es: seq<Entry>, t: int, w: Walk, force: bool, now: int)
    requires 0 < |es| == |w.es| && SameConfig(es, w.es) && Unlimited(es) && -1 <= t < |es|
    requires w.value == (t >= 0) && w.ctl == if t >= 0 then t else 0
    requires forall k :: 0 <= k < |es| ==> !w.es[k].lastState
    requires !w.out.SoftPwm? && (t < 0 ==> w.out == Digital(false))
    ensures SameConfig(es, Settle(w, force, now).es) && Drives(Settle(w, force, now).es, t, Settle(w, force, now).out)
  {
  }

  lemma SettleDrives(es: seq<Entry>, a: int, holds: seq<bool>, w: Walk, force: bool, now: int)
    requires 0 < |es| == |holds| && -1 <= a < |holds| && Walking(es, a, holds, |es|, w) && Unlimited(es)
    requires holds[..|es|] == holds && GivesWay(a, holds)
    ensures SameConfig(es, Settle(w, force, now).es)
    ensures Drives(Settle(w, force, now).es, LastTrue(holds), Settle(w, force, now).out)
  {
    var t := LastTrue(holds);
    if t == a {
      assert Drives(w.es, a, w.out);
      SettleStays(es, a, w, force, now);
    } else {
      SettleSwitches(es, t, w, force, now);
    }
  }

  lemma SettleTwoActive(es: seq<Entry>, a: int, holds: seq<bool>, w: Walk, force: bool, now: int)
    requires 0 < |es| == |holds| && -1 <= a < |holds| && Walking(es, a, holds, |es|, w) && Unlimited(es)
    requires holds[..|es|] == holds && !GivesWay(a, holds)
    ensures SameConfig(es, Settle(w, force, now).es) && Settle(w, force, now).es[a].lastState && a != LastTrue(holds)
  {
  }

  /**
   * One commit of one pin, exactly: the last alternative that holds drives the pin afterwards, on the output and alone
   * in the history, if and only if the alternative that drove it before has given way or is that last one.
   */
  lemma CommitPinIff(es: seq<Entry>, a: int, out: Output, holds: seq<bool>, force: bool, now: int)
    requires 0 < |es| == |holds| && Drives(es, a, out) && Unlimited(es)
    ensures var w := CommitPin(es, out, holds, force, now);
      SameConfig(es, w.es) && (Drives(w.es, LastTrue(holds), w.out) <==> GivesWay(a, holds))
  {
    var w0 := Walk(es, out, false, 0);
    assert LastTrue(holds[..0]) == -1;
    VisitRest(es, a, holds, 0, w0);
    assert holds[..|es|] == holds;
    var w := VisitAll(w0, 0, holds);
    if GivesWay(a, holds) {
      SettleDrives(es, a, holds, w, force, now);
    } else {
      SettleTwoActive(es, a, holds, w, force, now);
    }
  }

  // ----- any history -----

  /** An alternative that was active and does not hold any more. */
  predicate Drops(es: seq<Entry>, holds: seq<bool>, i: nat)
    requires i < |es| == |holds|
  {
    es[i].lastState && !holds[i]
  }

  /** The last digital alternative before n that drops, or -1. */
  function LastDigitalDrop(es: seq<Entry>, holds: seq<bool>, n: nat): (j: int)
    requires n <= |es| == |holds|
    ensures -1 <= j < n
    ensures j >= 0 ==> Drops(es, holds, j) && es[j].pwm == 100
    ensures forall i :: j < i < n ==> !(Drops(es, holds, i) && es[i].pwm == 100)
  {
    if n == 0 then -1
    else if Drops(es, holds, n - 1) && es[n - 1].pwm == 100 then n - 1
    else LastDigitalDrop(es, holds, n - 1)
  }

  /** The first dimmed alternative before n that drops, or -1. */
  function FirstDimmedDrop(es: seq<Entry>, holds: seq<bool>, n: nat): (j: int)
    requires n <= |es| == |holds|
    ensures -1 <= j < n
    ensures j >= 0 ==> Drops(es, holds, j) && es[j].pwm != 100
    ensures forall i :: 0 <= i < (if j < 0 then n else j) ==> !(Drops(es, holds, i) && es[i].pwm != 100)
  {
    if n == 0 then -1
    else if FirstDimmedDrop(es, holds, n - 1) >= 0 then FirstDimmedDrop(es, holds, n - 1)
    else if Drops(es, holds, n - 1) && es[n - 1].pwm != 100 then n - 1
    else -1
  }

  /**
   * The output when n alternatives have been visited. A running soft PWM goes on until a dimmed alternative drops, which
   * switches the pin off; from there on the last digital alternative that drops decides: it leaves the pin on exactly if
   * an alternative before it holds.
   */
  function OutputOf(es: seq<Entry>, out: Output, holds: seq<bool>, n: nat): Output
    requires n <= |es| == |holds|
  {
    var d, j := FirstDimmedDrop(es, holds, n), LastDigitalDrop(es, holds, n);
    if out.SoftPwm? && d < 0 then out
    else if j > (if out.SoftPwm? then d else -1) then Digital(LastTrue(holds[..j]) >= 0)
    else if out.SoftPwm? then Digital(false)
    else out
  }

  /** Alternative k was active, still holds, and was not the last one that held when one behind it dropped. */
  ghost predicate StaysActive(es: seq<Entry>, holds: seq<bool>, k: nat, n: nat)
    requires k < |es| == |holds| && n <= |es|
  {
    && es[k].lastState && (k < n ==> holds[k])
    && forall i :: 0 <= i < n && Drops(es, holds, i) ==> LastTrue(holds[..i]) != k
  }

  /** Nothing but the states differs. */
  ghost predicate OnlyStates(es: seq<Entry>, es': seq<Entry>) {
    SameConfig(es, es') && forall k :: 0 <= k < |es| ==> es'[k].lastChange == es[k].lastChange
  }

  lemma VisitOnlyStates(es: seq<Entry>, w: Walk, i: nat, holds: bool)
    requires OnlyStates(es, w.es) && i < |w.es| && w.ctl < |w.es|
    ensures OnlyStates(es, Visit(w, i, holds).es)
  {
  }

  /** The walk after n alternatives, from any history. */
  ghost predicate Walked(es: seq<Entry>, out: Output, holds: seq<bool>, n: nat, w: Walk) {
    && |w.es| == |es| == |holds| && n <= |es| && OnlyStates(es, w.es)
    && w.value == (LastTrue(holds[..n]) >= 0)
    && w.ctl == (if LastTrue(holds[..n]) >= 0 then LastTrue(holds[..n]) else 0)
    && w.out == OutputOf(es, out, holds, n)
    && forall k :: 0 <= k < |es| ==> (w.es[k].lastState <==> StaysActive(es, holds, k, n))
  }

  lemma OutputStep(es: seq<Entry>, out: Output, holds: seq<bool>, n: nat)
    requires n < |es| == |holds|
    ensures var o := OutputOf(es, out, holds, n);
      OutputOf(es, out, holds, n + 1) ==
        if !Drops(es, holds, n) then o
        else if es[n].pwm != 100 then SoftPwmStop(o)
        else DigitalWrite(o, LastTrue(holds[..n]) >= 0)
  {
  }

  lemma ActiveStep(es: seq<Entry>, holds: seq<bool>, k: nat, n: nat)
    requires k < |es| == |holds| && n < |es|
    ensures StaysActive(es, holds, k, n + 1) <==>
      StaysActive(es, holds, k, n) && !(Drops(es, holds, n) && (k == n || LastTrue(holds[..n]) == k))
  {
  }

  lemma WalkedStep(es: seq<Entry>, out: Output, holds: seq<bool>, n: nat, w: Walk)
    requires Walked(es, out, holds, n, w) && n < |es|
    ensures Walked(es, out, holds, n + 1, Visit(w, n, holds[n]))
  {
    assert holds[..n + 1][..n] == holds[..n];
    VisitOnlyStates(es, w, n, holds[n]);
    OutputStep(es, out, holds, n);
    assert LastTrue(holds[..n + 1]) == if holds[n] then n else LastTrue(holds[..n]);
    forall k | 0 <= k < |es|
      ensures Visit(w, n, holds[n]).es[k].lastState <==> StaysActive(es, holds, k, n + 1)
    {
      VisitedHistory(es, out, holds, n, w, k);
    }
  }

  lemma VisitedHistory(es: seq<Entry>, out: Output, holds: seq<bool>, n: nat, w: Walk, k: nat)
    requires Walked(es, out, holds, n, w) && n < |es| && k < |es|
    ensures Visit(w, n, holds[n]).es[k].lastState <==> StaysActive(es, holds, k, n + 1)
  {
    ActiveStep(es, holds, k, n);
    assert w.es[n].lastState <==> es[n].lastState;
  }

  lemma {:induction false} WalkedRest(es: seq<Entry>, out: Output, holds: seq<bool>, n: nat, w: Walk)
    requires Walked(es, out, holds, n, w) && w.ctl < |es|
    ensures Walked(es, out, holds, |es|, VisitAll(w, n, holds))
    decreases |es| - n
  {
    if n < |es| {
      WalkedStep(es, out, holds, n, w);
      WalkedRest(es, out, holds, n + 1, Visit(w, n, holds[n]));
    }
  }

  /** The output after a commit, from any history and output: t is the last alternative that holds. */
  ghost function CommittedOutput(es: seq<Entry>, out: Output, holds: seq<bool>, force: bool): Output
    requires 0 < |es| == |holds|
  {
    var t, o := LastTrue(holds), OutputOf(es, out, holds, |es|);
    if t < 0 then (if force && es[0].pwm == 100 then DigitalWrite(o, false) else o)
    else if !force && StaysActive(es, holds, t, |es|) then o
    else if es[t].pwm != 100 then SoftPwm(es[t].pwm)
    else DigitalWrite(o, true)
  }

  /**
   * One commit of one pin from any history, with any number of active alternatives: its output, that afterwards the last
   * alternative that holds is active, with those that stayed active, and whose time limit starts again.
   */
  lemma CommitFromAnyHistory(es: seq<Entry>, out: Output, holds: seq<bool>, force: bool, now: int)
    requires 0 < |es| == |holds| && Unlimited(es)
    ensures var w := CommitPin(es, out, holds, force, now);
      && SameConfig(es, w.es) && w.out == CommittedOutput(es, out, holds, force)
      && forall k :: 0 <= k < |es| ==>
        && (w.es[k].lastState <==> k == LastTrue(holds) || StaysActive(es, holds, k, |es|))
        && w.es[k].lastChange == if Restarts(es, holds, force, k) then now else es[k].lastChange
  {
    var w0 := Walk(es, out, false, 0);
    assert LastTrue(holds[..0]) == -1;
    WalkedRest(es, out, holds, 0, w0);
    assert holds[..|es|] == holds;
    SettleWalked(es, out, holds, VisitAll(w0, 0, holds), force, now);
  }

  /** The entry whose time is set by a commit: a forced one, or one that starts a new alternative. */
  ghost predicate Restarts(es: seq<Entry>, holds: seq<bool>, force: bool, k: nat)
    requires k < |es| == |holds|
  {
    var t := LastTrue(holds);
    k == (if t < 0 then 0 else t) && (force || (t >= 0 && !StaysActive(es, holds, t, |es|)))
  }

  lemma SettleWalked(es: seq<Entry>, out: Output, holds: seq<bool>, w: Walk, force: bool, now: int)
    requires 0 < |es| == |holds| && Unlimited(es) && Walked(es, out, holds, |es|, w) && holds[..|es|] == holds
    ensures var w' := Settle(w, force, now);
      && SameConfig(es, w'.es) && w'.out == CommittedOutput(es, out, holds, force)
      && forall k :: 0 <= k < |es| ==>
        && (w'.es[k].lastState <==> k == LastTrue(holds) || StaysActive(es, holds, k, |es|))
        && w'.es[k].lastChange == if Restarts(es, holds, force, k) then now else es[k].lastChange
  {
    if LastTrue(holds) < 0 {
      assert !StaysActive(es, holds, 0, |es|);
    }
  }

  /**
   * A digital pin is off although an alternative holds, exactly if the last one that holds was active, nothing dropped
   * behind it, and the pin was off or the last drop found no alternative before it that holds.
   */
  lemma DigitalOffIff(es: seq<Entry>, out: Output, holds: seq<bool>, now: int)
    requires 0 < |es| == |holds| && Unlimited(es) && out.Digital? && LastTrue(holds) >= 0
    requires forall i :: 0 <= i < |es| ==> es[i].pwm == 100
    ensures var t, j := LastTrue(holds), LastDigitalDrop(es, holds, |es|);
      CommitPin(es, out, holds, false, now).out == Digital(false) <==>
        es[t].lastState && j < t && (if j < 0 then out == Digital(false) else LastTrue(holds[..j]) < 0)
  {
    CommitFromAnyHistory(es, out, holds, false, now);
    var t, j := LastTrue(holds), LastDigitalDrop(es, holds, |es|);
    if j > t {
      LastTrueBehind(holds, j);
    }
    assert StaysActive(es, holds, t, |es|) <==> es[t].lastState && j < t;
  }

  /** Behind the last alternative that holds, it is the last one of every prefix. */
  lemma {:induction false} LastTrueBehind(holds: seq<bool>, j: nat)
    requires 0 <= LastTrue(holds) < j <= |holds|
    ensures LastTrue(holds[..j]) == LastTrue(holds)
  {
    var t, u := LastTrue(holds), LastTrue(holds[..j]);
    assert holds[..j][t];
    assert u >= 0 ==> holds[u];
  }

  // ----- all pins, as the program runs them -----

  /** The alternatives of one pin number, in order, and the pin itself. */
  datatype Pin = Pin(es: seq<Entry>, out: Output)

  /** One call: which alternatives hold at the moment, per pin, and the clock. */
  datatype Commit = Commit(holds: seq<seq<bool>>, force: bool, now: int)

  predicate Matches(pins: seq<Pin>, holds: seq<seq<bool>>) {
    |pins| == |holds| && forall i :: 0 <= i < |pins| ==> 0 < |pins[i].es| == |holds[i]|
  }

  function CommitOne(p: Pin, holds: seq<bool>, force: bool, now: int): (p': Pin)
    requires 0 < |p.es| == |holds|
    ensures |p'.es| == |p.es|
  {
    var w := CommitPin(p.es, p.out, holds, force, now);
    Pin(w.es, w.out)
  }

  function CommitAll(pins: seq<Pin>, c: Commit): (pins': seq<Pin>)
    requires Matches(pins, c.holds)
    ensures |pins'| == |pins|
    ensures forall i :: 0 <= i < |pins| ==> pins'[i] == CommitOne(pins[i], c.holds[i], c.force, c.now)
  {
    seq(|pins|, i requires 0 <= i < |pins| => CommitOne(pins[i], c.holds[i], c.force, c.now))
  }

  class RaspiPins {
    var pins: seq<Pin>

    constructor (pins: seq<Pin>)
      ensures this.pins == pins
    {
      this.pins := pins;
    }

    /** The outer loop over the pins. */
    method Run(c: Commit)
      requires Matches(pins, c.holds)
      modifies this
      ensures pins == CommitAll(old(pins), c)
    {
      for i := 0 to |pins|
        invariant |pins| == |old(pins)|
        invariant pins[..i] == CommitAll(old(pins), c)[..i] && pins[i..] == old(pins)[i..]
      {
        assert pins[i] == old(pins)[i];
        var p := RunPin(pins[i], c.holds[i], c.force, c.now);
        pins := pins[i := p];
      }
    }

    /** The inner do-while loop over the alternatives, and the write behind it. pinCtl is the aliased entry. */
    method RunPin(p: Pin, holds: seq<bool>, force: bool, now: int) returns (p': Pin)
      requires 0 < |p.es| == |holds|
      ensures p' == CommitOne(p, holds, force, now)
    {
      var es, out := p.es, p.out;
      var value, pinCtl := false, 0;
      var it := 0;
      while true
        invariant 0 <= it < |es| == |p.es| && pinCtl < |es|
        invariant VisitAll(Walk(p.es, p.out, false, 0), 0, holds) == VisitAll(Walk(es, out, value, pinCtl), it, holds)
        decreases |es| - it
      {
        if holds[it] {
          value := true;
          pinCtl := it;
        } else if es[it].lastState {
          if es[it].pwm != 100 {
            out := SoftPwmStop(out);
          } else {
            out := DigitalWrite(out, value);
          }
          es := es[it := es[it].(lastState := false)];
          es := es[pinCtl := es[pinCtl].(lastState := false)];
        }
        it := it + 1;
        if it == |es| {
          break;
        }
      }
      if force || value != es[pinCtl].lastState {
        if es[pinCtl].pwm != 100 {
          if value {
            out := SoftPwm(es[pinCtl].pwm);
          }
        } else {
          out := DigitalWrite(out, value);
        }
        es := es[pinCtl := es[pinCtl].(lastState := value, lastChange := now)];
      } else if es[pinCtl].maxTime != 0 && value && Half(now) == Half(es[pinCtl].lastChange + es[pinCtl].maxTime) {
        out := DigitalWrite(out, false);
      }
      p' := Pin(es, out);
    }
  }

  // ----- whole runs -----

  /** At most one alternative holds. */
  ghost predicate Exclusive(holds: seq<bool>) {
    forall i, j :: 0 <= i < j < |holds| ==> !(holds[i] && holds[j])
  }

  ghost predicate ExclusiveRun(pins: seq<Pin>, cs: seq<Commit>)
    decreases |cs|
  {
    cs == [] || (Matches(pins, cs[0].holds)
                 && (forall i :: 0 <= i < |pins| ==> Exclusive(cs[0].holds[i]))
                 && ExclusiveRun(CommitAll(pins, cs[0]), cs[1..]))
  }

  function RunPins(pins: seq<Pin>, cs: seq<Commit>): (pins': seq<Pin>)
    decreases |cs|
  {
    if cs == [] || !Matches(pins, cs[0].holds) then pins else RunPins(CommitAll(pins, cs[0]), cs[1..])
  }

  ghost predicate AllDrive(pins: seq<Pin>, active: seq<int>) {
    && |active| == |pins|
    && forall i :: 0 <= i < |pins| ==> Unlimited(pins[i].es) && Drives(pins[i].es, active[i], pins[i].out)
  }

  function Actives(holds: seq<seq<bool>>): (a: seq<int>)
    ensures |a| == |holds|
  {
    seq(|holds|, i requires 0 <= i < |holds| => LastTrue(holds[i]))
  }

  ghost predicate AllGiveWay(active: seq<int>, holds: seq<seq<bool>>) {
    |active| == |holds| && forall i :: 0 <= i < |holds| ==> -1 <= active[i] < |holds[i]| && GivesWay(active[i], holds[i])
  }

  lemma CommitAllDrivesIff(pins: seq<Pin>, active: seq<int>, c: Commit)
    requires AllDrive(pins, active) && Matches(pins, c.holds)
    ensures AllDrive(CommitAll(pins, c), Actives(c.holds)) <==> AllGiveWay(active, c.holds)
  {
    var pins' := CommitAll(pins, c);
    forall i | 0 <= i < |pins|
      ensures Unlimited(pins'[i].es)
      ensures Drives(pins'[i].es, LastTrue(c.holds[i]), pins'[i].out) <==> GivesWay(active[i], c.holds[i])
    {
      CommitPinIff(pins[i].es, active[i], pins[i].out, c.holds[i], c.force, c.now);
    }
  }

  ghost predicate MatchesAll(pins: seq<Pin>, cs: seq<Commit>) {
    forall k :: 0 <= k < |cs| ==> Matches(pins, cs[k].holds)
  }

  /** After every commit of the run each pin is driven by its last alternative that holds. */
  ghost predicate DrivenThroughout(pins: seq<Pin>, cs: seq<Commit>)
    requires MatchesAll(pins, cs)
    decreases |cs|
  {
    cs == [] ||
    (AllDrive(CommitAll(pins, cs[0]), Actives(cs[0].holds)) && DrivenThroughout(CommitAll(pins, cs[0]), cs[1..]))
  }

  /** In every commit of the run the alternative that drove a pin after the commit before gives way or stays the last. */
  ghost predicate GivingWay(active: seq<int>, cs: seq<Commit>)
    decreases |cs|
  {
    cs == [] || (AllGiveWay(active, cs[0].holds) && GivingWay(Actives(cs[0].holds), cs[1..]))
  }

  /**
   * Over whole runs, exactly: every pin does what its last alternative that holds says after every commit if and only if
   * in every commit the alternative that was last before has dropped or is the last one still.
   */
  lemma {:induction false} PinsFollowIff(pins: seq<Pin>, active: seq<int>, cs: seq<Commit>)
    requires AllDrive(pins, active) && MatchesAll(pins, cs)
    ensures DrivenThroughout(pins, cs) <==> GivingWay(active, cs)
    decreases |cs|
  {
    if cs != [] {
      CommitAllDrivesIff(pins, active, cs[0]);
      if AllGiveWay(active, cs[0].holds) {
        PinsFollowIff(CommitAll(pins, cs[0]), Actives(cs[0].holds), cs[1..]);
      }
    }
  }

  lemma ExclusiveGivesWay(a: int, holds: seq<bool>)
    requires -1 <= a < |holds| && Exclusive(holds)
    ensures GivesWay(a, holds)
  {
  }

  /**
   * After every commit of every run in which the alternatives of a pin exclude each other, each pin does what the
   * alternative that holds says, or is off if none holds, and the history marks exactly that alternative.
   */
  lemma {:induction false} PinsFollowAlternatives(pins: seq<Pin>, active: seq<int>, cs: seq<Commit>)
    requires AllDrive(pins, active) && ExclusiveRun(pins, cs) && cs != []
    ensures AllDrive(RunPins(pins, cs), Actives(cs[|cs| - 1].holds))
    decreases |cs|
  {
    forall i | 0 <= i < |pins|
      ensures GivesWay(active[i], cs[0].holds[i])
    {
      ExclusiveGivesWay(active[i], cs[0].holds[i]);
    }
    CommitAllDrivesIff(pins, active, cs[0]);
    if |cs| > 1 {
      assert cs[1..][|cs| - 2] == cs[|cs| - 1];
      PinsFollowAlternatives(CommitAll(pins, cs[0]), Actives(cs[0].holds), cs[1..]);
    } else {
      assert cs[1..] == [];
      assert RunPins(pins, cs) == RunPins(CommitAll(pins, cs[0]), []) == CommitAll(pins, cs[0]);
    }
  }

  /** Two digital alternatives held together, then the first drops: the pin is off although the second still holds. */
  lemma OverlapSwitchesOff()
    ensures var off := Entry(4, 100, 0, false, 0);
      var p0 := Pin([off, off], Digital(false));
      var p1 := CommitOne(p0, [true, false], false, 0);
      var p2 := CommitOne(p1, [true, true], false, 1);
      var p3 := CommitOne(p2, [false, true], false, 2);
      && Drives(p1.es, 0, p1.out) && !GivesWay(0, [true, true])
      && p2.out == Digital(true) && p3.out == Digital(false) && LastTrue([false, true]) == 1
  {
  }

  // ----- the time limit -----

  /** A pin with one alternative, digital or dimmed, and a limit, switched on at time t0 and still on. */
  ghost predicate SwitchedOn(p: Pin, t0: int, limit: nat) {
    limit > 0 && |p.es| == 1 && p == Pin([Entry(p.es[0].pin, p.es[0].pwm, limit, true, t0)], Wanted(p.es, 0))
  }

  /** Commits at the given clock readings while the alternative keeps holding. */
  function KeepOn(p: Pin, times: seq<int>): Pin
    requires |p.es| == 1
    decreases |times|
  {
    if times == [] then p else KeepOn(CommitOne(p, [true], false, times[0]), times[1..])
  }

  /** The two-second window in which the limit is noticed. */
  predicate InWindow(now: int, t0: int, limit: nat) {
    Half(now) == Half(t0 + limit)
  }

  lemma KeepOnOnce(e: Entry, on: bool, now: int)
    requires e.lastState && e.pwm == 100 && e.maxTime > 0
    ensures CommitOne(Pin([e], Digital(on)), [true], false, now)
      == Pin([e], Digital(on && !InWindow(now, e.lastChange, e.maxTime)))
  {
  }

  /** The pin is off exactly if some commit fell into the window; nothing switches it on again. */
  lemma {:induction false} LimitIff(e: Entry, on: bool, times: seq<int>)
    requires e.lastState && e.pwm == 100 && e.maxTime > 0
    ensures KeepOn(Pin([e], Digital(on)), times)
      == Pin([e], Digital(on && forall k :: 0 <= k < |times| ==> !InWindow(times[k], e.lastChange, e.maxTime)))
    decreases |times|
  {
    if times != [] {
      KeepOnOnce(e, on, times[0]);
      var on' := on && !InWindow(times[0], e.lastChange, e.maxTime);
      LimitIff(e, on', times[1..]);
      assert times == [times[0]] + times[1..];
    }
  }

  /** A dimmed pin is never cut: the write that should do it does not stop a running soft PWM. */
  lemma {:induction false} DimmedIsNotCut(e: Entry, times: seq<int>)
    requires e.lastState && e.pwm != 100
    ensures KeepOn(Pin([e], SoftPwm(e.pwm)), times) == Pin([e], SoftPwm(e.pwm))
    decreases |times|
  {
    if times != [] {
      assert CommitOne(Pin([e], SoftPwm(e.pwm)), [true], false, times[0]) == Pin([e], SoftPwm(e.pwm));
      DimmedIsNotCut(e, times[1..]);
    }
  }

  /** The reading before the k-th one. */
  function Before(t0: int, times: seq<int>, k: nat): int
    requires k < |times|
  {
    if k == 0 then t0 else times[k - 1]
  }

  /** Clock readings from t0 on that never go back and are at most two seconds apart. */
  ghost predicate Regular(t0: int, times: seq<int>) {
    forall k :: 0 <= k < |times| ==> Before(t0, times, k) <= times[k] <= Before(t0, times, k) + 2
  }

  lemma {:induction false} RegularHitsWindow(t0: int, limit: nat, times: seq<int>, n: nat)
    requires Regular(t0, times) && t0 < 2 * Half(t0 + limit) && n < |times| && times[n] >= 2 * Half(t0 + limit)
    ensures exists k :: 0 <= k <= n && InWindow(times[k], t0, limit)
    decreases n
  {
    var h := Half(t0 + limit);
    if times[n] <= 2 * h + 1 {
      assert InWindow(times[n], t0, limit);
    } else {
      assert Before(t0, times, n) >= 2 * h;
      RegularHitsWindow(t0, limit, times, n - 1);
    }
  }

  /** The pin is never cut before t0 + M - 1. */
  lemma NotCutEarly(p: Pin, t0: int, limit: nat, times: seq<int>)
    requires SwitchedOn(p, t0, limit)
    requires forall k :: 0 <= k < |times| ==> times[k] < t0 + limit - 1
    ensures KeepOn(p, times) == p
  {
    var e := p.es[0];
    assert p.es == [e];
    if e.pwm == 100 {
      LimitIff(e, true, times);
    } else {
      DimmedIsNotCut(e, times);
    }
  }

  /** The pin is off by t0 + M + 1 for all readings at most two seconds apart. */
  ghost predicate AlwaysCut(p: Pin, t0: int, limit: nat)
    requires |p.es| == 1
  {
    forall times: seq<int> :: Regular(t0, times) && times != [] && times[|times| - 1] >= t0 + limit + 1
      ==> KeepOn(p, times).out == Digital(false)
  }

  /**
   * With readings at most two seconds apart the pin is off by t0 + M + 1, whatever the readings are, if and only if it
   * is digital, and M is at least 2 or t0 is odd. For M = 1 and an even t0 the window opens at t0 itself and can be
   * missed.
   */
  lemma CutInTimeIff(p: Pin, t0: int, limit: nat)
    requires SwitchedOn(p, t0, limit)
    ensures p.es[0].pwm == 100 && (limit >= 2 || t0 % 2 == 1) <==> AlwaysCut(p, t0, limit)
  {
    var e := p.es[0];
    assert p.es == [e];
    if e.pwm != 100 {
      var times := seq(limit + 1, k requires 0 <= k < limit + 1 => t0 + k + 1);
      assert Regular(t0, times) && times[|times| - 1] == t0 + limit + 1;
      DimmedIsNotCut(e, times);
    } else if limit >= 2 || t0 % 2 == 1 {
      forall times: seq<int> | Regular(t0, times) && times != [] && times[|times| - 1] >= t0 + limit + 1
        ensures KeepOn(p, times).out == Digital(false)
      {
        RegularHitsWindow(t0, limit, times, |times| - 1);
        LimitIff(e, true, times);
      }
    } else {
      var times := [t0 + 2];
      assert Regular(t0, times);
      LimitIff(e, true, times);
      assert !InWindow(t0 + 2, t0, limit);
      assert KeepOn(p, times).out == Digital(true);
    }
  }

  /** A pin that was cut stays off while its alternative holds; once it has dropped, the next rise starts a new period. */
  lemma LimitStartsOver(p: Pin, limit: nat, drop: int, rise: int)
    requires limit > 0 && |p.es| == 1 && p.es[0].maxTime == limit && p.es[0].lastState
    requires if p.es[0].pwm == 100 then p.out.Digital? else p.out.SoftPwm?
    ensures CommitOne(p, [false], false, drop).out == Digital(false)
    ensures SwitchedOn(CommitOne(CommitOne(p, [false], false, drop), [true], false, rise), rise, limit)
  {
  }

  // ----- the time limit with several alternatives -----

  /** A commit in which alternative a stays the last one that holds, as it was before. */
  datatype Held = Held(holds: seq<bool>, now: int)

  /** Alternative a is the only active one, and it is the last one that holds in every commit. */
  ghost predicate HeldBy(es: seq<Entry>, a: nat, cs: seq<Held>) {
    && a < |es| && (forall k :: 0 <= k < |es| ==> (es[k].lastState <==> k == a))
    && forall i :: 0 <= i < |cs| ==> |cs[i].holds| == |es| && LastTrue(cs[i].holds) == a
  }

  function KeepHeld(p: Pin, cs: seq<Held>): Pin
    requires p.es != [] && forall i :: 0 <= i < |cs| ==> |cs[i].holds| == |p.es|
    decreases |cs|
  {
    if cs == [] then p else KeepHeld(CommitOne(p, cs[0].holds, false, cs[0].now), cs[1..])
  }

  lemma {:induction false} HeldVisits(es: seq<Entry>, a: nat, holds: seq<bool>, i: nat, w: Walk)
    requires a < |es| == |holds| && holds[a] && (forall k :: 0 <= k < |es| ==> (es[k].lastState <==> k == a))
    requires i <= |es| && w.es == es && w.ctl < |es|
    ensures VisitAll(w, i, holds).es == es && VisitAll(w, i, holds).out == w.out
    decreases |es| - i
  {
    if i < |es| {
      HeldVisits(es, a, holds, i + 1, Visit(w, i, holds[i]));
    }
  }

  lemma HeldOnce(p: Pin, a: nat, c: Held)
    requires a < |p.es| == |c.holds| && LastTrue(c.holds) == a
    requires forall k :: 0 <= k < |p.es| ==> (p.es[k].lastState <==> k == a)
    ensures var e := p.es[a];
      CommitOne(p, c.holds, false, c.now)
        == if e.maxTime != 0 && InWindow(c.now, e.lastChange, e.maxTime) then Pin(p.es, DigitalWrite(p.out, false)) else p
  {
    var w0 := Walk(p.es, p.out, false, 0);
    HeldVisits(p.es, a, c.holds, 0, w0);
    assert LastTrue(c.holds[..0]) == -1;
    WalkedRest(p.es, p.out, c.holds, 0, w0);
    assert c.holds[..|p.es|] == c.holds;
  }

  /**
   * A pin with any number of alternatives, one of which, digital and with a limit, stays in charge: it is off exactly if
   * some commit fell into the two-second window of that alternative. A pin in charge of one without a limit stays on.
   */
  lemma {:induction false} HeldLimitIff(es: seq<Entry>, a: nat, on: bool, cs: seq<Held>)
    requires HeldBy(es, a, cs) && es[a].pwm == 100
    ensures var e := es[a];
      KeepHeld(Pin(es, Digital(on)), cs) == Pin(es, Digital(on && (e.maxTime == 0
        || forall i :: 0 <= i < |cs| ==> !InWindow(cs[i].now, e.lastChange, e.maxTime))))
    decreases |cs|
  {
    if cs != [] {
      var e := es[a];
      HeldOnce(Pin(es, Digital(on)), a, cs[0]);
      var on' := on && !(e.maxTime != 0 && InWindow(cs[0].now, e.lastChange, e.maxTime));
      HeldLimitIff(es, a, on', cs[1..]);
      assert cs == [cs[0]] + cs[1..];
    }
  }
}
