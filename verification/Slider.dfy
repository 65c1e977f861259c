// The speed slider: averaged readings, and ACC or BREAK commands until the mirrored speed is close enough.
module Slider {
  import opened Bytes
  import opened Util
  import opened LocoTable

  datatype Order = NoOrder | Accelerate | SlowDown

  /** The decision of one poll, from the averaged slider and the mirrored speed. */
  function Decide(avg: int, shown: int): Order {
    if avg >= shown + 5 && shown <= 255 - 5 then Accelerate
    else if avg <= shown - 5 && shown >= 5 then SlowDown
    else NoOrder
  }

  function Sum(s: seq<int>): int {
    if s == [] then 0 else s[0] + Sum(s[1..])
  }

  /** Integer division as the compiler does it: towards zero. */
  function Div10(x: int): (q: int)
    ensures x >= 0 ==> 10 * q <= x < 10 * q + 10
    ensures x < 0 ==> 10 * q - 10 < x <= 10 * q
  {
    if x >= 0 then x / 10 else -((-x) / 10)
  }

  class SliderView {
    const lastValues: array<int>
    var avg: int
    var forceStop: bool

    ghost predicate Valid()
      reads this
    {
      lastValues.Length == 10
    }

    constructor ()
      ensures Valid() && fresh(lastValues) && lastValues[..] == seq(10, _ => 0) && avg == 0 && !forceStop
    {
      lastValues := new int[10](_ => 0);
      avg, forceStop := 0, false;
    }

    /** Drop the oldest reading and append the new one. */
    method Shift(poti: int)
      requires Valid()
      modifies lastValues
      ensures lastValues[..] == old(lastValues[1..]) + [poti]
    {
      ghost var before := lastValues[..];
      for i := 0 to 9
        invariant forall k :: 0 <= k < i ==> lastValues[k] == before[k + 1]
        invariant forall k :: i <= k < 10 ==> lastValues[k] == before[k]
      {
        lastValues[i] := lastValues[i + 1];
      }
      lastValues[9] := poti;
      assert old(lastValues[1..]) == before[1..];
    }

    /**
     * One poll of the slider: shift the history, average it, and decide. A forced stop lasts until the average is 0.
     * With two or more commands already queued the order is dropped.
     */
    method Poll(poti: int, shown: int, queueLength: nat) returns (order: Order)
      requires Valid()
      modifies this, lastValues
      ensures Valid()
      ensures lastValues[..] == old(lastValues[1..]) + [poti]
      ensures avg == Div10(Sum(lastValues[..]))
      ensures forceStop == (old(forceStop) && avg != 0)
      ensures order == if old(forceStop) || queueLength > 1 then NoOrder else Decide(avg, shown)
      ensures order == Accelerate <==> !old(forceStop) && queueLength <= 1 && shown <= 250 && avg - shown >= 5
      ensures order == SlowDown <==> !old(forceStop) && queueLength <= 1 && shown >= 5 && shown - avg >= 5
    {
      Shift(poti);
      var total := 0;
      for i := 0 to 10
        invariant total == Sum(lastValues[..i]) && forceStop == old(forceStop)
        invariant lastValues[..] == old(lastValues[1..]) + [poti]
      {
        SumSnoc(lastValues[..i], lastValues[i]);
        assert lastValues[..i + 1] == lastValues[..i] + [lastValues[i]];
        total := total + lastValues[i];
      }
      assert lastValues[..10] == lastValues[..];
      avg := Div10(total);
      order := NoOrder;
      if forceStop {
        if avg == 0 {
          forceStop := false;
        }
      } else {
        if avg >= shown + 5 && shown <= 255 - 5 && queueLength <= 1 {
          order := Accelerate;
        }
        if avg <= shown - 5 && shown >= 5 && queueLength <= 1 {
          order := SlowDown;
        }
      }
    }
  }

  lemma {:induction false} SumSnoc(s: seq<int>, x: int)
    ensures Sum(s + [x]) == Sum(s) + x
  {
    if s != [] {
      assert (s + [x])[1..] == s[1..] + [x];
      SumSnoc(s[1..], x);
    }
  }

  function Window(history: seq<int>, poti: int, n: nat): seq<int>
    requires |history| == 10
    decreases n
  {
    if n == 0 then history else Window(history[1..] + [poti], poti, n - 1)
  }

  /** Ten polls of a slider that is held still make the average the slider value, whatever the history was. */
  lemma AverageSettles(history: seq<int>, poti: nat)
    requires |history| == 10
    ensures Div10(Sum(Window(history, poti, 10))) == poti
  {
    WindowIs(history, poti, 10);
    SumRepeat(poti, 10);
    assert history[10..] + seq(10, _ => poti) == seq(10, _ => poti);
  }

  lemma {:induction false} WindowIs(history: seq<int>, poti: int, n: nat)
    requires |history| == 10 && n <= 10
    ensures Window(history, poti, n) == history[n..] + seq(n, _ => poti)
    decreases n
  {
    if n == 0 {
      assert history[0..] + seq(0, _ => poti) == history;
    } else {
      var next := history[1..] + [poti];
      WindowIs(next, poti, n - 1);
      assert next[n - 1..] + seq(n - 1, _ => poti) == history[n..] + seq(n, _ => poti);
    }
  }

  lemma {:induction false} SumRepeat(poti: int, n: nat)
    ensures Sum(seq(n, _ => poti)) == n * poti
  {
    if n > 0 {
      assert seq(n, _ => poti)[1..] == seq(n - 1, _ => poti);
      SumRepeat(poti, n - 1);
    }
  }

  // ----- the closed loop -----

  /** The command of an order; no order means the client only polls. */
  function CommandOf(o: Order, addr: int32): Cmd {
    match o
    case NoOrder => Ping
    case Accelerate => Acc(addr)
    case SlowDown => Brake(addr)
  }

  /** What the client's mirror shows after a status reply. */
  function Shown(l: Loco): nat {
    WireSpeed(Wire(l.speed, l.dir))
  }

  /** One poll, the command through the server, the reply back in the mirror. */
  function Loop(t: Table, addr: int32, avg: int): (t': Table)
    requires Known(t, addr)
  {
    Apply(t, CommandOf(Decide(avg, Shown(t[Find(t, addr)])), addr)).table
  }

  /** A loco driven with single commands only: speed a multiple of 5 up to 255, direction forward or backward. */
  ghost predicate Drivable(t: Table, addr: int32) {
    Known(t, addr) && SpeedInRange(t[Find(t, addr)], 0) && (t[Find(t, addr)].dir == 1 || t[Find(t, addr)].dir == -1)
  }

  function SpeedOf(t: Table, addr: int32): int
    requires Known(t, addr)
  {
    t[Find(t, addr)].speed
  }

  /** The speed at which the loop falls silent: the multiple of 5 next to the slider on the side it comes from. */
  function Resting(avg: int, speed: int): int {
    if avg >= speed then (if speed == 0 && avg <= 5 then 0 else avg / 5 * 5)
    else (avg + 4) / 5 * 5
  }

  /** One step of the loop in terms of the speed alone. */
  lemma LoopStep(t: Table, addr: int32, avg: int)
    requires Drivable(t, addr) && 0 <= avg <= 255
    ensures Drivable(Loop(t, addr, avg), addr)
    ensures var s, s' := SpeedOf(t, addr), SpeedOf(Loop(t, addr, avg), addr);
      && Resting(avg, s') == Resting(avg, s)
      && s' == (if s < Resting(avg, s) then s + 5 else if s > Resting(avg, s) then s - 5 else s)
      && (s == Resting(avg, s) <==> Decide(avg, Shown(t[Find(t, addr)])) == NoOrder)
  {
    var l := t[Find(t, addr)];
    LoopEntry(t, addr, avg);
    WireDeterminesSpeed(l);
    SpeedArithmetic(avg, l.speed);
  }

  /** One round gives one loco a new speed. */
  lemma LoopEntry(t: Table, addr: int32, avg: int)
    requires Known(t, addr)
    ensures var i, t' := Find(t, addr), Loop(t, addr, avg);
      var o, s := Decide(avg, Shown(t[i])), t[i].speed;
      && Find(t', addr) == i < |t'|
      && t'[i] == t[i].(speed := if o == Accelerate then Faster(s) else if o == SlowDown then Slower(s) else s)
  {
    FindSame(t, Loop(t, addr, avg), addr);
  }

  /** The arithmetic of one step, for a speed that is a multiple of 5 and shown as 1 when it is 0. */
  lemma SpeedArithmetic(avg: int, s: int)
    requires 0 <= avg <= 255 && 0 <= s <= 255 && s % 5 == 0
    ensures var o := Decide(avg, if s == 0 then 1 else s);
      && (o == Accelerate ==> s < Resting(avg, s) && Faster(s) == s + 5 && Resting(avg, s + 5) == Resting(avg, s))
      && (o == SlowDown ==> s > Resting(avg, s) && Slower(s) == s - 5 && Resting(avg, s - 5) == Resting(avg, s))
      && (o == NoOrder ==> s == Resting(avg, s))
  {
  }

  function LoopN(t: Table, addr: int32, avg: int, n: nat): (t': Table)
    requires Drivable(t, addr) && 0 <= avg <= 255
    ensures Drivable(t', addr)
    decreases n
  {
    if n == 0 then t else LoopStep(t, addr, avg); LoopN(Loop(t, addr, avg), addr, avg, n - 1)
  }

  /** The number of commands sent in n rounds. */
  function Sent(t: Table, addr: int32, avg: int, n: nat): nat
    requires Drivable(t, addr) && 0 <= avg <= 255
    decreases n
  {
    if n == 0 then 0 else
    LoopStep(t, addr, avg);
    (if Decide(avg, Shown(t[Find(t, addr)])) == NoOrder then 0 else 1) + Sent(Loop(t, addr, avg), addr, avg, n - 1)
  }

  /**
   * The closed loop, for every start and every slider position, after any number of rounds: the speed is between the
   * start and the resting speed, never beyond it; every command brings it 5 closer; once the resting speed is reached
   * no command is sent any more.
   */
  lemma {:induction false} LoopProgress(t: Table, addr: int32, avg: int, n: nat)
    requires Drivable(t, addr) && 0 <= avg <= 255
    ensures var r, s, s' := Resting(avg, SpeedOf(t, addr)), SpeedOf(t, addr), SpeedOf(LoopN(t, addr, avg, n), addr);
      && (s <= s' <= r || r <= s' <= s)
      && Distance(s, s') == 5 * Sent(t, addr, avg, n)
      && (Sent(t, addr, avg, n) == n || s' == r)
      && Resting(avg, s') == r
    decreases n
  {
    if n > 0 {
      LoopUnfold(t, addr, avg, n);
      var t1 := Loop(t, addr, avg);
      LoopProgress(t1, addr, avg, n - 1);
      var s, s1, s' := SpeedOf(t, addr), SpeedOf(t1, addr), SpeedOf(LoopN(t1, addr, avg, n - 1), addr);
      RestingBounds(avg, s);
      Monotone(s, s1, s', Resting(avg, s), Sent(t1, addr, avg, n - 1));
    }
  }

  /** n rounds are one round and n - 1 more. */
  lemma LoopUnfold(t: Table, addr: int32, avg: int, n: nat)
    requires Drivable(t, addr) && 0 <= avg <= 255 && n > 0
    ensures var t1, s := Loop(t, addr, avg), SpeedOf(t, addr);
      var r := Resting(avg, s);
      && Drivable(t1, addr) && LoopN(t, addr, avg, n) == LoopN(t1, addr, avg, n - 1)
      && Sent(t, addr, avg, n) == (if s == r then 0 else 1) + Sent(t1, addr, avg, n - 1)
      && Resting(avg, SpeedOf(t1, addr)) == r
      && SpeedOf(t1, addr) == (if s < r then s + 5 else if s > r then s - 5 else s)
  {
    LoopStep(t, addr, avg);
  }

  /** One step towards r, then k more. */
  lemma Monotone(s: int, s1: int, s': int, r: int, k: nat)
    requires s % 5 == 0 && r % 5 == 0
    requires s1 == if s < r then s + 5 else if s > r then s - 5 else s
    requires (s1 <= s' <= r || r <= s' <= s1) && Distance(s1, s') == 5 * k
    ensures (s <= s' <= r || r <= s' <= s) && Distance(s, s') == 5 * if s == r then k else 1 + k
  {
  }

  /**
   * With the slider held, the loop never overshoots, sends at most 51 commands, and from the 51st round on it is
   * silent at a speed at most 5 away from the slider.
   */
  lemma SliderConverges(t: Table, addr: int32, avg: int, n: nat)
    requires Drivable(t, addr) && 0 <= avg <= 255
    ensures var s, s' := SpeedOf(t, addr), SpeedOf(LoopN(t, addr, avg, n), addr);
      && Sent(t, addr, avg, n) <= 51
      && (s <= avg ==> s <= s' <= avg) && (s >= avg ==> avg <= s' <= s)
      && (n >= 51 ==> Distance(s', avg) <= 5)
      && (n >= 51 ==> var t' := LoopN(t, addr, avg, n); Decide(avg, Shown(t'[Find(t', addr)])) == NoOrder)
  {
    LoopProgress(t, addr, avg, n);
    var s := SpeedOf(t, addr);
    RestingBounds(avg, s);
    var t' := LoopN(t, addr, avg, n);
    LoopStep(t', addr, avg);
  }

  lemma RestingBounds(avg: int, s: int)
    requires 0 <= avg <= 255 && 0 <= s <= 255 && s % 5 == 0
    ensures 0 <= Resting(avg, s) <= 255 && Resting(avg, s) % 5 == 0
    ensures Distance(Resting(avg, s), avg) <= 5
    ensures s <= avg ==> s <= Resting(avg, s) <= avg
    ensures s > avg ==> avg <= Resting(avg, s) <= s
  {
  }
}
