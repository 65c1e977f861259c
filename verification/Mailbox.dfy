// The Digispark mailbox: senders put a command into one slot, the communication thread takes what it finds there.
module Mailbox {

  /** Who holds the mutex; a sender inside has done nothing yet, written the slot, or also counted up. */
  datatype Lock = Free | ByComm | BySender(phase: Phase)
  datatype Phase = Entered | Written | Counted

  /** Where the communication thread is in its loop. */
  datatype Pc = Top | Claimed | Bumped | Holding | Copied | Sending

  /**
   * Commands are numbered 1, 2, ... in the order in which senders write them. `slot` is the number of the command in
   * the shared buffer (0 for none), `copy` the one in the thread's own buffer, `sent` what went to the device.
   */
  datatype State = State(x: nat, y: nat, slot: nat, lock: Lock, pc: Pc, copy: nat, forceRead: bool, sent: seq<nat>)

  const INIT := State(0, 0, 0, Free, Top, 0, false, [])

  datatype Action =
    | SenderLock | SenderWrite | SenderCount | SenderUnlock
    | CommCheck | CommBump | CommLock | CommCopy | CommUnlock | CommSend

  predicate Enabled(s: State, a: Action) {
    match a
    case SenderLock => s.lock == Free
    case SenderWrite => s.lock == BySender(Entered)
    case SenderCount => s.lock == BySender(Written)
    case SenderUnlock => s.lock == BySender(Counted)
    case CommCheck => s.pc == Top
    case CommBump => s.pc == Claimed
    case CommLock => s.pc == Bumped && s.lock == Free
    case CommCopy => s.pc == Holding
    case CommUnlock => s.pc == Copied
    case CommSend => s.pc == Sending
  }

  /** One statement of sendCmd or of the thread's loop. The check and the bump happen outside the mutex. */
  function Next(s: State, a: Action): State
    requires Enabled(s, a)
  {
    match a
    case SenderLock => s.(lock := BySender(Entered))
    case SenderWrite => s.(slot := s.x + 1, lock := BySender(Written))
    case SenderCount => s.(x := s.x + 1, lock := BySender(Counted))
    case SenderUnlock => s.(lock := Free)
    case CommCheck => if s.x <= s.y || s.forceRead then s.(forceRead := false) else s.(pc := Claimed)
    case CommBump => s.(y := s.y + 1, pc := Bumped)
    case CommLock => s.(lock := ByComm, pc := Holding)
    case CommCopy => s.(copy := s.slot, pc := Copied)
    case CommUnlock => s.(lock := Free, pc := Sending)
    case CommSend => s.(sent := s.sent + [s.copy], forceRead := true, pc := Top)
  }

  /** A transmission is under way: counted in y, not yet in sent. */
  predicate Busy(pc: Pc) {
    pc == Bumped || pc == Holding || pc == Copied || pc == Sending
  }

  ghost predicate Inv(s: State) {
    && s.y <= s.x
    && (s.pc == Claimed ==> s.y < s.x)
    && |s.sent| == (if Busy(s.pc) then s.y - 1 else s.y)
    && s.slot == (if s.lock == BySender(Written) then s.x + 1 else s.x)
    && (s.lock == ByComm <==> s.pc == Holding || s.pc == Copied)
    && (s.pc == Copied || s.pc == Sending ==> s.y <= s.copy <= s.x && forall k :: 0 <= k < |s.sent| ==> s.sent[k] <= s.copy)
    && (forall k :: 0 <= k < |s.sent| ==> k + 1 <= s.sent[k] <= s.x)
    && (forall j, k :: 0 <= j < k < |s.sent| ==> s.sent[j] <= s.sent[k])
  }

  lemma NextKeepsInv(s: State, a: Action)
    requires Inv(s) && Enabled(s, a)
    ensures Inv(Next(s, a))
  {
  }

  ghost predicate GoodRun(s: State, acts: seq<Action>)
    decreases |acts|
  {
    acts == [] || (Enabled(s, acts[0]) && GoodRun(Next(s, acts[0]), acts[1..]))
  }

  ghost function Run(s: State, acts: seq<Action>): State
    requires GoodRun(s, acts)
    decreases |acts|
  {
    if acts == [] then s else Run(Next(s, acts[0]), acts[1..])
  }

  lemma {:induction false} RunKeepsInv(s: State, acts: seq<Action>)
    requires Inv(s) && GoodRun(s, acts)
    ensures Inv(Run(s, acts))
    decreases |acts|
  {
    if acts != [] {
      NextKeepsInv(s, acts[0]);
      RunKeepsInv(Next(s, acts[0]), acts[1..]);
    }
  }

  /**
   * Under every interleaving of any number of senders with the thread: y never passes x, the k-th transmission carries
   * a command numbered at least k, numbers never go down, and with x = y at the top of the loop and no sender inside
   * the mutex the last command transmitted is the last one submitted.
   */
  lemma MailboxSafety(acts: seq<Action>)
    requires GoodRun(INIT, acts)
    ensures var s := Run(INIT, acts);
      && s.y <= s.x && |s.sent| <= s.y
      && (forall k :: 0 <= k < |s.sent| ==> k + 1 <= s.sent[k] <= s.x)
      && (forall j, k :: 0 <= j < k < |s.sent| ==> s.sent[j] <= s.sent[k])
      && (s.pc == Top && s.x == s.y && s.x > 0 && !s.lock.BySender? ==> s.sent != [] && s.sent[|s.sent| - 1] == s.x == s.slot)
  {
    RunKeepsInv(INIT, acts);
  }

  // ----- the thread left alone -----

  /** One full round of the loop without interruption. */
  function Round(s: State): State
    requires s.pc == Top && s.lock == Free
  {
    if s.x <= s.y || s.forceRead then s.(forceRead := false)
    else s.(y := s.y + 1, copy := s.slot, sent := s.sent + [s.slot], forceRead := true)
  }

  /** The accesses of one round: only the check, or all the way to the device. */
  function RoundActions(s: State): seq<Action> {
    if s.x <= s.y || s.forceRead then [CommCheck] + []
    else [CommCheck] + ([CommBump] + ([CommLock] + ([CommCopy] + ([CommUnlock] + ([CommSend] + [])))))
  }

  lemma RunCons(s: State, a: Action, acts: seq<Action>, s': State)
    requires Enabled(s, a) && s' == Next(s, a) && GoodRun(s', acts)
    ensures GoodRun(s, [a] + acts) && Run(s, [a] + acts) == Run(s', acts)
  {
  }

  lemma RoundIsRun(s: State)
    requires s.pc == Top && s.lock == Free
    ensures GoodRun(s, RoundActions(s)) && Run(s, RoundActions(s)) == Round(s)
  {
    if s.x <= s.y || s.forceRead {
      RunCons(s, CommCheck, [], Round(s));
    } else {
      var s1 := s.(pc := Claimed);
      var s2 := s.(pc := Bumped, y := s.y + 1);
      var s3 := s2.(pc := Holding, lock := ByComm);
      var s4 := s3.(pc := Copied, copy := s.slot);
      var s5 := s4.(pc := Sending, lock := Free);
      var r4 := [CommUnlock] + ([CommSend] + []);
      var r2 := [CommLock] + ([CommCopy] + r4);
      RunCons(s5, CommSend, [], Round(s));
      RunCons(s4, CommUnlock, [CommSend] + [], s5);
      RunCons(s3, CommCopy, r4, s4);
      RunCons(s2, CommLock, [CommCopy] + r4, s3);
      RunCons(s1, CommBump, r2, s2);
      RunCons(s, CommCheck, [CommBump] + r2, s1);
    }
  }

  function Rounds(s: State, n: nat): State
    requires s.pc == Top && s.lock == Free
    decreases n
  {
    if n == 0 then s else Rounds(Round(s), n - 1)
  }

  /** When senders fall silent, two rounds per outstanding command are enough to deliver the last command. */
  lemma {:induction false} LastCommandIsDelivered(s: State, n: nat)
    requires Inv(s) && s.pc == Top && s.lock == Free && s.x > 0
    requires n >= 2 * (s.x - s.y) + (if s.forceRead then 1 else 0)
    ensures var s' := Rounds(s, n);
      s'.x == s'.y == s.x && s'.sent != [] && s'.sent[|s'.sent| - 1] == s.x
    decreases n
  {
    if n > 0 {
      var s1 := Round(s);
      RoundIsRun(s);
      RunKeepsInv(s, RoundActions(s));
      LastCommandIsDelivered(s1, n - 1);
    }
  }

  /** After a transmission the next round only reads, and the one behind it transmits again if there is something new. */
  lemma ReadsAfterSending(s: State)
    requires s.pc == Top && s.lock == Free && s.y < s.x && !s.forceRead
    ensures var s1 := Round(s);
      && s1.sent == s.sent + [s.slot] && s1.y == s.y + 1
      && Round(s1).sent == s1.sent && Round(s1).y == s1.y
      && (s1.y < s1.x ==> Round(Round(s1)).sent == s1.sent + [s.slot])
  {
  }
}
