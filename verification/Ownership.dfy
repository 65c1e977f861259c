// Who drives which loco, what the track hardware was last told, and what happens when a client goes away.
module Ownership {
  import opened Bytes
  import opened LocoTable

  /** The last drive command sent for a loco: 0 backward, 1 forward, 2 emergency stop, and the decoder speed step. */
  datatype Drive = Drive(dir: nat, step: nat)

  /** The server: table, hardware, connected client numbers, and the counter of client threads. */
  datatype Srv = Srv(table: Table, hw: seq<Drive>, clients: set<nat>, numClients: int)

  /** Number of decoder speed steps: bit 0 of the flags means 14, bit 1 means 28. */
  function Steps(flags: nat): (n: nat) {
    if flags % 2 == 1 then 14 else if flags / 2 % 2 == 1 then 28 else 128
  }

  function Abs(x: int): nat {
    if x < 0 then -x else x
  }

  function DccStep(l: Loco): nat {
    Abs(l.speed) * Steps(l.flags) / 255
  }

  function DriveOf(l: Loco, emergency: bool): Drive {
    Drive(if emergency then 2 else if l.dir < 0 then 0 else 1, DccStep(l))
  }

  // ----- the steps of the server -----

  datatype Event =
    | Connect(client: nat)
    | Command(client: nat, cmd: Cmd, replySent: bool)
    | Disconnect(client: nat)

  /** The hardware flush: the client owns every changed loco and its state is sent; only the first may be an emergency. */
  function Flush(s: Srv, c: nat, changed: set<nat>, emergency: bool): (s': Srv)
    requires |s.hw| == |s.table|
  {
    s.(table := seq(|s.table|, i requires 0 <= i < |s.table| =>
                      if i in changed then s.table[i].(lastClient := c) else s.table[i]),
       hw := seq(|s.table|, i requires 0 <= i < |s.table| =>
                   if i in changed then DriveOf(s.table[i], emergency && NoneBefore(changed, i)) else s.hw[i]))
  }

  predicate NoneBefore(changed: set<nat>, i: nat) {
    forall j :: 0 <= j < i ==> j !in changed
  }

  /** The flush half way: the entries before i are done, the others are as they were. */
  ghost predicate Flushed(s: Srv, c: nat, changed: set<nat>, emergency: bool, i: nat, table: Table, hw: seq<Drive>) {
    && |s.hw| == |s.table| == |table| == |hw| && i <= |table|
    && (forall k :: 0 <= k < i ==> table[k] == if k in changed then s.table[k].(lastClient := c) else s.table[k])
    && (forall k :: 0 <= k < i ==>
          hw[k] == if k in changed then DriveOf(s.table[k], emergency && NoneBefore(changed, k)) else s.hw[k])
    && (forall k :: i <= k < |table| ==> table[k] == s.table[k] && hw[k] == s.hw[k])
  }

  /** One round of the flush loop. */
  lemma FlushRound(s: Srv, c: nat, changed: set<nat>, emergency: bool, i: nat, table: Table, hw: seq<Drive>)
    requires Flushed(s, c, changed, emergency, i, table, hw) && i < |table|
    ensures i !in changed ==> Flushed(s, c, changed, emergency, i + 1, table, hw)
    ensures i in changed ==>
      var l := table[i].(lastClient := c);
      var drive := DriveOf(l, emergency && NoneBefore(changed, i));
      Flushed(s, c, changed, emergency, i + 1, table[i := l], hw[i := drive])
  {
  }

  lemma FlushedAll(s: Srv, c: nat, changed: set<nat>, emergency: bool, table: Table, hw: seq<Drive>)
    requires Flushed(s, c, changed, emergency, |table|, table, hw)
    ensures s.(table := table, hw := hw) == Flush(s, c, changed, emergency)
  {
  }

  predicate ToStop(l: Loco, stopAll: bool, c: nat) {
    if stopAll then l.speed != 0 else l.lastClient == c
  }

  /** fullstop: either everything that moves, or everything the client drove last. */
  function FullStop(s: Srv, stopAll: bool, c: nat): (s': Srv)
    requires |s.hw| == |s.table|
  {
    s.(table := seq(|s.table|, i requires 0 <= i < |s.table| =>
                      if ToStop(s.table[i], stopAll, c) then s.table[i].(speed := 0, lastClient := 0) else s.table[i]),
       hw := seq(|s.table|, i requires 0 <= i < |s.table| =>
                   if ToStop(s.table[i], stopAll, c) then Drive(2, 0) else s.hw[i]))
  }

  /** The destructor of a client thread. */
  function Leave(s: Srv, c: nat): (s': Srv)
    requires |s.hw| == |s.table|
  {
    FullStop(s, s.numClients == 1, c).(clients := s.clients - {c}, numClients := s.numClients - 1)
  }

  predicate Emergency(cmd: Cmd) {
    cmd.Stop? || cmd.StopMulti?
  }

  /** A command that throws, or whose reply cannot be sent, ends the client thread before the hardware flush. */
  function Execute(s: Srv, c: nat, cmd: Cmd, replySent: bool): (s': Srv)
    requires |s.hw| == |s.table|
    ensures |s'.hw| == |s'.table| == |s.table|
  {
    var e := Apply(s.table, cmd);
    CommandKeeps(s.table, cmd);
    var s1 := s.(table := e.table);
    if e.ok && replySent then Flush(s1, c, e.changed, Emergency(cmd)) else Leave(s1, c)
  }

  function Step(s: Srv, ev: Event): (s': Srv)
    requires |s.hw| == |s.table|
    ensures |s'.hw| == |s'.table| == |s.table|
  {
    match ev
    case Connect(c) => s.(clients := s.clients + {c}, numClients := s.numClients + 1)
    case Command(c, cmd, replySent) => Execute(s, c, cmd, replySent)
    case Disconnect(c) => Leave(s, c)
  }

  /** Client numbers are positive and never reused while connected; only connected clients act. */
  ghost predicate Possible(s: Srv, ev: Event) {
    match ev
    case Connect(c) => c > 0 && c !in s.clients
    case Command(c, _, _) => c in s.clients
    case Disconnect(c) => c in s.clients
  }

  /** The server before the first client: the hardware has every loco at step 0. */
  function Start(t: Table): Srv {
    Srv(t, seq(|t|, _ => Drive(1, 0)), {}, 0)
  }

  lemma StoppedDrive(l: Loco)
    requires l.speed == 0
    ensures DccStep(l) == 0 && DriveOf(l, true) == Drive(2, 0)
  {
  }

  // ----- the server as an object -----

  class Server {
    var table: Table
    var hw: seq<Drive>
    var clients: set<nat>
    var numClients: int

    ghost predicate Valid()
      reads this
    {
      |hw| == |table|
    }

    ghost function State(): Srv
      reads this
    {
      Srv(table, hw, clients, numClients)
    }

    constructor (table: Table)
      ensures Valid() && State() == Start(table)
    {
      this.table := table;
      hw := seq(|table|, _ => Drive(1, 0));
      clients, numClients := {}, 0;
    }

    method SendLoco(i: nat, emergency: bool)
      requires Valid() && i < |table|
      modifies this`hw
      ensures hw == old(hw)[i := DriveOf(table[i], emergency)]
    {
      var dir := if table[i].dir < 0 then 0 else 1;
      if emergency {
        dir := 2;
      }
      var nFahrstufen := 128;
      if table[i].flags % 2 == 1 {
        nFahrstufen := 14;
      } else if table[i].flags / 2 % 2 == 1 {
        nFahrstufen := 28;
      }
      var dccSpeed := Abs(table[i].speed) * nFahrstufen / 255;
      hw := hw[i := Drive(dir, dccSpeed)];
    }

    /** The loop behind the command switch. */
    method FlushChanged(c: nat, changed: set<nat>, emergencyStop: bool)
      requires Valid()
      modifies this`table, this`hw
      ensures State() == Flush(old(State()), c, changed, emergencyStop)
    {
      ghost var s := State();
      var emergency := emergencyStop;
      for i := 0 to |table|
        invariant Flushed(s, c, changed, emergencyStop, i, table, hw)
        invariant emergency <==> emergencyStop && NoneBefore(changed, i)
      {
        FlushRound(s, c, changed, emergencyStop, i, table, hw);
        if i in changed {
          table := table[i := table[i].(lastClient := c)];
          SendLoco(i, emergency);
          emergency := false;
        }
      }
      FlushedAll(s, c, changed, emergencyStop, table, hw);
    }

    /** The stop loop over the table. */
    method StopLocos(stopAll: bool, c: nat)
      requires Valid()
      modifies this`table, this`hw
      ensures State() == FullStop(old(State()), stopAll, c)
    {
      ghost var after := FullStop(State(), stopAll, c);
      var i := 0;
      while i < |table|
        invariant 0 <= i <= |table| && Valid() && |table| == |old(table)|
        invariant forall k :: 0 <= k < i ==> table[k] == after.table[k] && hw[k] == after.hw[k]
        invariant forall k :: i <= k < |table| ==> table[k] == old(table)[k] && hw[k] == old(hw)[k]
      {
        if (stopAll && table[i].speed != 0) || (!stopAll && table[i].lastClient == c) {
          table := table[i := table[i].(speed := 0)];
          StoppedDrive(table[i]);
          SendLoco(i, true);
          table := table[i := table[i].(lastClient := 0)];
        }
        i := i + 1;
      }
      assert table == after.table && hw == after.hw;
    }

    /** The loop of the _MULTI commands: one entry after the other until an address is unknown. */
    method UpdateEach(list: seq<int32>, start: set<nat>, u: Update) returns (changed: set<nat>, ok: bool)
      modifies this`table
      ensures Effect(table, changed, ok) == Each(old(table), start, list, u)
    {
      changed := start;
      assert list[0..] == list;
      for k := 0 to |list|
        invariant Each(old(table), start, list, u) == Each(table, changed, list[k..], u)
      {
        assert list[k..][0] == list[k] && list[k..][1..] == list[k + 1..];
        var i := GetAddrIndex(table, list[k]);
        if i.Err? {
          return changed, false;
        }
        table := table[i.value := Updated(table[i.value], u)];
        changed := changed + {i.value};
      }
      ok := true;
    }

    method UpdateLead(list: seq<int32>, next: int -> int) returns (changed: set<nat>, ok: bool)
      modifies this`table
      ensures Effect(table, changed, ok) == Lead(old(table), list, next)
    {
      if list == [] {
        return {}, false;
      }
      var i := GetAddrIndex(table, list[0]);
      if i.Err? {
        return {}, false;
      }
      var speed := next(table[i.value].speed);
      table := table[i.value := Updated(table[i.value], SpeedTo(speed))];
      changed, ok := UpdateEach(list[1..], {i.value}, SpeedTo(speed));
    }

    method UpdateOne(addr: int32, u: Loco -> Update) returns (changed: set<nat>, ok: bool)
      modifies this`table
      ensures Effect(table, changed, ok) == One(old(table), addr, u)
    {
      var i := GetAddrIndex(table, addr);
      if i.Err? {
        return {}, false;
      }
      table := table[i.value := Updated(table[i.value], u(table[i.value]))];
      changed, ok := {i.value}, true;
    }

    /** The command switch. */
    method Dispatch(cmd: Cmd) returns (changed: set<nat>, ok: bool)
      modifies this`table
      ensures Effect(table, changed, ok) == Apply(old(table), cmd)
    {
      match cmd
      case Ping => changed, ok := {}, true;
      case Acc(a) => changed, ok := UpdateOne(a, (l: Loco) => SpeedTo(Faster(l.speed)));
      case Brake(a) => changed, ok := UpdateOne(a, (l: Loco) => SpeedTo(Slower(l.speed)));
      case Dir(a, d) =>
        var i := GetAddrIndex(table, a);
        if i.Err? || (d != 1 && d != -1) || table[i.value].speed != 0 {
          return {}, false;
        }
        changed, ok := UpdateOne(a, (l: Loco) => DirTo(d));
      case Stop(a) => changed, ok := UpdateOne(a, (l: Loco) => SpeedTo(0));
      case AccMulti(list) => changed, ok := UpdateLead(list, Faster);
      case BrakeMulti(list) => changed, ok := UpdateLead(list, SlowerMulti);
      case DirMulti(d, list) => changed, ok := UpdateEach(list, {}, DirTo(d));
      case StopMulti(list) => changed, ok := UpdateEach(list, {}, SpeedTo(0));
      case SetFunc(a, nr, on) => changed, ok := UpdateOne(a, (l: Loco) => FuncTo(nr, on));
    }

    /** One round of the client loop, or the end of the client thread. */
    method Handle(ev: Event)
      requires Valid()
      modifies this
      ensures Valid() && State() == Step(old(State()), ev)
    {
      match ev {
        case Connect(c) =>
          clients, numClients := clients + {c}, numClients + 1;
        case Command(c, cmd, replySent) =>
          CommandKeeps(table, cmd);
          var changed, ok := Dispatch(cmd);
          if ok && replySent {
            FlushChanged(c, changed, cmd.Stop? || cmd.StopMulti?);
          } else {
            EndClient(c);
          }
        case Disconnect(c) =>
          EndClient(c);
      }
    }

    method EndClient(c: nat)
      requires Valid()
      modifies this
      ensures Valid() && State() == Leave(old(State()), c)
    {
      numClients := numClients - 1;
      if numClients == 0 {
        StopLocos(true, c);
      } else {
        StopLocos(false, c);
      }
      clients := clients - {c};
    }
  }

  // ----- what every reachable state satisfies -----

  /** Whatever moves is driven by a connected client, and the hardware was told the speed in the table. */
  ghost predicate Inv(s: Srv) {
    && |s.hw| == |s.table|
    && s.numClients == |s.clients|
    && 0 !in s.clients
    && forall i :: 0 <= i < |s.table| ==>
      (s.table[i].speed != 0 ==> s.table[i].lastClient in s.clients) && s.hw[i].step == DccStep(s.table[i])
  }

  /** A command that leaves speeds alone, that touches no loco, or that names known locos only and gets its reply out. */
  ghost predicate Safe(t: Table, cmd: Cmd, replySent: bool) {
    !ChangesSpeed(cmd) || Touched(t, Addrs(cmd)) == {} || (AllKnown(t, Addrs(cmd)) && replySent)
  }

  ghost predicate SafeEvent(s: Srv, ev: Event) {
    ev.Command? ==> Safe(s.table, ev.cmd, ev.replySent)
  }

  /** The server starts inside the invariant if and only if every loco of its table stands. */
  lemma StartIff(t: Table)
    ensures Inv(Start(t)) <==> forall i :: 0 <= i < |t| ==> t[i].speed == 0
  {
  }

  lemma LeaveKeepsInv(s: Srv, c: nat)
    requires Inv(s) && c in s.clients
    ensures Inv(Leave(s, c))
  {
  }

  lemma FlushKeepsInv(s: Srv, c: nat, t: Table, changed: set<nat>, emergency: bool)
    requires Inv(s) && c in s.clients && |t| == |s.table|
    requires forall i :: 0 <= i < |t| && i !in changed ==>
      t[i].speed == s.table[i].speed && t[i].flags == s.table[i].flags && t[i].lastClient == s.table[i].lastClient
    ensures Inv(Flush(s.(table := t), c, changed, emergency))
  {
  }

  lemma StepKeepsInv(s: Srv, ev: Event)
    requires Inv(s) && Possible(s, ev) && SafeEvent(s, ev)
    ensures Inv(Step(s, ev))
  {
    match ev
    case Connect(c) =>
    case Disconnect(c) => LeaveKeepsInv(s, c);
    case Command(c, cmd, replySent) =>
      var e := Apply(s.table, cmd);
      CommandKeeps(s.table, cmd);
      UnchangedSpeeds(s.table, cmd);
      if e.ok && replySent {
        FlushKeepsInv(s, c, e.table, e.changed, Emergency(cmd));
      } else {
        if ChangesSpeed(cmd) {
          SpeedCommand(s.table, cmd);
        }
        assert Inv(s.(table := e.table));
        LeaveKeepsInv(s.(table := e.table), c);
      }
  }

  lemma UnchangedSpeeds(t: Table, cmd: Cmd)
    ensures |Apply(t, cmd).table| == |t|
    ensures forall i :: 0 <= i < |t| && (i !in Apply(t, cmd).changed || !ChangesSpeed(cmd)) ==>
      Apply(t, cmd).table[i].speed == t[i].speed
  {
    if ChangesSpeed(cmd) {
      SpeedCommand(t, cmd);
    } else {
      OtherCommand(t, cmd);
    }
  }

  /** A run: every event is possible and safe in the state it meets. */
  ghost predicate GoodRun(s: Srv, evs: seq<Event>)
    requires |s.hw| == |s.table|
    decreases |evs|
  {
    evs == [] || (Possible(s, evs[0]) && SafeEvent(s, evs[0]) && GoodRun(Step(s, evs[0]), evs[1..]))
  }

  function Run(s: Srv, evs: seq<Event>): (s': Srv)
    requires |s.hw| == |s.table|
    ensures |s'.hw| == |s'.table|
    decreases |evs|
  {
    if evs == [] then s else Run(Step(s, evs[0]), evs[1..])
  }

  /**
   * In every run of connects, commands and disconnects, each moving loco has a connected client as its owner and the
   * hardware runs at the step of the table speed; and once the last client has gone everything stands still, in the
   * table and on the track.
   */
  lemma {:induction false} RunKeepsInv(s: Srv, evs: seq<Event>)
    requires Inv(s) && GoodRun(s, evs)
    ensures Inv(Run(s, evs))
    ensures Run(s, evs).clients == {} ==> forall i :: 0 <= i < |Run(s, evs).table| ==>
      Run(s, evs).table[i].speed == 0 && Run(s, evs).hw[i].step == 0
    decreases |evs|
  {
    if evs != [] {
      StepKeepsInv(s, evs[0]);
      RunKeepsInv(Step(s, evs[0]), evs[1..]);
    }
  }

  /** From a table of standing locos, every run of the server. */
  lemma RunFromStart(t: Table, evs: seq<Event>)
    requires (forall i :: 0 <= i < |t| ==> t[i].speed == 0) && GoodRun(Start(t), evs)
    ensures Inv(Run(Start(t), evs))
    ensures Run(Start(t), evs).clients == {} ==> forall i :: 0 <= i < |Run(Start(t), evs).table| ==>
      Run(Start(t), evs).table[i].speed == 0 && Run(Start(t), evs).hw[i].step == 0
  {
    StartIff(t);
    RunKeepsInv(Start(t), evs);
  }

  /** A client that goes stops what it drove, by emergency stop, and nothing else while others remain. */
  lemma LeaveStopsOwnLocos(s: Srv, c: nat, i: nat)
    requires Inv(s) && c in s.clients && i < |s.table|
    ensures var s' := Leave(s, c);
      && (s.table[i].lastClient == c && (s.numClients > 1 || s.table[i].speed != 0) ==>
            s'.table[i].speed == 0 && s'.hw[i] == Drive(2, 0))
      && (s.table[i].lastClient != c && s.numClients > 1 ==> s'.table[i] == s.table[i] && s'.hw[i] == s.hw[i])
      && s'.table[i].dir == s.table[i].dir && s'.table[i].func == s.table[i].func
      && !(s'.table[i].lastClient == c && s'.table[i].speed != 0)
      && (s.numClients > 1 ==> s'.table[i].lastClient == if s.table[i].lastClient == c then 0 else s.table[i].lastClient)
      && (s.numClients == 1 && s.table[i].speed != 0 ==> s'.table[i].lastClient == 0)
  {
  }

  // ----- exactly which commands are safe -----

  /** A server where another client drives every loco at speed 100. */
  function Busy(t: Table): Srv {
    Srv(seq(|t|, i requires 0 <= i < |t| => t[i].(speed := 100, flags := 0, lastClient := 2)),
        seq(|t|, _ => Drive(1, 50)), {1, 2}, 2)
  }

  lemma BusyIsFine(t: Table)
    ensures Inv(Busy(t)) && SameAddrs(t, Busy(t).table)
  {
  }

  /** A speed command moves every busy loco it touches to another decoder step. */
  lemma BusyCommand(t: Table, cmd: Cmd, i: nat)
    requires ChangesSpeed(cmd) && i in Touched(t, Addrs(cmd))
    ensures var e := Apply(Busy(t).table, cmd);
      && |e.table| == |t| && e.ok == Apply(t, cmd).ok
      && e.table[i].lastClient == 2 && DccStep(e.table[i]) != 50
  {
    var s := Busy(t);
    BusyIsFine(t);
    TouchedSame(t, s.table, Addrs(cmd));
    SpeedCommand(t, cmd);
    SpeedCommand(s.table, cmd);
    var l := Apply(s.table, cmd).table[i];
    assert l == s.table[i].(speed := NewSpeed(s.table, cmd));
    assert l.speed == 105 || l.speed == 95 || l.speed == 0;
    assert Steps(0) == 128;
  }

  lemma UnsafeBreaks(t: Table, cmd: Cmd, replySent: bool)
    requires !Safe(t, cmd, replySent)
    ensures !Inv(Step(Busy(t), Command(1, cmd, replySent)))
  {
    SpeedCommand(t, cmd);
    var i :| i in Touched(t, Addrs(cmd));
    BusyCommand(t, cmd, i);
    var s1 := Busy(t).(table := Apply(Busy(t).table, cmd).table);
    var s' := Leave(s1, 1);
    assert s' == Step(Busy(t), Command(1, cmd, replySent));
    assert s'.table[i] == s1.table[i] && s'.hw[i] == Drive(1, 50);
  }

  /**
   * A command keeps the invariant in every state with these addresses if and only if it changes no speed, touches no
   * loco, or names known locos only and its reply can be sent.
   */
  lemma SafeIff(t: Table, cmd: Cmd, replySent: bool)
    ensures Safe(t, cmd, replySent) <==>
      forall s: Srv, c: nat :: Inv(s) && c in s.clients && SameAddrs(t, s.table) ==> Inv(Step(s, Command(c, cmd, replySent)))
  {
    if Safe(t, cmd, replySent) {
      forall s: Srv, c: nat | Inv(s) && c in s.clients && SameAddrs(t, s.table)
        ensures Inv(Step(s, Command(c, cmd, replySent)))
      {
        TouchedSame(t, s.table, Addrs(cmd));
        StepKeepsInv(s, Command(c, cmd, replySent));
      }
    } else {
      BusyIsFine(t);
      UnsafeBreaks(t, cmd, replySent);
      assert 1 in Busy(t).clients;
    }
  }

  /**
   * The only client sends STOP_MULTI with a known and an unknown address: the thread ends, the table says 0, the full
   * stop skips the loco because of that, and it keeps running on the track with nobody connected.
   */
  lemma StopListWithUnknownAddress()
    ensures var l := Loco(3, 0, [], 100, 1, 7);
      var s := Srv([l], [Drive(1, 50)], {7}, 1);
      var s' := Step(s, Command(7, StopMulti([3, 99]), true));
      Inv(s) && s'.clients == {} && s'.table[0].speed == 0 && s'.hw[0] == Drive(1, 50)
  {
    var l := Loco(3, 0, [], 100, 1, 7);
    var s := Srv([l], [Drive(1, 50)], {7}, 1);
    assert DccStep(l) == 50;
    var t := s.table;
    var l' := l.(speed := 0);
    assert Find(t, 3) == 0;
    assert t[0 := l'] == [l'];
    FindUnique([l'], 99, 1);
    assert [3, 99][1..] == [99];
    var e := Each([l'], {0}, [99], SpeedTo(0));
    assert Each(t, {}, [3, 99], SpeedTo(0)) == Each([l'], {} + {0}, [99], SpeedTo(0));
    assert !e.ok && e.table == [l'];
  }

  /** A stop that gets through reaches the hardware as an emergency stop for the first loco and as step 0 for the others. */
  lemma StopReachesHardware(s: Srv, c: nat, cmd: Cmd, i: nat)
    requires |s.hw| == |s.table| && (cmd.Stop? || cmd.StopMulti?)
    requires AllKnown(s.table, Addrs(cmd)) && i in Touched(s.table, Addrs(cmd))
    ensures var s' := Execute(s, c, cmd, true);
      && s'.table[i].speed == 0 && s'.table[i].lastClient == c && s'.hw[i].step == 0
      && (s'.hw[i].dir == 2 <==> forall j :: j in Touched(s.table, Addrs(cmd)) ==> i <= j)
  {
    StopsTouched(s.table, cmd, i);
    var e := Apply(s.table, cmd);
    var s1 := s.(table := e.table);
    assert Execute(s, c, cmd, true) == Flush(s1, c, e.changed, true);
    FlushedEntry(s1, c, e.changed, i);
  }

  lemma StopsTouched(t: Table, cmd: Cmd, i: nat)
    requires Emergency(cmd) && AllKnown(t, Addrs(cmd)) && i in Touched(t, Addrs(cmd))
    ensures var e := Apply(t, cmd);
      e.ok && e.changed == Touched(t, Addrs(cmd)) && |e.table| == |t| && e.table[i].speed == 0 && DccStep(e.table[i]) == 0
  {
    SpeedCommand(t, cmd);
  }

  lemma FlushedEntry(s: Srv, c: nat, changed: set<nat>, i: nat)
    requires |s.hw| == |s.table| && i in changed && i < |s.table| && DccStep(s.table[i]) == 0
    ensures var s' := Flush(s, c, changed, true);
      && s'.table[i] == s.table[i].(lastClient := c) && s'.hw[i].step == 0
      && (s'.hw[i].dir == 2 <==> forall j :: j in changed ==> i <= j)
  {
  }

  // ----- direction and step on the track -----

  /** A direction command that is refused or touches nothing, or that names known locos only and gets its reply out. */
  predicate SoundDir(t: Table, cmd: Cmd, replySent: bool) {
    match cmd
    case Dir(a, d) => !Known(t, a) || (d != 1 && d != -1) || replySent
    case DirMulti(_, list) => Touched(t, list) == {} || (AllKnown(t, list) && replySent)
    case _ => true
  }

  /** The code for the direction of a loco: 0 backward, 1 forward. */
  predicate RightCode(l: Loco, h: Drive) {
    h.dir == if l.dir < 0 then 0 else 1
  }

  /** Unless it was stopped by emergency, the hardware was told the direction in the table. */
  ghost predicate Directed(s: Srv) {
    |s.hw| == |s.table| && forall i :: 0 <= i < |s.table| ==> s.hw[i].dir == 2 || RightCode(s.table[i], s.hw[i])
  }

  /** The code for an emergency stop is only on locos that stand. */
  ghost predicate StoppedStand(s: Srv) {
    |s.hw| == |s.table| && forall i :: 0 <= i < |s.table| && s.hw[i].dir == 2 ==> s.table[i].speed == 0
  }

  lemma DirsAfter(t: Table, cmd: Cmd)
    ensures var e := Apply(t, cmd);
      && |e.table| == |t|
      && (forall i :: 0 <= i < |t| && i !in e.changed ==> e.table[i].dir == t[i].dir)
      && (!cmd.Dir? && !cmd.DirMulti? ==> forall i :: 0 <= i < |t| ==> e.table[i].dir == t[i].dir)
  {
    if ChangesSpeed(cmd) {
      SpeedCommand(t, cmd);
    } else if cmd.DirMulti? {
      EachIs(t, {}, cmd.list, DirTo(cmd.dir));
    }
  }

  /** A sound command that does not reach the flush has left every direction alone. */
  lemma UnsentDirs(t: Table, cmd: Cmd, replySent: bool)
    requires SoundDir(t, cmd, replySent) && !(Apply(t, cmd).ok && replySent)
    ensures |Apply(t, cmd).table| == |t| && forall i :: 0 <= i < |t| ==> Apply(t, cmd).table[i].dir == t[i].dir
  {
    DirsAfter(t, cmd);
    if cmd.DirMulti? {
      EachIs(t, {}, cmd.list, DirTo(cmd.dir));
    }
  }

  lemma StepKeepsDirected(s: Srv, ev: Event)
    requires Directed(s) && (ev.Command? ==> SoundDir(s.table, ev.cmd, ev.replySent))
    ensures Directed(Step(s, ev))
  {
    if ev.Command? {
      var e := Apply(s.table, ev.cmd);
      DirsAfter(s.table, ev.cmd);
      if !(e.ok && ev.replySent) {
        UnsentDirs(s.table, ev.cmd, ev.replySent);
      }
    }
  }

  lemma StepKeepsStopped(s: Srv, ev: Event)
    requires StoppedStand(s) && SafeEvent(s, ev)
    ensures StoppedStand(Step(s, ev))
  {
    match ev
    case Connect(_) =>
    case Disconnect(c) => LeaveKeepsStopped(s, c);
    case Command(c, cmd, replySent) =>
      var e := Apply(s.table, cmd);
      UnchangedSpeeds(s.table, cmd);
      if ChangesSpeed(cmd) {
        SpeedCommand(s.table, cmd);
      }
      if e.ok && replySent {
        FlushKeepsStopped(s, c, e.table, e.changed, Emergency(cmd));
      } else {
        assert StoppedStand(s.(table := e.table));
        LeaveKeepsStopped(s.(table := e.table), c);
      }
  }

  lemma LeaveKeepsStopped(s: Srv, c: nat)
    requires StoppedStand(s)
    ensures StoppedStand(Leave(s, c))
  {
  }

  lemma FlushKeepsStopped(s: Srv, c: nat, t: Table, changed: set<nat>, emergency: bool)
    requires StoppedStand(s) && |t| == |s.table|
    requires forall i :: 0 <= i < |t| && i !in changed ==> t[i].speed == s.table[i].speed
    requires emergency ==> forall i :: 0 <= i < |t| && i in changed ==> t[i].speed == 0
    ensures StoppedStand(Flush(s.(table := t), c, changed, emergency))
  {
  }

  /** Every direction command of the run is sound in the state it meets. */
  ghost predicate DirRun(s: Srv, evs: seq<Event>)
    requires |s.hw| == |s.table|
    decreases |evs|
  {
    evs == [] ||
    ((evs[0].Command? ==> SoundDir(s.table, evs[0].cmd, evs[0].replySent)) && DirRun(Step(s, evs[0]), evs[1..]))
  }

  lemma {:induction false} RunKeepsDirected(s: Srv, evs: seq<Event>)
    requires Directed(s) && StoppedStand(s) && GoodRun(s, evs) && DirRun(s, evs)
    ensures Directed(Run(s, evs)) && StoppedStand(Run(s, evs))
    decreases |evs|
  {
    if evs != [] {
      StepKeepsDirected(s, evs[0]);
      StepKeepsStopped(s, evs[0]);
      RunKeepsDirected(Step(s, evs[0]), evs[1..]);
    }
  }

  /**
   * What the track was told, in numbers, after every run from a table of standing locos that look forward. The step is
   * the speed in 14, 28 or 128 steps of 255; a loco that moves was sent 0 if it runs backward and 1 if forward, and so
   * was one that stands, unless 2 says that it was stopped by emergency.
   */
  lemma TrackFollowsTable(t: Table, evs: seq<Event>, i: nat)
    requires forall k :: 0 <= k < |t| ==> t[k].speed == 0 && t[k].dir >= 0
    requires GoodRun(Start(t), evs) && DirRun(Start(t), evs) && i < |Run(Start(t), evs).table|
    ensures var l, h := Run(Start(t), evs).table[i], Run(Start(t), evs).hw[i];
      && h.step == (if l.speed < 0 then -l.speed else l.speed)
                   * (if l.flags % 2 == 1 then 14 else if l.flags / 2 % 2 == 1 then 28 else 128) / 255
      && (h.dir == 2 || (h.dir == 0 && l.dir < 0) || (h.dir == 1 && l.dir >= 0))
      && (h.dir == 2 ==> l.speed == 0)
  {
    RunFromStart(t, evs);
    RunKeepsDirected(Start(t), evs);
  }

  /** At full speed the three kinds of decoder are sent step 14, 28 and 128, forward as 1 and backward as 0. */
  lemma FullSpeedOnTrack(dir: int32)
    requires IsDir(dir)
    ensures forall flags :: 0 <= flags <= 2 ==>
      var s := Srv([Loco(3, flags, [], 250, dir, 7)], [Drive(1, 0)], {7}, 1);
      Execute(s, 7, Acc(3), true).hw == [Drive(if dir == 1 then 1 else 0, [128, 14, 28][flags])]
  {
    forall flags | 0 <= flags <= 2
      ensures var s := Srv([Loco(3, flags, [], 250, dir, 7)], [Drive(1, 0)], {7}, 1);
        Execute(s, 7, Acc(3), true).hw == [Drive(if dir == 1 then 1 else 0, [128, 14, 28][flags])]
    {
      var l := Loco(3, flags, [], 250, dir, 7);
      FindUnique([l], 3, 0);
      assert Apply([l], Acc(3)) == Effect([l.(speed := 255)], {0}, true) by {
        assert [l][0 := l.(speed := 255)] == [l.(speed := 255)];
      }
      assert NoneBefore({0}, 0);
    }
  }

  // ----- exactly which commands keep the direction -----

  /** A server where another client holds every loco, standing, with a direction opposite to d. */
  function Opposite(t: Table, d: int32): Srv {
    var dir: int32 := if d < 0 then 1 else -1;
    Srv(seq(|t|, i requires 0 <= i < |t| => t[i].(speed := 0, dir := dir, lastClient := 2)),
        seq(|t|, _ => Drive(if d < 0 then 1 else 0, 0)), {1, 2}, 2)
  }

  lemma OppositeIsFine(t: Table, d: int32)
    ensures Directed(Opposite(t, d)) && SameAddrs(t, Opposite(t, d).table)
  {
  }

  lemma TurnsOpposite(t: Table, cmd: Cmd, replySent: bool, d: int32, i: nat)
    requires !SoundDir(t, cmd, replySent) && d == cmd.dir && i in Touched(t, Addrs(cmd))
    ensures var e := Apply(Opposite(t, d).table, cmd);
      && !(e.ok && replySent) && |e.table| == |t| && e.table[i].dir == d && e.table[i].lastClient == 2
  {
    var s := Opposite(t, d);
    OppositeIsFine(t, d);
    TouchedSame(t, s.table, Addrs(cmd));
    if cmd.DirMulti? {
      EachIs(s.table, {}, cmd.list, DirTo(d));
    } else {
      FindSame(t, s.table, cmd.addr);
      assert [cmd.addr][1..] == [];
      assert i == Find(t, cmd.addr);
    }
  }

  /**
   * A command keeps what the track was told about directions, in every state with these addresses, if and only if it
   * changes no direction, is refused, touches no loco, or names known locos only and its reply can be sent.
   */
  lemma SoundDirIff(t: Table, cmd: Cmd, replySent: bool)
    ensures SoundDir(t, cmd, replySent) <==>
      forall s: Srv, c: nat :: Directed(s) && c in s.clients && SameAddrs(t, s.table) ==>
        Directed(Step(s, Command(c, cmd, replySent)))
  {
    if SoundDir(t, cmd, replySent) {
      forall s: Srv, c: nat | Directed(s) && c in s.clients && SameAddrs(t, s.table)
        ensures Directed(Step(s, Command(c, cmd, replySent)))
      {
        TouchedSame(t, s.table, Addrs(cmd));
        if cmd.Dir? {
          FindSame(t, s.table, cmd.addr);
        }
        StepKeepsDirected(s, Command(c, cmd, replySent));
      }
    } else {
      var d := cmd.dir;
      assert Touched(t, Addrs(cmd)) != {} by {
        if cmd.Dir? {
          assert Find(t, cmd.addr) in Touched(t, [cmd.addr]);
        }
      }
      var i :| i in Touched(t, Addrs(cmd));
      OppositeIsFine(t, d);
      TurnsOpposite(t, cmd, replySent, d, i);
      var s := Opposite(t, d);
      var s' := Leave(s.(table := Apply(s.table, cmd).table), 1);
      assert s' == Step(s, Command(1, cmd, replySent));
      assert s'.table[i].dir == d && s'.hw[i] == s.hw[i];
      assert 1 in s.clients && !Directed(s');
    }
  }
}
