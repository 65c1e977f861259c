// The shared locomotive table and the commands that change it.
module LocoTable {
  import opened Bytes
  import opened Util

  const SPEED_STEP := 5
  const MAX_NFUNC := 32

  /** A table entry. The table ends at the first entry with address 0, so no entry in it has that address. */
  datatype Loco = Loco(addr: int32, flags: nat, func: seq<bool>, speed: int, dir: int32, lastClient: nat)

  type Table = seq<Loco>

  /** The index of the first entry with the address, or the length of the table. */
  function Find(t: Table, addr: int32): (i: nat)
    ensures i <= |t|
    ensures i < |t| ==> t[i].addr == addr
    ensures forall j :: 0 <= j < i ==> t[j].addr != addr
  {
    if t == [] || t[0].addr == addr then 0 else 1 + Find(t[1..], addr)
  }

  predicate Known(t: Table, addr: int32) {
    Find(t, addr) < |t|
  }

  lemma FindUnique(t: Table, addr: int32, i: nat)
    requires i <= |t| && (i < |t| ==> t[i].addr == addr) && forall j :: 0 <= j < i ==> t[j].addr != addr
    ensures Find(t, addr) == i
  {
  }

  /** getAddrIndex: the search loop. */
  method GetAddrIndex(t: Table, addr: int32) returns (r: Result<nat>)
    ensures r == if Known(t, addr) then Ok(Find(t, addr)) else Err(UnknownName)
  {
    var i := 0;
    while i < |t|
      invariant 0 <= i <= |t|
      invariant forall j :: 0 <= j < i ==> t[j].addr != addr
    {
      if t[i].addr == addr {
        FindUnique(t, addr, i);
        return Ok(i);
      }
      i := i + 1;
    }
    FindUnique(t, addr, i);
    r := Err(UnknownName);
  }

  /** The commands that change the table; Ping stands for those that do not. */
  datatype Cmd =
    | Ping
    | Acc(addr: int32)
    | Brake(addr: int32)
    | Dir(addr: int32, dir: int32)
    | Stop(addr: int32)
    | AccMulti(list: seq<int32>)
    | BrakeMulti(list: seq<int32>)
    | DirMulti(dir: int32, list: seq<int32>)
    | StopMulti(list: seq<int32>)
    | SetFunc(addr: int32, nr: int32, on: bool)

  /** What a command leaves behind; ok is false when it threw, with the changes made up to that point. */
  datatype Effect = Effect(table: Table, changed: set<nat>, ok: bool)

  /** An update of one entry. */
  datatype Update = SpeedTo(speed: int) | DirTo(dir: int32) | FuncTo(nr: int32, on: bool)

  function Updated(l: Loco, u: Update): Loco {
    match u
    case SpeedTo(s) => l.(speed := s)
    case DirTo(d) => l.(dir := d)
    case FuncTo(nr, on) => if 0 <= nr < |l.func| then l.(func := l.func[nr := on]) else l
  }

  function One(t: Table, addr: int32, u: Loco -> Update): (e: Effect) {
    var i := Find(t, addr);
    if i == |t| then Effect(t, {}, false) else Effect(t[i := Updated(t[i], u(t[i]))], {i}, true)
  }

  /** The same update for each address of a list; an unknown address ends it half way. */
  function Each(t: Table, changed: set<nat>, list: seq<int32>, u: Update): (e: Effect)
    decreases |list|
  {
    if list == [] then Effect(t, changed, true) else
    var i := Find(t, list[0]);
    if i == |t| then Effect(t, changed, false) else Each(t[i := Updated(t[i], u)], changed + {i}, list[1..], u)
  }

  /** The first loco of the list sets the speed, the others follow it. */
  function Lead(t: Table, list: seq<int32>, next: int -> int): (e: Effect) {
    if list == [] then Effect(t, {}, false) else
    var i := Find(t, list[0]);
    if i == |t| then Effect(t, {}, false) else
    var s := next(t[i].speed);
    Each(t[i := Updated(t[i], SpeedTo(s))], {i}, list[1..], SpeedTo(s))
  }

  function Faster(s: int): int {
    Min(s + SPEED_STEP, 255)
  }

  function Slower(s: int): int {
    Max(s - SPEED_STEP, 0)
  }

  /** The _MULTI brake has a lower bound of -255. */
  function SlowerMulti(s: int): int {
    Max(s - SPEED_STEP, -255)
  }

  /** The command loop of ClientThread::run, up to the reply. */
  function Apply(t: Table, cmd: Cmd): (e: Effect) {
    match cmd
    case Ping => Effect(t, {}, true)
    case Acc(a) => One(t, a, (l: Loco) => SpeedTo(Faster(l.speed)))
    case Brake(a) => One(t, a, (l: Loco) => SpeedTo(Slower(l.speed)))
    case Dir(a, d) =>
      if !Known(t, a) || (d != 1 && d != -1) || t[Find(t, a)].speed != 0 then Effect(t, {}, false)
      else One(t, a, (l: Loco) => DirTo(d))
    case Stop(a) => One(t, a, (l: Loco) => SpeedTo(0))
    case AccMulti(list) => Lead(t, list, Faster)
    case BrakeMulti(list) => Lead(t, list, SlowerMulti)
    case DirMulti(d, list) => Each(t, {}, list, DirTo(d))
    case StopMulti(list) => Each(t, {}, list, SpeedTo(0))
    case SetFunc(a, nr, on) => One(t, a, (l: Loco) => FuncTo(nr, on))
  }

  // ----- lists of addresses -----

  predicate SameAddrs(t: Table, t': Table) {
    |t| == |t'| && forall i :: 0 <= i < |t| ==> t[i].addr == t'[i].addr
  }

  lemma FindSame(t: Table, t': Table, addr: int32)
    requires SameAddrs(t, t')
    ensures Find(t', addr) == Find(t, addr)
  {
  }

  predicate AllKnown(t: Table, list: seq<int32>) {
    forall k :: 0 <= k < |list| ==> Known(t, list[k])
  }

  /** The entries named before the first unknown address. */
  function Touched(t: Table, list: seq<int32>): (s: set<nat>)
    ensures forall i :: i in s ==> i < |t|
  {
    if list == [] || !Known(t, list[0]) then {} else {Find(t, list[0])} + Touched(t, list[1..])
  }

  lemma {:induction false} TouchedSame(t: Table, t': Table, list: seq<int32>)
    requires SameAddrs(t, t')
    ensures Touched(t', list) == Touched(t, list) && AllKnown(t', list) == AllKnown(t, list)
  {
    if list != [] {
      FindSame(t, t', list[0]);
      TouchedSame(t, t', list[1..]);
      forall k | 0 <= k < |list| {
        FindSame(t, t', list[k]);
      }
    }
  }

  function UpdateAll(t: Table, s: set<nat>, u: Update): (t': Table)
    ensures |t'| == |t|
  {
    seq(|t|, i requires 0 <= i < |t| => if i in s then Updated(t[i], u) else t[i])
  }

  lemma UpdatedTwice(l: Loco, u: Update)
    ensures Updated(Updated(l, u), u) == Updated(l, u)
  {
  }

  lemma UpdateAllStep(t: Table, i: nat, s: set<nat>, u: Update)
    requires i < |t|
    ensures UpdateAll(t[i := Updated(t[i], u)], s, u) == UpdateAll(t, {i} + s, u)
  {
    UpdatedTwice(t[i], u);
    var t' := t[i := Updated(t[i], u)];
    forall j | 0 <= j < |t|
      ensures UpdateAll(t', s, u)[j] == UpdateAll(t, {i} + s, u)[j]
    {
    }
  }

  lemma AllKnownStep(t: Table, list: seq<int32>)
    requires list != []
    ensures AllKnown(t, list) <==> Known(t, list[0]) && AllKnown(t, list[1..])
  {
  }

  /** A list update changes exactly the entries named before the first unknown address, and succeeds if there is none. */
  lemma {:induction false} EachIs(t: Table, changed: set<nat>, list: seq<int32>, u: Update)
    ensures Each(t, changed, list, u)
      == Effect(UpdateAll(t, Touched(t, list), u), changed + Touched(t, list), AllKnown(t, list))
    decreases |list|
  {
    if list == [] || !Known(t, list[0]) {
      assert UpdateAll(t, {}, u) == t;
      assert changed + {} == changed;
    } else {
      var i := Find(t, list[0]);
      var t' := t[i := Updated(t[i], u)];
      EachIs(t', changed + {i}, list[1..], u);
      TouchedSame(t, t', list[1..]);
      UpdateAllStep(t, i, Touched(t, list[1..]), u);
      AllKnownStep(t, list);
      assert changed + {i} + Touched(t, list[1..]) == changed + ({i} + Touched(t, list[1..]));
    }
  }

  // ----- the shape of every command -----

  /** The addresses a command names, in order. */
  function Addrs(cmd: Cmd): seq<int32> {
    match cmd
    case Ping => []
    case Acc(a) => [a]
    case Brake(a) => [a]
    case Dir(a, _) => [a]
    case Stop(a) => [a]
    case AccMulti(list) => list
    case BrakeMulti(list) => list
    case DirMulti(_, list) => list
    case StopMulti(list) => list
    case SetFunc(a, _, _) => [a]
  }

  predicate ChangesSpeed(cmd: Cmd) {
    !cmd.Ping? && !cmd.Dir? && !cmd.DirMulti? && !cmd.SetFunc?
  }

  /** The one speed a speed command gives to every loco it touches. */
  function NewSpeed(t: Table, cmd: Cmd): int
    requires ChangesSpeed(cmd) && Addrs(cmd) != [] && Known(t, Addrs(cmd)[0])
  {
    var s := t[Find(t, Addrs(cmd)[0])].speed;
    match cmd
    case Acc(_) => Faster(s)
    case Brake(_) => Slower(s)
    case AccMulti(_) => Faster(s)
    case BrakeMulti(_) => SlowerMulti(s)
    case _ => 0
  }

  /** Speeds after a speed command: one new speed for all entries named before the first unknown address. */
  lemma SpeedCommand(t: Table, cmd: Cmd)
    requires ChangesSpeed(cmd)
    ensures var e := Apply(t, cmd);
      && e.changed == Touched(t, Addrs(cmd))
      && (e.ok <==> AllKnown(t, Addrs(cmd)) && (Addrs(cmd) != [] || cmd.StopMulti?))
      && e.table == if Touched(t, Addrs(cmd)) == {} then t
                    else UpdateAll(t, Touched(t, Addrs(cmd)), SpeedTo(NewSpeed(t, cmd)))
  {
    var list := Addrs(cmd);
    if list != [] && Known(t, list[0]) {
      assert Find(t, list[0]) in Touched(t, list);
      if cmd.StopMulti? {
        EachIs(t, {}, list, SpeedTo(0));
      } else if cmd.AccMulti? {
        LeadIs(t, list, Faster);
      } else if cmd.BrakeMulti? {
        LeadIs(t, list, SlowerMulti);
      } else {
        SingleIs(t, list[0], NewSpeed(t, cmd));
      }
    }
  }

  lemma LeadIs(t: Table, list: seq<int32>, next: int -> int)
    requires list != [] && Known(t, list[0])
    ensures var s := next(t[Find(t, list[0])].speed);
      Lead(t, list, next) == Effect(UpdateAll(t, Touched(t, list), SpeedTo(s)), Touched(t, list), AllKnown(t, list))
  {
    var i := Find(t, list[0]);
    var u := SpeedTo(next(t[i].speed));
    var t' := t[i := Updated(t[i], u)];
    EachIs(t', {i}, list[1..], u);
    TouchedSame(t, t', list[1..]);
    UpdateAllStep(t, i, Touched(t, list[1..]), u);
    AllKnownStep(t, list);
  }

  lemma SingleIs(t: Table, addr: int32, s: int)
    requires Known(t, addr)
    ensures var i := Find(t, addr);
      && Touched(t, [addr]) == {i} && AllKnown(t, [addr])
      && UpdateAll(t, {i}, SpeedTo(s)) == t[i := Updated(t[i], SpeedTo(s))]
  {
    assert [addr][1..] == [];
  }

  /** The other commands touch no speed. */
  lemma OtherCommand(t: Table, cmd: Cmd)
    requires !ChangesSpeed(cmd)
    ensures var e := Apply(t, cmd);
      && SameAddrs(t, e.table)
      && (forall i :: i in e.changed ==> i < |t|)
      && (forall i :: 0 <= i < |t| ==> |e.table[i].func| == |t[i].func|)
      && (forall i :: 0 <= i < |t| ==> e.table[i] == t[i].(dir := e.table[i].dir, func := e.table[i].func))
  {
    if cmd.DirMulti? {
      EachIs(t, {}, cmd.list, DirTo(cmd.dir));
    }
  }

  /** No command changes an address, the decoder flags, the number of functions or an owner. */
  lemma CommandKeeps(t: Table, cmd: Cmd)
    ensures var e := Apply(t, cmd);
      && |e.table| == |t|
      && (forall i :: i in e.changed ==> i < |t|)
      && forall i :: 0 <= i < |t| ==>
        var l, l' := t[i], e.table[i];
        l'.addr == l.addr && l'.flags == l.flags && |l'.func| == |l.func| && l'.lastClient == l.lastClient
  {
    if ChangesSpeed(cmd) {
      SpeedCommand(t, cmd);
    } else {
      OtherCommand(t, cmd);
    }
  }

  // ----- speeds over whole runs -----

  predicate SpeedInRange(l: Loco, low: int) {
    low <= l.speed <= 255 && l.speed % SPEED_STEP == 0
  }

  function RunCommands(t: Table, cmds: seq<Cmd>): (t': Table)
    ensures |t'| == |t|
    decreases |cmds|
  {
    if cmds == [] then t else CommandKeeps(t, cmds[0]); RunCommands(Apply(t, cmds[0]).table, cmds[1..])
  }

  /**
   * In every run of commands, failed ones included, every speed is a multiple of 5 between -255 and 255, and none is
   * negative as long as BREAK_MULTI is not used.
   */
  lemma {:induction false} SpeedsStayInRange(t: Table, cmds: seq<Cmd>, low: int)
    requires low == -255 || (low == 0 && forall k :: 0 <= k < |cmds| ==> !cmds[k].BrakeMulti?)
    requires forall i :: 0 <= i < |t| ==> SpeedInRange(t[i], low)
    ensures forall i :: 0 <= i < |t| ==> SpeedInRange(RunCommands(t, cmds)[i], low)
    decreases |cmds|
  {
    if cmds != [] {
      SpeedStep(t, cmds[0], low);
      SpeedsStayInRange(Apply(t, cmds[0]).table, cmds[1..], low);
    }
  }

  lemma SpeedStep(t: Table, cmd: Cmd, low: int)
    requires low == -255 || (low == 0 && !cmd.BrakeMulti?)
    requires forall i :: 0 <= i < |t| ==> SpeedInRange(t[i], low)
    ensures |Apply(t, cmd).table| == |t|
    ensures forall i :: 0 <= i < |t| ==> SpeedInRange(Apply(t, cmd).table[i], low)
  {
    if ChangesSpeed(cmd) {
      SpeedCommand(t, cmd);
      if Addrs(cmd) != [] && Known(t, Addrs(cmd)[0]) {
        NewSpeedInRange(t[Find(t, Addrs(cmd)[0])].speed, low);
      }
    } else {
      OtherCommand(t, cmd);
    }
  }

  lemma NewSpeedInRange(s: int, low: int)
    requires (low == -255 || low == 0) && low <= s <= 255 && s % SPEED_STEP == 0
    ensures low <= Faster(s) <= 255 && Faster(s) % SPEED_STEP == 0
    ensures low <= Slower(s) <= 255 && Slower(s) % SPEED_STEP == 0
    ensures -255 <= SlowerMulti(s) <= 255 && SlowerMulti(s) % SPEED_STEP == 0
  {
  }

  // ----- speed and direction on the wire -----

  /** One number carries speed and direction; a stopped loco sends its direction. */
  function Wire(speed: int, dir: int32): int32 {
    if speed == 0 then dir else Wrap32(speed * dir)
  }

  function WireSpeed(w: int): nat {
    if w < 0 then -w else w
  }

  function WireDir(w: int): int32 {
    if w >= 0 then 1 else -1
  }

  /**
   * For the speeds and directions that single commands produce, the number determines both: the client reads the
   * direction, the speed if the loco moves, and 1 exactly when it stands still.
   */
  lemma WireDeterminesSpeed(l: Loco)
    requires SpeedInRange(l, 0) && IsDir(l.dir)
    ensures WireDir(Wire(l.speed, l.dir)) == l.dir
    ensures WireSpeed(Wire(l.speed, l.dir)) == if l.speed == 0 then 1 else l.speed
    ensures WireSpeed(Wire(l.speed, l.dir)) == 1 <==> l.speed == 0
  {
  }

  // ----- direction and functions -----

  predicate IsDir(d: int) {
    d == 1 || d == -1
  }

  ghost predicate DirsOk(t: Table) {
    forall i :: 0 <= i < |t| ==> IsDir(t[i].dir)
  }

  /** DIR_MULTI passes on whatever number the client sent. */
  predicate BadDir(cmd: Cmd) {
    cmd.DirMulti? && !IsDir(cmd.dir)
  }

  /** A command keeps every direction 1 or -1 unless it is a DIR_MULTI with another number that touches a loco. */
  lemma DirsKeptIff(t: Table, cmd: Cmd)
    requires DirsOk(t)
    ensures DirsOk(Apply(t, cmd).table) <==> !(BadDir(cmd) && Touched(t, Addrs(cmd)) != {})
  {
    if cmd.DirMulti? {
      EachIs(t, {}, cmd.list, DirTo(cmd.dir));
      DirsOfAll(t, Touched(t, cmd.list), cmd.dir);
    } else {
      OthersKeepDirs(t, cmd);
    }
  }

  lemma OthersKeepDirs(t: Table, cmd: Cmd)
    requires DirsOk(t) && !cmd.DirMulti?
    ensures DirsOk(Apply(t, cmd).table)
  {
    if ChangesSpeed(cmd) {
      SpeedCommand(t, cmd);
    }
  }

  lemma DirsOfAll(t: Table, s: set<nat>, d: int32)
    requires DirsOk(t) && forall i :: i in s ==> i < |t|
    ensures DirsOk(UpdateAll(t, s, DirTo(d))) <==> IsDir(d) || s == {}
  {
    if s != {} {
      var i :| i in s;
      assert UpdateAll(t, s, DirTo(d))[i].dir == d;
    }
  }

  /**
   * DIR is accepted exactly for a known loco that stands and a sound direction; a refused one changes nothing, and an
   * accepted one is undone by a DIR with the former direction.
   */
  lemma DirCommand(t: Table, addr: int32, d: int32)
    ensures var e, i := Apply(t, Dir(addr, d)), Find(t, addr);
      && (e.ok <==> Known(t, addr) && IsDir(d) && t[i].speed == 0)
      && (!e.ok ==> e.table == t)
      && (e.ok && IsDir(t[i].dir) ==> e.table[i].dir == d && Apply(e.table, Dir(addr, t[i].dir)) == Effect(t, {i}, true))
  {
  }

  /** Apart from DIR_MULTI, a command turns a loco only if it stands, before and after. */
  lemma TurnsStandingOnly(t: Table, cmd: Cmd, i: nat)
    requires i < |t| && !cmd.DirMulti?
    ensures |Apply(t, cmd).table| == |t|
    ensures Apply(t, cmd).table[i].dir != t[i].dir ==> t[i].speed == 0 && Apply(t, cmd).table[i].speed == 0
  {
    if ChangesSpeed(cmd) {
      SpeedCommand(t, cmd);
    }
  }

  /** In every run with sound DIR_MULTI numbers every direction stays 1 or -1. */
  lemma {:induction false} DirsStay(t: Table, cmds: seq<Cmd>)
    requires DirsOk(t) && forall k :: 0 <= k < |cmds| ==> !BadDir(cmds[k])
    ensures DirsOk(RunCommands(t, cmds))
    decreases |cmds|
  {
    if cmds != [] {
      DirsKeptIff(t, cmds[0]);
      DirsStay(Apply(t, cmds[0]).table, cmds[1..]);
    }
  }

  /** In every run without DIR_MULTI, a loco that has turned round stood still in some state of the run. */
  lemma {:induction false} TurnNeedsStop(t: Table, cmds: seq<Cmd>, i: nat) returns (k: nat)
    requires i < |t| && forall k :: 0 <= k < |cmds| ==> !cmds[k].DirMulti?
    requires RunCommands(t, cmds)[i].dir != t[i].dir
    ensures k <= |cmds| && RunCommands(t, cmds[..k])[i].speed == 0
    decreases |cmds|
  {
    var t' := Apply(t, cmds[0]).table;
    TurnsStandingOnly(t, cmds[0], i);
    if t'[i].dir != t[i].dir {
      k := 0;
    } else {
      var k' := TurnNeedsStop(t', cmds[1..], i);
      k := k' + 1;
      assert cmds[..k][0] == cmds[0] && cmds[..k][1..] == cmds[1..][..k'];
    }
  }

  /**
   * In every state that commands without BREAK_MULTI and without a bad DIR_MULTI reach, the number on the wire
   * determines speed and direction of every loco, and reads as 1 exactly for the locos that stand.
   */
  lemma WireInEveryRun(t: Table, cmds: seq<Cmd>, i: nat)
    requires i < |t| && DirsOk(t) && forall j :: 0 <= j < |t| ==> SpeedInRange(t[j], 0)
    requires forall k :: 0 <= k < |cmds| ==> !BadDir(cmds[k]) && !cmds[k].BrakeMulti?
    ensures var l := RunCommands(t, cmds)[i];
      var w := Wire(l.speed, l.dir);
      && WireDir(w) == l.dir && WireSpeed(w) == (if l.speed == 0 then 1 else l.speed)
      && (WireSpeed(w) == 1 <==> l.speed == 0)
  {
    SpeedsStayInRange(t, cmds, 0);
    DirsStay(t, cmds);
    WireDeterminesSpeed(RunCommands(t, cmds)[i]);
  }

  /** DIR_MULTI takes any number as a direction and does not look at the speed. */
  lemma DirMultiCommand(t: Table, d: int32, list: seq<int32>, i: nat)
    requires i < |t|
    ensures var e := Apply(t, DirMulti(d, list));
      && |e.table| == |t| && (e.ok <==> AllKnown(t, list)) && e.changed == Touched(t, list)
      && e.table[i] == if i in Touched(t, list) then t[i].(dir := d) else t[i]
  {
    EachIs(t, {}, list, DirTo(d));
  }

  /** SETFUNC switches one function of one loco; a number out of range changes nothing but still counts as a change. */
  lemma SetFuncCommand(t: Table, addr: int32, nr: int32, on: bool, i: nat, j: nat)
    requires i < |t| && j < |t[i].func|
    ensures var e := Apply(t, SetFunc(addr, nr, on));
      && |e.table| == |t| && (e.ok <==> Known(t, addr)) && (e.ok ==> e.changed == {Find(t, addr)})
      && |e.table[i].func| == |t[i].func|
      && e.table[i].func[j] == (if i == Find(t, addr) && j == nr then on else t[i].func[j])
      && e.table[i] == t[i].(func := e.table[i].func)
  {
  }

  // ----- by how much -----

  /**
   * In numbers: accelerating adds 5 up to 255, braking takes 5 off down to 0, and down to -255 for BREAK_MULTI; in a list
   * the speed of the first loco counts for all.
   */
  lemma SpeedsInNumbers(t: Table, cmd: Cmd, i: nat)
    requires ChangesSpeed(cmd) && i in Touched(t, Addrs(cmd)) && |Addrs(cmd)| > 0 && Known(t, Addrs(cmd)[0])
    ensures var s, s' := t[Find(t, Addrs(cmd)[0])].speed, Apply(t, cmd).table;
      && |s'| == |t|
      && (cmd.Acc? || cmd.AccMulti? ==> s'[i].speed == if s <= 250 then s + 5 else 255)
      && (cmd.Brake? ==> s'[i].speed == if s >= 5 then s - 5 else 0)
      && (cmd.BrakeMulti? ==> s'[i].speed == if s >= -250 then s - 5 else -255)
      && (cmd.Stop? || cmd.StopMulti? ==> s'[i].speed == 0)
  {
    SpeedCommand(t, cmd);
  }

  /** The entries that count as changed, and are sent: all that are touched, and none for a ping or a refused DIR. */
  lemma ChangedEntries(t: Table, cmd: Cmd)
    ensures Apply(t, cmd).changed ==
      if cmd.Ping? || (cmd.Dir? && !Apply(t, cmd).ok) then {} else Touched(t, Addrs(cmd))
  {
    if ChangesSpeed(cmd) {
      SpeedCommand(t, cmd);
    } else if cmd.DirMulti? {
      EachIs(t, {}, cmd.list, DirTo(cmd.dir));
    } else if cmd.Dir? || cmd.SetFunc? {
      assert [cmd.addr][1..] == [];
    }
  }
}
