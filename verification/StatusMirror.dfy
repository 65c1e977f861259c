// Status replies send only what changed since the last reply to that client; the client keeps a mirror of the table.
module StatusMirror {
  import opened Bytes
  import opened Util
  import opened LocoTable

  // ----- function bits -----

  /** The functions of a loco as a number: function j is bit j. */
  function Mask(func: seq<bool>): (m: nat) {
    if func == [] then 0 else (if func[0] then 1 else 0) + 2 * Mask(func[1..])
  }

  predicate Bit(m: nat, i: nat)
    decreases i
  {
    if i == 0 then m % 2 == 1 else Bit(m / 2, i - 1)
  }

  function Pow2(n: nat): (p: nat)
    ensures p >= 1
  {
    if n == 0 then 1 else 2 * Pow2(n - 1)
  }

  lemma {:induction false} MaskBound(func: seq<bool>)
    ensures Mask(func) < Pow2(|func|)
    ensures Mask(func) == Pow2(|func|) - 1 <==> forall i :: 0 <= i < |func| ==> func[i]
  {
    if func != [] {
      MaskBound(func[1..]);
      assert func == [func[0]] + func[1..];
    }
  }

  lemma {:induction false} MaskBits(func: seq<bool>, i: nat)
    ensures Bit(Mask(func), i) <==> i < |func| && func[i]
    decreases |func|
  {
    if func == [] {
      ZeroBits(i);
    } else {
      assert Mask(func) / 2 == Mask(func[1..]);
      if i > 0 {
        MaskBits(func[1..], i - 1);
      }
    }
  }

  lemma {:induction false} ZeroBits(i: nat)
    ensures !Bit(0, i)
    decreases i
  {
    if i > 0 {
      ZeroBits(i - 1);
    }
  }

  lemma {:induction false} MaskSnoc(func: seq<bool>, b: bool)
    ensures Mask(func + [b]) == Mask(func) + if b then Pow2(|func|) else 0
  {
    if func != [] {
      assert (func + [b])[1..] == func[1..] + [b];
      MaskSnoc(func[1..], b);
    }
  }

  lemma {:induction false} Pow2Monotone(a: nat, b: nat)
    requires a <= b
    ensures Pow2(a) <= Pow2(b)
    decreases b
  {
    if a < b {
      Pow2Monotone(a, b - 1);
    }
  }

  lemma Pow2Of32()
    ensures Pow2(32) == 0x1_0000_0000
  {
    assert Pow2(8) == 256;
    assert Pow2(16) == 256 * Pow2(8);
    assert Pow2(24) == 256 * Pow2(16);
    assert Pow2(32) == 256 * Pow2(24);
  }

  /** The bit mask as the int that goes on the wire. */
  function FuncInt(func: seq<bool>): int32 {
    Wrap32(Mask(func))
  }

  /** The client tests all 32 bits. */
  function FuncBits(functions: int32): (bits: seq<bool>)
    ensures |bits| == MAX_NFUNC
  {
    seq(MAX_NFUNC, i requires 0 <= i < MAX_NFUNC => Bit(Unsigned32(functions), i))
  }

  lemma MaskFits(func: seq<bool>)
    requires |func| <= MAX_NFUNC
    ensures Mask(func) < 0x1_0000_0000 && Unsigned32(FuncInt(func)) == Mask(func)
  {
    MaskBound(func);
    Pow2Monotone(|func|, 32);
    Pow2Of32();
    UnsignedWrap(Mask(func));
  }

  /** The client sees exactly the functions that are on. */
  lemma FunctionsRoundTrip(func: seq<bool>)
    requires |func| <= MAX_NFUNC
    ensures FuncBits(FuncInt(func)) == func + seq(MAX_NFUNC - |func|, _ => false)
  {
    MaskFits(func);
    forall i | 0 <= i < MAX_NFUNC
      ensures FuncBits(FuncInt(func))[i] == (func + seq(MAX_NFUNC - |func|, _ => false))[i]
    {
      MaskBits(func, i);
    }
  }

  /** The loop that sets bit after bit; a bit not yet set is or-ed in by adding it. */
  method CollectFunctions(func: seq<bool>) returns (functions: int32)
    ensures functions == FuncInt(func)
  {
    var mask, bit := 0, 1;
    for j := 0 to |func|
      invariant mask == Mask(func[..j]) && bit == Pow2(j)
    {
      assert func[..j + 1] == func[..j] + [func[j]];
      MaskSnoc(func[..j], func[j]);
      if func[j] {
        mask := mask + bit;
      }
      bit := 2 * bit;
    }
    assert func[..|func|] == func;
    functions := Wrap32(mask);
  }

  // ----- server side -----

  /** What was last sent to a client about an entry. */
  datatype Last = Last(speed: int, func: int32, dir: int32)

  /** The initial value: nothing sent yet. */
  const NEVER := Last(0, -1, 0)

  /** One element of a status reply. */
  datatype Info = Info(addr: int32, speed: int32, functions: int32)

  function Snap(l: Loco): Last {
    Last(l.speed, FuncInt(l.func), l.dir)
  }

  function InfoOf(l: Loco): Info {
    Info(l.addr, Wire(l.speed, l.dir), FuncInt(l.func))
  }

  /** The elements of a reply: the entries that differ from what the client was sent last. */
  function Changes(t: Table, last: seq<Last>): (infos: seq<Info>)
    requires |last| == |t|
  {
    if t == [] then []
    else (if Snap(t[0]) != last[0] then [InfoOf(t[0])] else []) + Changes(t[1..], last[1..])
  }

  function Snaps(t: Table): (last: seq<Last>)
    ensures |last| == |t|
  {
    seq(|t|, i requires 0 <= i < |t| => Snap(t[i]))
  }

  lemma {:induction false} ChangesSplit(t: Table, last: seq<Last>, i: nat)
    requires |last| == |t| && i <= |t|
    ensures Changes(t, last) == Changes(t[..i], last[..i]) + Changes(t[i..], last[i..])
    decreases i
  {
    if i > 0 {
      ChangesSplit(t[1..], last[1..], i - 1);
      assert t[1..][..i - 1] == t[..i][1..] && last[1..][..i - 1] == last[..i][1..];
      assert t[1..][i - 1..] == t[i..] && last[1..][i - 1..] == last[i..];
    }
  }

  lemma ChangesSnoc(t: Table, last: seq<Last>, i: nat)
    requires |last| == |t| && i < |t|
    ensures Changes(t[..i + 1], last[..i + 1])
      == Changes(t[..i], last[..i]) + if Snap(t[i]) != last[i] then [InfoOf(t[i])] else []
  {
    ChangesSplit(t[..i + 1], last[..i + 1], i);
    assert t[..i + 1][..i] == t[..i] && last[..i + 1][..i] == last[..i];
    assert t[..i + 1][i..] == [t[i]] && last[..i + 1][i..] == [last[i]];
  }

  /** setLokStatus: collect the changes and remember them, entry by entry. */
  method SetLokStatus(t: Table, lastStatus: array<Last>) returns (infos: seq<Info>)
    requires lastStatus.Length == |t|
    modifies lastStatus
    ensures infos == Changes(t, old(lastStatus[..]))
    ensures lastStatus[..] == Snaps(t)
  {
    ghost var last := lastStatus[..];
    infos := [];
    for i := 0 to |t|
      invariant infos == Changes(t[..i], last[..i])
      invariant forall k :: 0 <= k < i ==> lastStatus[k] == Snap(t[k])
      invariant forall k :: i <= k < |t| ==> lastStatus[k] == last[k]
    {
      var func := CollectFunctions(t[i].func);
      ChangesSnoc(t, last, i);
      if t[i].speed != lastStatus[i].speed || func != lastStatus[i].func || t[i].dir != lastStatus[i].dir {
        lastStatus[i] := Last(t[i].speed, func, t[i].dir);
        var speed := if t[i].speed == 0 then t[i].dir else Wrap32(t[i].speed * t[i].dir);
        infos := infos + [Info(t[i].addr, speed, func)];
      }
    }
    assert t[..|t|] == t && last[..|t|] == last;
  }

  // ----- client side -----

  /** The mirror of an entry on the client. */
  datatype Seen = Seen(addr: int32, speed: nat, dir: int32, func: seq<bool>)

  function SeenOf(info: Info): Seen {
    Seen(info.addr, WireSpeed(info.speed), WireDir(info.speed), FuncBits(info.functions))
  }

  /** What a faithful mirror shows of an entry. */
  function View(l: Loco): Seen {
    SeenOf(InfoOf(l))
  }

  function FindSeen(m: seq<Seen>, addr: int32): (i: nat)
    ensures i <= |m|
    ensures i < |m| ==> m[i].addr == addr
    ensures forall j :: 0 <= j < i ==> m[j].addr != addr
  {
    if m == [] || m[0].addr == addr then 0 else 1 + FindSeen(m[1..], addr)
  }

  /** Applying a status reply; an address the client does not know ends the session. */
  function ApplyInfos(m: seq<Seen>, infos: seq<Info>): (r: Result<seq<Seen>>)
    decreases |infos|
  {
    if infos == [] then Ok(m) else
    var i := FindSeen(m, infos[0].addr);
    if i == |m| then Err(UnknownName) else ApplyInfos(m[i := SeenOf(infos[0])], infos[1..])
  }

  /** The loop over the reply on the client, in place. */
  method ApplyStatus(mirror: array<Seen>, infos: seq<Info>) returns (ok: bool)
    modifies mirror
    ensures match ApplyInfos(old(mirror[..]), infos)
      case Ok(m) => ok && mirror[..] == m
      case Err(_) => !ok
  {
    assert infos[0..] == infos;
    for k := 0 to |infos|
      invariant ApplyInfos(old(mirror[..]), infos) == ApplyInfos(mirror[..], infos[k..])
    {
      assert infos[k..][0] == infos[k] && infos[k..][1..] == infos[k + 1..];
      ghost var m := mirror[..];
      var i := FindSeen(mirror[..], infos[k].addr);
      if i == mirror.Length {
        return false;
      }
      var speed, functions := infos[k].speed, infos[k].functions;
      mirror[i] := Seen(infos[k].addr, WireSpeed(speed), if speed >= 0 then 1 else -1, FuncBits(functions));
      assert mirror[..] == m[i := SeenOf(infos[k])];
    }
    ok := true;
  }

  // ----- one reply -----

  ghost predicate DistinctAddrs(t: Table) {
    forall i, j :: 0 <= i < j < |t| ==> t[i].addr != t[j].addr
  }

  /** The client's table has the server's addresses, in the server's order. */
  ghost predicate Loaded(t: Table, m: seq<Seen>) {
    |m| == |t| && forall i :: 0 <= i < |t| ==> m[i].addr == t[i].addr
  }

  /** The mirror after a reply: changed entries are replaced, the others stay as they were. */
  function Merge(t: Table, last: seq<Last>, m: seq<Seen>): (m': seq<Seen>)
    requires |t| == |last| == |m|
    ensures |m'| == |m|
  {
    seq(|t|, i requires 0 <= i < |t| => if Snap(t[i]) != last[i] then View(t[i]) else m[i])
  }

  /** The mirror after the element of entry k, if there is one. */
  function Replaced(t: Table, last: seq<Last>, m: seq<Seen>, k: nat): (m': seq<Seen>)
    requires |t| == |last| == |m| && k < |t|
    ensures |m'| == |m|
  {
    if Snap(t[k]) != last[k] then m[k := View(t[k])] else m
  }

  lemma {:induction false} ReplyMerges(t: Table, last: seq<Last>, m: seq<Seen>, k: nat)
    requires |last| == |t| && k <= |t| && Loaded(t, m) && DistinctAddrs(t)
    ensures ApplyInfos(m, Changes(t[k..], last[k..])) == Ok(m[..k] + Merge(t, last, m)[k..])
    decreases |t| - k
  {
    if k == |t| {
      MergeNone(t, last, m);
    } else {
      ReplyStep(t, last, m, k);
      MergeStep(t, last, m, k);
      ReplyMerges(t, last, Replaced(t, last, m, k), k + 1);
    }
  }

  lemma MergeNone(t: Table, last: seq<Last>, m: seq<Seen>)
    requires |t| == |last| == |m|
    ensures Changes(t[|t|..], last[|t|..]) == [] && m[..|t|] + Merge(t, last, m)[|t|..] == m
  {
  }

  lemma ReplyStep(t: Table, last: seq<Last>, m: seq<Seen>, k: nat)
    requires |last| == |t| && k < |t| && Loaded(t, m) && DistinctAddrs(t)
    ensures Loaded(t, Replaced(t, last, m, k))
    ensures ApplyInfos(m, Changes(t[k..], last[k..]))
      == ApplyInfos(Replaced(t, last, m, k), Changes(t[k + 1..], last[k + 1..]))
  {
    ChangesHead(t, last, k);
    if Snap(t[k]) != last[k] {
      FindSeenAt(t, m, k);
      ApplyHead(m, InfoOf(t[k]), Changes(t[k + 1..], last[k + 1..]));
    }
  }

  lemma ApplyHead(m: seq<Seen>, info: Info, infos: seq<Info>)
    requires FindSeen(m, info.addr) < |m|
    ensures ApplyInfos(m, [info] + infos) == ApplyInfos(m[FindSeen(m, info.addr) := SeenOf(info)], infos)
  {
    assert ([info] + infos)[1..] == infos;
  }

  lemma ChangesHead(t: Table, last: seq<Last>, k: nat)
    requires |last| == |t| && k < |t|
    ensures var rest := Changes(t[k + 1..], last[k + 1..]);
      Changes(t[k..], last[k..]) == if Snap(t[k]) != last[k] then [InfoOf(t[k])] + rest else rest
  {
  }

  lemma MergeStep(t: Table, last: seq<Last>, m: seq<Seen>, k: nat)
    requires |t| == |last| == |m| && k < |t|
    ensures var m' := Replaced(t, last, m, k);
      m'[..k + 1] + Merge(t, last, m')[k + 1..] == m[..k] + Merge(t, last, m)[k..]
  {
  }

  lemma FindSeenAt(t: Table, m: seq<Seen>, k: nat)
    requires Loaded(t, m) && DistinctAddrs(t) && k < |t|
    ensures FindSeen(m, t[k].addr) == k
  {
  }

  lemma ReplyMergesAll(t: Table, last: seq<Last>, m: seq<Seen>)
    requires |last| == |t| && Loaded(t, m) && DistinctAddrs(t)
    ensures ApplyInfos(m, Changes(t, last)) == Ok(Merge(t, last, m))
  {
    ReplyMerges(t, last, m, 0);
    assert t[0..] == t && last[0..] == last;
    assert m[..0] + Merge(t, last, m)[0..] == Merge(t, last, m);
  }

  ghost predicate Faithful(t: Table, m: seq<Seen>) {
    |m| == |t| && forall i :: 0 <= i < |t| ==> m[i] == View(t[i])
  }

  /** After a reply the mirror is right everywhere if and only if it was right for the entries that were left out. */
  lemma FaithfulIff(t: Table, last: seq<Last>, m: seq<Seen>)
    requires |last| == |t| && Loaded(t, m) && DistinctAddrs(t)
    ensures ApplyInfos(m, Changes(t, last)).Ok?
    ensures Faithful(t, ApplyInfos(m, Changes(t, last)).value)
      <==> forall i :: 0 <= i < |t| && Snap(t[i]) == last[i] ==> m[i] == View(t[i])
  {
    ReplyMergesAll(t, last, m);
    var m' := Merge(t, last, m);
    if Faithful(t, m') {
      forall i | 0 <= i < |t| && Snap(t[i]) == last[i]
        ensures m[i] == View(t[i])
      {
        assert m'[i] == m[i];
      }
    }
  }

  // ----- loading the table -----

  /** What loading the list of locos stores: the direction of a backward loco becomes 0 instead of -1. */
  function LoadedView(l: Loco): Seen {
    var w := Wire(l.speed, l.dir);
    Seen(l.addr, WireSpeed(w), if w >= 0 then 1 else 0, FuncBits(FuncInt(l.func)))
  }

  function LoadedViews(t: Table): (m: seq<Seen>)
    ensures |m| == |t|
  {
    seq(|t|, i requires 0 <= i < |t| => LoadedView(t[i]))
  }

  /** What the list says about l0 is right for l: same number for speed and direction, not backward, same functions. */
  predicate SameShown(l0: Loco, l: Loco) {
    Wire(l0.speed, l0.dir) == Wire(l.speed, l.dir) >= 0 && FuncInt(l0.func) == FuncInt(l.func)
  }

  lemma {:induction false} BitsDetermine(m: nat, n: nat, k: nat)
    requires m < Pow2(k) && n < Pow2(k) && forall i: nat :: i < k ==> Bit(m, i) == Bit(n, i)
    ensures m == n
    decreases k
  {
    if k > 0 {
      assert Bit(m, 0) == Bit(n, 0);
      forall i: nat | i < k - 1
        ensures Bit(m / 2, i) == Bit(n / 2, i)
      {
        assert Bit(m, i + 1) == Bit(n, i + 1);
      }
      BitsDetermine(m / 2, n / 2, k - 1);
    }
  }

  /** The 32 bits the client keeps determine the number on the wire. */
  lemma FuncBitsInjective(a: int32, b: int32)
    requires FuncBits(a) == FuncBits(b)
    ensures a == b
  {
    forall i: nat | i < MAX_NFUNC
      ensures Bit(Unsigned32(a), i) == Bit(Unsigned32(b), i)
    {
      assert FuncBits(a)[i] == FuncBits(b)[i];
    }
    Pow2Of32();
    BitsDetermine(Unsigned32(a), Unsigned32(b), 32);
    WrapUnsigned(a);
    WrapUnsigned(b);
  }

  lemma LoadedViewIff(l0: Loco, l: Loco)
    requires l0.addr == l.addr
    ensures LoadedView(l0) == View(l) <==> SameShown(l0, l)
  {
    if LoadedView(l0) == View(l) {
      FuncBitsInjective(FuncInt(l0.func), FuncInt(l.func));
    }
  }

  // ----- the list of functions -----

  /** What the server sends for GETFUNCTIONS: 1 or 0 for each function. */
  function FuncValues(func: seq<bool>): (values: seq<int32>)
    ensures |values| == |func| && forall j :: 0 <= j < |func| ==> 0 <= values[j] <= 1 && (values[j] == 1 <==> func[j])
  {
    seq(|func|, j requires 0 <= j < |func| => if func[j] then 1 else 0)
  }

  /** What the client makes of it: the last of 32 bit tests decides. */
  function FunctionsTaken(func: seq<bool>, values: seq<int32>): (func': seq<bool>)
    ensures |func'| == |func|
  {
    seq(|func|, j requires 0 <= j < |func| => if j < |values| then Bit(Unsigned32(values[j]), MAX_NFUNC - 1) else func[j])
  }

  /** initLokdefFunctions: the inner loop assigns the same flag 32 times. */
  method InitLokdefFunctions(func: array<bool>, values: seq<int32>)
    requires |values| <= func.Length
    modifies func
    ensures func[..] == FunctionsTaken(old(func[..]), values)
  {
    ghost var before := func[..];
    for i := 0 to |values|
      invariant forall j :: 0 <= j < i ==> func[j] == Bit(Unsigned32(values[j]), MAX_NFUNC - 1)
      invariant forall j :: i <= j < func.Length ==> func[j] == before[j]
    {
      for f := 0 to MAX_NFUNC
        invariant forall j :: 0 <= j < i ==> func[j] == Bit(Unsigned32(values[j]), MAX_NFUNC - 1)
        invariant forall j :: i < j < func.Length ==> func[j] == before[j]
        invariant f > 0 ==> func[i] == Bit(Unsigned32(values[i]), f - 1)
      {
        func[i] := Bit(Unsigned32(values[i]), f);
      }
    }
    assert func[..] == FunctionsTaken(before, values);
  }

  /** The values are 0 or 1, so bit 31 is never set: every function that the reply names is off in the mirror. */
  lemma FunctionsAreOff(func: seq<bool>, on: seq<bool>)
    ensures FunctionsTaken(func, FuncValues(on)) == Without(func, |on|)
  {
    forall j | 0 <= j < |func|
      ensures FunctionsTaken(func, FuncValues(on))[j] == Without(func, |on|)[j]
    {
      if j < |on| {
        assert Unsigned32(FuncValues(on)[j]) / 2 == 0;
        ZeroBits(MAX_NFUNC - 2);
      }
    }
  }

  /** The functions with the first n switched off. */
  function Without(func: seq<bool>, n: nat): (func': seq<bool>)
    ensures |func'| == |func|
  {
    if n == 0 then func else seq(|func|, j requires 0 <= j < |func| => n <= j && func[j])
  }

  lemma WithoutTwice(func: seq<bool>, n: nat, k: nat)
    ensures Without(Without(func, n), k) == Without(func, Max(n, k))
  {
  }

  // ----- whole runs -----

  /**
   * Where the mirror of an entry comes from: the list of locos or a status reply, and the loco as it was then, or an
   * earlier connection.
   */
  datatype Source = Listed(loco: Loco) | Sent(loco: Loco) | Kept(seen: Seen)

  /** The source of an entry and how many of its functions a function reply has switched off since. */
  datatype Shown = Shown(source: Source, off: nat)

  function SourceView(s: Source): Seen {
    match s
    case Listed(l) => LoadedView(l)
    case Sent(l) => View(l)
    case Kept(seen) => seen
  }

  function Show(s: Shown): Seen {
    var seen := SourceView(s.source);
    seen.(func := Without(seen.func, s.off))
  }

  /**
   * A reply on its way. `built` is the table it was built from, `prev` what the server remembered before; they are not
   * on the wire.
   */
  datatype Packet =
    | Status(infos: seq<Info>, built: Table, prev: seq<Last>)
    | Locos(entries: seq<Seen>, built: Table)
    | Functions(values: seq<int32>, on: seq<bool>)

  /**
   * What the server remembers of a client, its mirror once it has one, and the reply under way, of which there is at
   * most one. `shown` records where the mirror comes from; no step of the program looks at it.
   */
  datatype Client = Client(last: seq<Last>, mirror: Option<seq<Seen>>, pending: Option<Packet>, shown: seq<Shown>)

  datatype Sys = Sys(table: Table, clients: map<nat, Client>)

  /**
   * Join: a client connects, maybe with the mirror of an earlier connection to the same server. Change: the table
   * changes without a reply, through a failing command, a disconnect or another thread. Command: the server handles a
   * command of a client and builds the status reply. GetLocos: it builds the list of locos. GetFunctions: it builds the
   * list of functions of a loco. Take: the client takes a status or a list of locos. TakeFunctions: it takes a list of
   * functions, for the loco that is selected by then. Quit: a client goes.
   */
  datatype Event =
    | Join(client: nat, earlier: Option<seq<Seen>>)
    | Change(table: Table)
    | Command(client: nat, cmd: Cmd)
    | GetLocos(client: nat)
    | GetFunctions(client: nat, addr: int32)
    | Take(client: nat)
    | TakeFunctions(client: nat, selected: nat)
    | Quit(client: nat)

  ghost predicate Possible(s: Sys, ev: Event) {
    match ev
    case Join(c, earlier) => c !in s.clients && (earlier.Some? ==> Loaded(s.table, earlier.value))
    case Change(t) => SameLocos(s.table, t)
    case Command(c, cmd) => c in s.clients && s.clients[c].pending.None? && Apply(s.table, cmd).ok
    case GetLocos(c) => c in s.clients && s.clients[c].pending.None?
    case GetFunctions(c, addr) =>
      c in s.clients && s.clients[c].pending.None? && s.clients[c].mirror.Some? && Known(s.table, addr)
    case Take(c) => c in s.clients && s.clients[c].pending.Some? && !s.clients[c].pending.value.Functions?
    case TakeFunctions(c, i) =>
      c in s.clients && s.clients[c].pending.Some? && s.clients[c].pending.value.Functions? && i < |s.table|
    case Quit(c) => true
  }

  /** The entries and their functions are the same, in whatever state. */
  predicate SameLocos(t: Table, t': Table) {
    SameAddrs(t, t') && forall i :: 0 <= i < |t| ==> |t[i].func| == |t'[i].func|
  }

  function AllKept(m: seq<Seen>): (shown: seq<Shown>)
    ensures |shown| == |m|
  {
    seq(|m|, i requires 0 <= i < |m| => Shown(Kept(m[i]), 0))
  }

  function Joined(t: Table, earlier: Option<seq<Seen>>): Client {
    Client(seq(|t|, _ => NEVER), earlier, None,
           if earlier.None? then [] else AllKept(earlier.value))
  }

  function Serve(t: Table, c: Client): Client
    requires |c.last| == |t|
  {
    c.(last := Snaps(t), pending := Some(Status(Changes(t, c.last), t, c.last)))
  }

  function ServeList(t: Table, c: Client): Client {
    c.(pending := Some(Locos(LoadedViews(t), t)))
  }

  function ShownAfter(built: Table, prev: seq<Last>, shown: seq<Shown>): (shown': seq<Shown>)
    requires |built| == |prev| == |shown|
    ensures |shown'| == |shown|
  {
    seq(|built|, i requires 0 <= i < |built| => if Snap(built[i]) != prev[i] then Shown(Sent(built[i]), 0) else shown[i])
  }

  function AllListed(t: Table): (shown: seq<Shown>)
    ensures |shown| == |t|
  {
    seq(|t|, i requires 0 <= i < |t| => Shown(Listed(t[i]), 0))
  }

  /** The client takes the reply. Before it has a list it ignores a status; one that it cannot apply ends the session. */
  ghost function TakeReply(t: Table, c: Client): Option<Client>
    requires ClientInv(t, c) && c.pending.Some? && !c.pending.value.Functions?
  {
    match c.pending.value
    case Locos(entries, built) => Some(c.(mirror := Some(entries), pending := None, shown := AllListed(built)))
    case Status(infos, built, prev) =>
      if c.mirror.None? then Some(c.(pending := None)) else
      match ApplyInfos(c.mirror.value, infos)
      case Ok(m) => Some(c.(mirror := Some(m), pending := None, shown := ShownAfter(built, prev, c.shown)))
      case Err(_) => None
  }

  /**
   * The client takes a list of functions and stores it with the loco selected at that moment. A list of 32 fails an
   * assertion and ends the session.
   */
  ghost function StoreFunctions(t: Table, c: Client, i: nat): Option<Client>
    requires ClientInv(t, c) && c.pending.Some? && c.pending.value.Functions? && i < |t|
  {
    var values := c.pending.value.values;
    if |values| >= MAX_NFUNC then None else
    var m, n := c.mirror.value[i], Max(c.shown[i].off, |values|);
    Some(c.(mirror := Some(c.mirror.value[i := m.(func := FunctionsTaken(m.func, values))]), pending := None,
            shown := c.shown[i := c.shown[i].(off := n)]))
  }

  ghost function Step(s: Sys, ev: Event): (s': Sys)
    requires Inv(s) && Possible(s, ev)
  {
    match ev
    case Join(c, earlier) => s.(clients := s.clients[c := Joined(s.table, earlier)])
    case Change(t) => s.(table := t)
    case Command(c, cmd) =>
      CommandKeeps(s.table, cmd);
      var t := Apply(s.table, cmd).table;
      Sys(t, s.clients[c := Serve(t, s.clients[c])])
    case GetLocos(c) => s.(clients := s.clients[c := ServeList(s.table, s.clients[c])])
    case GetFunctions(c, addr) =>
      var func := s.table[Find(s.table, addr)].func;
      s.(clients := s.clients[c := s.clients[c].(pending := Some(Functions(FuncValues(func), func)))])
    case Take(c) => Continue(s, c, TakeReply(s.table, s.clients[c]))
    case TakeFunctions(c, i) => Continue(s, c, StoreFunctions(s.table, s.clients[c], i))
    case Quit(c) => s.(clients := s.clients - {c})
  }

  /** The session goes on with a new state of the client, or ends. */
  function Continue(s: Sys, c: nat, next: Option<Client>): Sys {
    s.(clients := if next.Some? then s.clients[c := next.value] else s.clients - {c})
  }

  /** What the server remembered when the mirror was last brought up to date. */
  function Base(c: Client): seq<Last> {
    if c.pending.Some? && c.pending.value.Status? then c.pending.value.prev else c.last
  }

  /** The source speaks about this loco. */
  predicate SourceOf(s: Source, l: Loco) {
    match s
    case Kept(seen) => seen.addr == l.addr
    case _ => s.loco.addr == l.addr && |s.loco.func| == |l.func|
  }

  /** The mirror shows what its record says, and an entry from a status reply is what the server remembers. */
  ghost predicate MirrorInv(t: Table, c: Client) {
    c.mirror.Some? ==>
      && |c.shown| == |c.mirror.value| == |t| == |Base(c)|
      && forall i :: 0 <= i < |t| ==>
        && SourceOf(c.shown[i].source, t[i]) && c.mirror.value[i] == Show(c.shown[i])
        && (c.shown[i].source.Sent? ==> Snap(c.shown[i].source.loco) == Base(c)[i])
  }

  ghost predicate PendingInv(t: Table, c: Client) {
    c.pending.Some? ==>
      match c.pending.value
      case Locos(entries, built) => SameLocos(t, built) && entries == LoadedViews(built)
      case Status(infos, built, prev) =>
        SameLocos(t, built) && |prev| == |t| && infos == Changes(built, prev) && c.last == Snaps(built)
      case Functions(values, on) => c.mirror.Some? && values == FuncValues(on)
  }

  ghost predicate ClientInv(t: Table, c: Client) {
    |c.last| == |t| && MirrorInv(t, c) && PendingInv(t, c)
  }

  /** A table with distinct addresses and at most 32 functions for each loco, as reading the loco list ensures. */
  ghost predicate TableInv(t: Table) {
    DistinctAddrs(t) && forall i :: 0 <= i < |t| ==> |t[i].func| <= MAX_NFUNC
  }

  ghost predicate Inv(s: Sys) {
    TableInv(s.table) && forall c :: c in s.clients ==> ClientInv(s.table, s.clients[c])
  }

  lemma ClientInvSame(t: Table, t': Table, c: Client)
    requires SameLocos(t, t') && ClientInv(t, c)
    ensures ClientInv(t', c)
  {
  }

  lemma ShowsAddress(t: Table, c: Client)
    requires ClientInv(t, c) && c.mirror.Some?
    ensures Loaded(t, c.mirror.value)
  {
  }

  /** Taking a status reply merges it into the mirror, and the record follows. */
  lemma TakesStatus(t: Table, c: Client)
    requires ClientInv(t, c) && DistinctAddrs(t) && c.pending.Some? && c.pending.value.Status? && c.mirror.Some?
    ensures var Status(_, built, prev) := c.pending.value;
      && |prev| == |built| == |c.mirror.value| == |c.shown|
      && TakeReply(t, c) == Some(c.(mirror := Some(Merge(built, prev, c.mirror.value)), pending := None,
                                    shown := ShownAfter(built, prev, c.shown)))
  {
    var Status(_, built, prev) := c.pending.value;
    ShowsAddress(t, c);
    ReplyMergesAll(built, prev, c.mirror.value);
  }

  lemma MergedInv(t: Table, built: Table, prev: seq<Last>, c: Client, i: nat)
    requires |t| == |built| == |prev| && MirrorInv(t, c) && c.mirror.Some? && Base(c) == prev
    requires i < |t| && built[i].addr == t[i].addr && |built[i].func| == |t[i].func|
    ensures var shown, m := ShownAfter(built, prev, c.shown), Merge(built, prev, c.mirror.value);
      && SourceOf(shown[i].source, t[i]) && m[i] == Show(shown[i])
      && (shown[i].source.Sent? ==> Snap(shown[i].source.loco) == Snap(built[i]))
  {
  }

  lemma TakeKeeps(t: Table, c: Client)
    requires ClientInv(t, c) && DistinctAddrs(t) && c.pending.Some? && !c.pending.value.Functions?
    ensures TakeReply(t, c).Some? && ClientInv(t, TakeReply(t, c).value)
  {
    if c.pending.value.Status? && c.mirror.Some? {
      TakesStatus(t, c);
      var Status(_, built, prev) := c.pending.value;
      forall i | 0 <= i < |t|
        ensures var c' := TakeReply(t, c).value;
          && SourceOf(c'.shown[i].source, t[i]) && c'.mirror.value[i] == Show(c'.shown[i])
          && (c'.shown[i].source.Sent? ==> Snap(c'.shown[i].source.loco) == c'.last[i])
      {
        MergedInv(t, built, prev, c, i);
      }
    }
  }

  lemma StoreKeeps(t: Table, c: Client, i: nat)
    requires ClientInv(t, c) && c.pending.Some? && c.pending.value.Functions? && i < |t|
    requires StoreFunctions(t, c, i).Some?
    ensures ClientInv(t, StoreFunctions(t, c, i).value)
  {
    var Functions(values, on) := c.pending.value;
    var s := c.shown[i];
    var func := SourceView(s.source).func;
    FunctionsAreOff(c.mirror.value[i].func, on);
    WithoutTwice(func, s.off, |on|);
    assert FunctionsTaken(c.mirror.value[i].func, values) == Without(func, Max(s.off, |on|));
  }

  lemma JoinedInv(t: Table, earlier: Option<seq<Seen>>)
    requires earlier.Some? ==> Loaded(t, earlier.value)
    ensures ClientInv(t, Joined(t, earlier))
  {
  }

  lemma StepKeepsInv(s: Sys, ev: Event)
    requires Inv(s) && Possible(s, ev)
    ensures Inv(Step(s, ev))
  {
    var s' := Step(s, ev);
    match ev {
      case Join(_, earlier) => JoinedInv(s.table, earlier);
      case Command(c, cmd) =>
        CommandKeeps(s.table, cmd);
        ClientInvSame(s.table, s'.table, s.clients[c]);
      case Take(c) => TakeKeeps(s.table, s.clients[c]);
      case TakeFunctions(c, i) =>
        if StoreFunctions(s.table, s.clients[c], i).Some? {
          StoreKeeps(s.table, s.clients[c], i);
        }
      case _ =>
    }
    assert SameLocos(s.table, s'.table);
    forall c | c in s'.clients
      ensures ClientInv(s'.table, s'.clients[c])
    {
      if c in s.clients && s'.clients[c] == s.clients[c] {
        ClientInvSame(s.table, s'.table, s.clients[c]);
      }
    }
  }

  // ----- when a mirrored entry is right -----

  /** Function j is on in f0 and not among the first n switched off. */
  predicate SameFuncs(f0: seq<bool>, n: nat, f: seq<bool>)
    requires |f0| == |f|
  {
    forall j :: 0 <= j < |f| ==> f[j] == (n <= j && f0[j])
  }

  predicate FirstOff(func: seq<bool>, n: nat) {
    forall j :: 0 <= j < n && j < |func| ==> !func[j]
  }

  lemma BitsIff(f0: seq<bool>, n: nat, f: seq<bool>)
    requires |f0| == |f| <= MAX_NFUNC
    ensures Without(FuncBits(FuncInt(f0)), n) == FuncBits(FuncInt(f)) <==> SameFuncs(f0, n, f)
  {
    FunctionsRoundTrip(f0);
    FunctionsRoundTrip(f);
    var b0, b := FuncBits(FuncInt(f0)), FuncBits(FuncInt(f));
    assert forall j :: 0 <= j < MAX_NFUNC ==> b0[j] == (j < |f| && f0[j]) && b[j] == (j < |f| && f[j]);
    assert forall j :: 0 <= j < MAX_NFUNC ==> Without(b0, n)[j] == (n <= j && b0[j]);
    if Without(b0, n) == b {
      assert forall j :: 0 <= j < |f| ==> f[j] == b[j];
    }
  }

  /** What the record of an entry must say for the loco l, of which the server has nothing to send. */
  predicate RightlyShown(s: Shown, l: Loco)
    requires SourceOf(s.source, l)
  {
    match s.source
    case Listed(l0) => Wire(l0.speed, l0.dir) == Wire(l.speed, l.dir) >= 0 && SameFuncs(l0.func, s.off, l.func)
    case Sent(_) => FirstOff(l.func, s.off)
    case Kept(seen) => seen.(func := Without(seen.func, s.off)) == View(l)
  }

  lemma ShownIff(s: Shown, l: Loco)
    requires SourceOf(s.source, l) && |l.func| <= MAX_NFUNC && (s.source.Sent? ==> Snap(s.source.loco) == Snap(l))
    ensures Show(s) == View(l) <==> RightlyShown(s, l)
  {
    match s.source
    case Listed(l0) => BitsIff(l0.func, s.off, l.func);
    case Sent(l0) => BitsIff(l.func, s.off, l.func);
    case Kept(_) =>
  }

  /** The entries a reply leaves out are shown rightly already. */
  ghost predicate LeftOutShown(t: Table, c: Client)
    requires ClientInv(t, c)
  {
    c.mirror.Some? ==> forall i :: 0 <= i < |t| && Snap(t[i]) == c.last[i] ==> RightlyShown(c.shown[i], t[i])
  }

  /**
   * One exchange of a client: the reply built from table t makes the mirror the table t, if and only if the entries it
   * leaves out are shown rightly: an entry from the list was listed as it is and does not run backward, and a function
   * reply has not switched off a function that is on.
   */
  lemma ReplyIff(t: Table, c: Client, t': Table)
    requires ClientInv(t, c) && TableInv(t) && c.mirror.Some? && c.pending.None? && SameLocos(t, t')
    requires ClientInv(t', Serve(t, c))
    ensures var c' := TakeReply(t', Serve(t, c));
      c'.Some? && c'.value.mirror.Some? && (Faithful(t, c'.value.mirror.value) <==> LeftOutShown(t, c))
  {
    ShowsAddress(t, c);
    FaithfulIff(t, c.last, c.mirror.value);
    forall i | 0 <= i < |t| && Snap(t[i]) == c.last[i]
      ensures c.mirror.value[i] == View(t[i]) <==> RightlyShown(c.shown[i], t[i])
    {
      ShownIff(c.shown[i], t[i]);
    }
  }

  /** A step, with what it keeps. */
  ghost function After(s: Sys, ev: Event): (s': Sys)
    requires Inv(s) && Possible(s, ev)
    ensures Inv(s')
  {
    StepKeepsInv(s, ev);
    Step(s, ev)
  }

  ghost predicate GoodRun(s: Sys, evs: seq<Event>)
    requires Inv(s)
    decreases |evs|
  {
    evs == [] || (Possible(s, evs[0]) && GoodRun(After(s, evs[0]), evs[1..]))
  }

  ghost function Run(s: Sys, evs: seq<Event>): (s': Sys)
    requires Inv(s) && GoodRun(s, evs)
    ensures Inv(s')
    decreases |evs|
  {
    if evs == [] then s else Run(After(s, evs[0]), evs[1..])
  }

  lemma {:induction false} RunAppend(s: Sys, a: seq<Event>, b: seq<Event>)
    requires Inv(s)
    ensures GoodRun(s, a + b) <==> GoodRun(s, a) && GoodRun(Run(s, a), b)
    ensures GoodRun(s, a + b) ==> Run(s, a + b) == Run(Run(s, a), b)
    decreases |a|
  {
    if a == [] {
      assert a + b == b;
    } else {
      assert (a + b)[0] == a[0] && (a + b)[1..] == a[1..] + b;
      if Possible(s, a[0]) {
        RunAppend(After(s, a[0]), a[1..], b);
      }
    }
  }

  lemma RunCons(s: Sys, ev: Event, evs: seq<Event>)
    requires Inv(s) && Possible(s, ev)
    ensures GoodRun(s, [ev] + evs) <==> GoodRun(After(s, ev), evs)
    ensures GoodRun(s, [ev] + evs) ==> Run(s, [ev] + evs) == Run(After(s, ev), evs)
  {
    assert ([ev] + evs)[1..] == evs;
  }

  lemma RunOne(s: Sys, ev: Event)
    requires Inv(s)
    ensures GoodRun(s, [ev]) <==> Possible(s, ev)
    ensures Possible(s, ev) ==> Run(s, [ev]) == After(s, ev)
  {
    assert [ev][1..] == [];
  }

  /** Events of the other clients and of the table. */
  ghost predicate Others(evs: seq<Event>, c: nat) {
    forall k :: 0 <= k < |evs| ==> evs[k].Change? || evs[k].client != c
  }

  /** What others do leaves a client and its reply as they are. */
  lemma {:induction false} OthersLeave(s: Sys, evs: seq<Event>, c: nat)
    requires Inv(s) && GoodRun(s, evs) && Others(evs, c)
    ensures c in Run(s, evs).clients <==> c in s.clients
    ensures c in s.clients ==> Run(s, evs).clients[c] == s.clients[c]
    ensures SameLocos(s.table, Run(s, evs).table)
    decreases |evs|
  {
    if evs != [] {
      if evs[0].Command? {
        CommandKeeps(s.table, evs[0].cmd);
      }
      OthersLeave(After(s, evs[0]), evs[1..], c);
    }
  }

  /** A run, a command of client c, and then only events of others before c takes the reply. */
  ghost predicate Exchanges(s: Sys, evs: seq<Event>, c: nat, cmd: Cmd, others: seq<Event>) {
    && Inv(s) && GoodRun(s, evs) && Possible(Run(s, evs), Command(c, cmd))
    && GoodRun(After(Run(s, evs), Command(c, cmd)), others) && Others(others, c)
  }

  /** The state in which the reply is built, and the state in which it has been taken. */
  ghost function Served(s: Sys, evs: seq<Event>, c: nat, cmd: Cmd, others: seq<Event>): (s': Sys)
    requires Exchanges(s, evs, c, cmd, others)
    ensures Inv(s')
  {
    After(Run(s, evs), Command(c, cmd))
  }

  ghost function Taken(s: Sys, evs: seq<Event>, c: nat, cmd: Cmd, others: seq<Event>): (s': Sys)
    requires Exchanges(s, evs, c, cmd, others)
    ensures Inv(s')
  {
    OthersLeave(Served(s, evs, c, cmd, others), others, c);
    After(Run(Served(s, evs, c, cmd, others), others), Take(c))
  }

  /**
   * After any run with any number of clients, client c sends a command and later takes the reply. Whatever others do in
   * between, and although the reply only carries what differs from the last one, the mirror is then the table as it was
   * when the reply was built, if and only if the entries left out are shown rightly: listed as they are and not backward
   * if c has them from the list, and without a function on that a function reply has switched off in the mirror.
   */
  lemma MirrorAfterRunIff(s: Sys, evs: seq<Event>, c: nat, cmd: Cmd, others: seq<Event>)
    requires Exchanges(s, evs, c, cmd, others) && Run(s, evs).clients[c].mirror.Some?
    ensures var r, built, s' := Run(s, evs), Served(s, evs, c, cmd, others).table, Taken(s, evs, c, cmd, others);
      && ClientInv(built, r.clients[c]) && c in s'.clients && s'.clients[c].mirror.Some?
      && (Faithful(built, s'.clients[c].mirror.value) <==> LeftOutShown(built, r.clients[c]))
  {
    var client, s1 := Run(s, evs).clients[c], Served(s, evs, c, cmd, others);
    ReplyWaits(s, evs, c, cmd, others);
    var s2 := Run(s1, others);
    ReplyIff(s1.table, client, s2.table);
    TakesOwn(s2, c);
  }

  lemma TakesOwn(s: Sys, c: nat)
    requires Inv(s) && Possible(s, Take(c)) && TakeReply(s.table, s.clients[c]).Some?
    ensures c in After(s, Take(c)).clients && After(s, Take(c)).clients[c] == TakeReply(s.table, s.clients[c]).value
  {
  }

  /** Until client c takes its reply, its side is what serving it left. */
  lemma ReplyWaits(s: Sys, evs: seq<Event>, c: nat, cmd: Cmd, others: seq<Event>)
    requires Exchanges(s, evs, c, cmd, others)
    ensures var r, s1 := Run(s, evs), Served(s, evs, c, cmd, others);
      var s2 := Run(s1, others);
      && SameLocos(r.table, s1.table) && SameLocos(s1.table, s2.table) && ClientInv(s1.table, r.clients[c])
      && c in s2.clients && s2.clients[c] == Serve(s1.table, r.clients[c])
  {
    var r, s1 := Run(s, evs), Served(s, evs, c, cmd, others);
    CommandKeeps(r.table, cmd);
    ClientInvSame(r.table, s1.table, r.clients[c]);
    OthersLeave(s1, others, c);
  }

  // ----- clients that load the list first -----

  ghost predicate NothingSent(c: Client) {
    forall i :: 0 <= i < |c.last| ==> c.last[i] == NEVER
  }

  /** Whatever the client does not have from a status reply was not sent to it by then. */
  ghost predicate Clean(c: Client) {
    && (c.pending.Some? && c.pending.value.Locos? ==> NothingSent(c))
    && (c.mirror.Some? ==> |c.shown| == |Base(c)|)
    && (c.mirror.Some? ==> forall i :: 0 <= i < |c.shown| && !c.shown[i].source.Sent? ==> Base(c)[i] == NEVER)
  }

  /** The list is only asked for as long as no status reply has carried anything. */
  ghost predicate ListFirst(s: Sys, evs: seq<Event>)
    requires Inv(s) && GoodRun(s, evs)
    decreases |evs|
  {
    evs == [] ||
    ((evs[0].GetLocos? ==> NothingSent(s.clients[evs[0].client])) && ListFirst(After(s, evs[0]), evs[1..]))
  }

  lemma StepKeepsClean(s: Sys, ev: Event)
    requires Inv(s) && Possible(s, ev) && (ev.GetLocos? ==> NothingSent(s.clients[ev.client]))
    requires forall c :: c in s.clients ==> Clean(s.clients[c])
    ensures forall c :: c in After(s, ev).clients ==> Clean(After(s, ev).clients[c])
  {
    match ev
    case Join(_, earlier) => JoinedClean(s.table, earlier);
    case Take(c) => TakeKeepsClean(s.table, s.clients[c]);
    case TakeFunctions(c, i) => StoreKeepsClean(s.table, s.clients[c], i);
    case _ =>
  }

  lemma JoinedClean(t: Table, earlier: Option<seq<Seen>>)
    requires earlier.Some? ==> Loaded(t, earlier.value)
    ensures Clean(Joined(t, earlier))
  {
  }

  lemma StoreKeepsClean(t: Table, c: Client, i: nat)
    requires ClientInv(t, c) && c.pending.Some? && c.pending.value.Functions? && i < |t| && Clean(c)
    ensures StoreFunctions(t, c, i).Some? ==> Clean(StoreFunctions(t, c, i).value)
  {
  }

  lemma TakeKeepsClean(t: Table, c: Client)
    requires ClientInv(t, c) && DistinctAddrs(t) && c.pending.Some? && !c.pending.value.Functions? && Clean(c)
    ensures TakeReply(t, c).Some? && Clean(TakeReply(t, c).value)
  {
    TakeKeeps(t, c);
    if c.pending.value.Status? && c.mirror.Some? {
      TakesStatus(t, c);
    }
  }

  lemma {:induction false} RunKeepsClean(s: Sys, evs: seq<Event>)
    requires Inv(s) && GoodRun(s, evs) && ListFirst(s, evs) && forall c :: c in s.clients ==> Clean(s.clients[c])
    ensures forall c :: c in Run(s, evs).clients ==> Clean(Run(s, evs).clients[c])
    decreases |evs|
  {
    if evs != [] {
      StepKeepsClean(s, evs[0]);
      RunKeepsClean(After(s, evs[0]), evs[1..]);
    }
  }

  /** No function reply has switched anything off. */
  ghost predicate Unswitched(c: Client) {
    (c.pending.Some? ==> !c.pending.value.Functions?) && forall i :: 0 <= i < |c.shown| ==> c.shown[i].off == 0
  }

  lemma TakeKeepsUnswitched(t: Table, c: Client)
    requires ClientInv(t, c) && c.pending.Some? && !c.pending.value.Functions? && Unswitched(c)
    ensures TakeReply(t, c).Some? ==> Unswitched(TakeReply(t, c).value)
  {
  }

  lemma StepKeepsUnswitched(s: Sys, ev: Event)
    requires Inv(s) && Possible(s, ev) && !ev.GetFunctions?
    requires forall c :: c in s.clients ==> Unswitched(s.clients[c])
    ensures forall c :: c in After(s, ev).clients ==> Unswitched(After(s, ev).clients[c])
  {
    if ev.Take? {
      TakeKeepsUnswitched(s.table, s.clients[ev.client]);
    }
  }

  lemma {:induction false} RunKeepsUnswitched(s: Sys, evs: seq<Event>)
    requires Inv(s) && GoodRun(s, evs) && forall k :: 0 <= k < |evs| ==> !evs[k].GetFunctions?
    requires forall c :: c in s.clients ==> Unswitched(s.clients[c])
    ensures forall c :: c in Run(s, evs).clients ==> Unswitched(Run(s, evs).clients[c])
    decreases |evs|
  {
    if evs != [] {
      StepKeepsUnswitched(s, evs[0]);
      RunKeepsUnswitched(After(s, evs[0]), evs[1..]);
    }
  }

  /** No loco that is left out has a function on that a function reply has switched off in the mirror. */
  ghost predicate SwitchedRightly(t: Table, c: Client)
    requires ClientInv(t, c) && c.mirror.Some?
  {
    forall i :: 0 <= i < |t| && Snap(t[i]) == c.last[i] ==> FirstOff(t[i].func, c.shown[i].off)
  }

  lemma CleanIff(t: Table, c: Client)
    requires ClientInv(t, c) && c.mirror.Some? && c.pending.None? && Clean(c)
    requires forall i :: 0 <= i < |t| ==> Snap(t[i]) != NEVER
    ensures LeftOutShown(t, c) <==> SwitchedRightly(t, c)
    ensures Unswitched(c) ==> SwitchedRightly(t, c)
  {
    assert forall i :: 0 <= i < |t| && Snap(t[i]) == c.last[i] ==> c.shown[i].source.Sent?;
  }

  /**
   * From a server without clients, for clients that load the list before any status reply carries something, and as
   * long as no entry equals the initial value: a reply makes the mirror the table it was built from if and only if no
   * loco it leaves out has a function on that a function reply has switched off in the mirror. Without function replies
   * it always does.
   */
  lemma MirrorAfterRun(t: Table, evs: seq<Event>, c: nat, cmd: Cmd, others: seq<Event>)
    requires TableInv(t) && Exchanges(Sys(t, map[]), evs, c, cmd, others) && ListFirst(Sys(t, map[]), evs)
    requires Run(Sys(t, map[]), evs).clients[c].mirror.Some?
    requires forall l :: l in Served(Sys(t, map[]), evs, c, cmd, others).table ==> Snap(l) != NEVER
    ensures var built, s' := Served(Sys(t, map[]), evs, c, cmd, others).table, Taken(Sys(t, map[]), evs, c, cmd, others);
      var client := Run(Sys(t, map[]), evs).clients[c];
      && ClientInv(built, client) && c in s'.clients && s'.clients[c].mirror.Some?
      && (Faithful(built, s'.clients[c].mirror.value) <==> SwitchedRightly(built, client))
      && ((forall k :: 0 <= k < |evs| ==> !evs[k].GetFunctions?) ==> Faithful(built, s'.clients[c].mirror.value))
  {
    CleanExchange(Sys(t, map[]), evs, c, cmd, others);
    if forall k :: 0 <= k < |evs| ==> !evs[k].GetFunctions? {
      RunKeepsUnswitched(Sys(t, map[]), evs);
    }
  }

  lemma CleanExchange(s: Sys, evs: seq<Event>, c: nat, cmd: Cmd, others: seq<Event>)
    requires Exchanges(s, evs, c, cmd, others) && ListFirst(s, evs) && Run(s, evs).clients[c].mirror.Some?
    requires forall c :: c in s.clients ==> Clean(s.clients[c])
    requires forall l :: l in Served(s, evs, c, cmd, others).table ==> Snap(l) != NEVER
    ensures var built, s' := Served(s, evs, c, cmd, others).table, Taken(s, evs, c, cmd, others);
      var client := Run(s, evs).clients[c];
      && ClientInv(built, client) && c in s'.clients && s'.clients[c].mirror.Some?
      && (Faithful(built, s'.clients[c].mirror.value) <==> SwitchedRightly(built, client))
      && (Unswitched(client) ==> SwitchedRightly(built, client))
  {
    MirrorAfterRunIff(s, evs, c, cmd, others);
    RunKeepsClean(s, evs);
    var built := Served(s, evs, c, cmd, others).table;
    assert forall i :: 0 <= i < |built| ==> built[i] in built;
    CleanIff(built, Run(s, evs).clients[c]);
  }

  /** An entry that looks as if it had been sent already: stopped, no direction, and all of 32 functions on. */
  lemma NeverIff(l: Loco)
    requires |l.func| <= MAX_NFUNC
    ensures Snap(l) == NEVER <==>
      l.speed == 0 && l.dir == 0 && |l.func| == MAX_NFUNC && forall i :: 0 <= i < |l.func| ==> l.func[i]
  {
    AllOnes(l.func);
  }

  lemma AllOnes(func: seq<bool>)
    requires |func| <= MAX_NFUNC
    ensures FuncInt(func) == -1 <==> |func| == MAX_NFUNC && forall i :: 0 <= i < |func| ==> func[i]
  {
    MaskFits(func);
    MaskBound(func);
    Pow2Of32();
    if |func| < MAX_NFUNC {
      Pow2Monotone(|func|, 31);
      assert Pow2(32) == 2 * Pow2(31);
    }
    assert FuncInt(func) == -1 <==> Mask(func) == 0xFFFF_FFFF;
  }

  /** DIR_MULTI accepts direction 0; such an entry with all 32 functions on is never sent, and a stale mirror stays. */
  lemma SentinelStaysStale(m: Seen)
    requires m.addr == 3 && m.speed == 77
    ensures var l := Loco(3, 0, seq(MAX_NFUNC, _ => true), 0, 0, 0);
      Changes([l], [NEVER]) == [] && ApplyInfos([m], Changes([l], [NEVER])) == Ok([m]) && !Faithful([l], [m])
  {
    var l := Loco(3, 0, seq(MAX_NFUNC, _ => true), 0, 0, 0);
    NeverIff(l);
    assert View(l).speed == 0;
  }

  // ----- loading the list in the middle of a session -----

  /** The client asks for the list and takes it; others act before and after it does. */
  function Reload(c: nat, before: seq<Event>, behind: seq<Event>): seq<Event> {
    [GetLocos(c)] + (before + ([Take(c)] + behind))
  }

  lemma ReloadShows(s: Sys, c: nat, before: seq<Event>, behind: seq<Event>)
    requires Inv(s) && GoodRun(s, Reload(c, before, behind)) && Others(before, c) && Others(behind, c)
    ensures var r := Run(s, Reload(c, before, behind));
      && c in s.clients && c in r.clients
      && r.clients[c] == s.clients[c].(mirror := Some(LoadedViews(s.table)), shown := AllListed(s.table))
  {
    RunAppend(s, [GetLocos(c)], before + ([Take(c)] + behind));
    RunOne(s, GetLocos(c));
    var s1 := After(s, GetLocos(c));
    RunAppend(s1, before, [Take(c)] + behind);
    OthersLeave(s1, before, c);
    var s2 := Run(s1, before);
    RunAppend(s2, [Take(c)], behind);
    RunOne(s2, Take(c));
    OthersLeave(After(s2, Take(c)), behind, c);
  }

  /**
   * A client that loads the list in the middle of a session, or for the first time after status replies: the server
   * does not reset what it remembers, so the next reply makes the mirror right if and only if every loco it leaves out
   * has, when the reply is built, the speed, direction and functions it had when the list was built, and runs forward.
   */
  lemma ReloadIff(s: Sys, c: nat, before: seq<Event>, behind: seq<Event>, cmd: Cmd, others: seq<Event>)
    requires Exchanges(s, Reload(c, before, behind), c, cmd, others) && Others(before, c) && Others(behind, c)
    ensures var load := Reload(c, before, behind);
      var built, s' := Served(s, load, c, cmd, others).table, Taken(s, load, c, cmd, others);
      && c in s.clients && |s.clients[c].last| == |s.table| == |built|
      && c in s'.clients && s'.clients[c].mirror.Some?
      && (Faithful(built, s'.clients[c].mirror.value) <==>
          forall i :: 0 <= i < |built| && Snap(built[i]) == s.clients[c].last[i] ==> SameShown(s.table[i], built[i]))
  {
    var load := Reload(c, before, behind);
    ReloadShows(s, c, before, behind);
    MirrorAfterRunIff(s, load, c, cmd, others);
    var built := Served(s, load, c, cmd, others).table;
    forall i | 0 <= i < |built|
      ensures RightlyShown(Shown(Listed(s.table[i]), 0), built[i]) <==> SameShown(s.table[i], built[i])
    {
      ListedIff(s.table[i], built[i]);
    }
  }

  lemma ListedIff(l0: Loco, l: Loco)
    requires l0.addr == l.addr && |l0.func| == |l.func| <= MAX_NFUNC
    ensures RightlyShown(Shown(Listed(l0), 0), l) <==> SameShown(l0, l)
  {
    ShownIff(Shown(Listed(l0), 0), l);
    LoadedViewIff(l0, l);
  }

  /** A client that was sent loco 3 at speed 5, while the loco has come to run at 10. */
  const SLOW := Loco(3, 0, [], 5, 1, 0)
  const FAST := Loco(3, 0, [], 10, 1, 0)
  const BEHIND := Sys([FAST], map[1 := Client([Snap(SLOW)], Some([View(SLOW)]), None, [Shown(Sent(SLOW), 0)])])

  lemma BehindReloads()
    ensures Inv(BEHIND) && GoodRun(BEHIND, Reload(1, [], [Change([SLOW])]))
    ensures Run(BEHIND, Reload(1, [], [Change([SLOW])])).table == [SLOW]
  {
    assert Inv(BEHIND);
    var s1 := After(BEHIND, GetLocos(1));
    var s2 := After(s1, Take(1));
    RunCons(BEHIND, GetLocos(1), [Take(1)] + [Change([SLOW])]);
    RunCons(s1, Take(1), [Change([SLOW])]);
    RunOne(s2, Change([SLOW]));
    assert Reload(1, [], [Change([SLOW])]) == [GetLocos(1)] + ([Take(1)] + [Change([SLOW])]);
  }

  lemma OneLoco(l: Loco)
    ensures Find([l], l.addr) == 0
    ensures Apply([l], Acc(l.addr)).table == [l.(speed := Faster(l.speed))]
    ensures Apply([l], Brake(l.addr)).table == [l.(speed := Slower(l.speed))]
  {
    FindUnique([l], l.addr, 0);
    assert [l][0 := l.(speed := Faster(l.speed))] == [l.(speed := Faster(l.speed))];
    assert [l][0 := l.(speed := Slower(l.speed))] == [l.(speed := Slower(l.speed))];
  }

  /**
   * Another client accelerates the loco to 10, client 1 loads the list, the other one slows it down to 5 again: no loco
   * runs backward, nothing is left to send, and client 1 goes on showing 10.
   */
  lemma ReloadMissesChange()
    ensures Apply([SLOW], Acc(3)).table == [FAST] && Apply([FAST], Brake(3)).table == [SLOW]
    ensures var load := Reload(1, [], [Change([SLOW])]);
      && Exchanges(BEHIND, load, 1, Ping, []) && Served(BEHIND, load, 1, Ping, []).table == [SLOW]
      && var s' := Taken(BEHIND, load, 1, Ping, []);
        1 in s'.clients && s'.clients[1].mirror.Some? && !Faithful([SLOW], s'.clients[1].mirror.value)
  {
    OneLoco(SLOW);
    OneLoco(FAST);
    BehindReloads();
    ReloadShows(BEHIND, 1, [], [Change([SLOW])]);
    ReloadIff(BEHIND, 1, [], [Change([SLOW])], Ping, []);
    assert Snap([SLOW][0]) == BEHIND.clients[1].last[0] && !SameShown(BEHIND.table[0], [SLOW][0]);
  }

  // ----- a list of functions in the middle of a session -----

  /** A loco with its headlight on, and a client whose mirror is right. */
  const LIT := Loco(3, 0, [true], 0, 1, 0)
  const SHOWN := Client([Snap(LIT)], Some([View(LIT)]), None, [Shown(Sent(LIT), 0)])
  const UPTODATE := Sys([LIT], map[1 := SHOWN])

  lemma HeadlightLost()
    ensures Inv(UPTODATE) && GoodRun(UPTODATE, [GetFunctions(1, 3)] + [TakeFunctions(1, 0)])
    ensures var r := Run(UPTODATE, [GetFunctions(1, 3)] + [TakeFunctions(1, 0)]);
      && r.table == [LIT] && 1 in r.clients && r.clients[1].last == [Snap(LIT)] && r.clients[1].pending.None?
      && r.clients[1].mirror.Some? && r.clients[1].shown == [Shown(Sent(LIT), 1)]
  {
    OneLoco(LIT);
    assert Inv(UPTODATE);
    var s1 := After(UPTODATE, GetFunctions(1, 3));
    assert s1.clients[1].pending == Some(Functions(FuncValues([true]), [true]));
    RunCons(UPTODATE, GetFunctions(1, 3), [TakeFunctions(1, 0)]);
    RunOne(s1, TakeFunctions(1, 0));
    assert [Shown(Sent(LIT), 0)][0 := Shown(Sent(LIT), 1)] == [Shown(Sent(LIT), 1)];
  }

  /**
   * Opening the control view of a loco asks for its functions. The next reply has nothing to send, and the mirror shows
   * the headlight off.
   */
  lemma FunctionsSwitchedOff()
    ensures var load := [GetFunctions(1, 3)] + [TakeFunctions(1, 0)];
      && Faithful([LIT], SHOWN.mirror.value)
      && Exchanges(UPTODATE, load, 1, Ping, []) && Served(UPTODATE, load, 1, Ping, []).table == [LIT]
      && var s' := Taken(UPTODATE, load, 1, Ping, []);
        1 in s'.clients && s'.clients[1].mirror.Some? && !Faithful([LIT], s'.clients[1].mirror.value)
  {
    HeadlightLost();
    MirrorAfterRunIff(UPTODATE, [GetFunctions(1, 3)] + [TakeFunctions(1, 0)], 1, Ping, []);
    assert !RightlyShown(Shown(Sent(LIT), 1), [LIT][0]);
  }

  // ----- what the mirror means -----

  /**
   * For the speeds and directions of single commands a right mirror shows, in plain terms, the direction, the speed, or 1
   * for a loco that stands, and the functions; the list shows 0 for backward.
   */
  lemma ViewMeans(l: Loco)
    requires SpeedInRange(l, 0) && IsDir(l.dir) && |l.func| <= MAX_NFUNC
    ensures var speed, func := if l.speed == 0 then 1 else l.speed, l.func + seq(MAX_NFUNC - |l.func|, _ => false);
      && View(l) == Seen(l.addr, speed, l.dir, func)
      && LoadedView(l) == Seen(l.addr, speed, if l.dir == 1 then 1 else 0, func)
  {
    WireDeterminesSpeed(l);
    FunctionsRoundTrip(l.func);
  }

  /**
   * A whole function exchange: the client asks for the functions of the loco with this address, which is entry k, and
   * stores the reply with entry i. It switches off as many functions of entry i as loco k has, and changes nothing else;
   * with 32 functions the session ends.
   */
  lemma FunctionExchange(s: Sys, c: nat, addr: int32, others: seq<Event>, k: nat, i: nat)
    requires Inv(s) && k < |s.table| && s.table[k].addr == addr && i < |s.table| && Others(others, c)
    requires Possible(s, GetFunctions(c, addr)) && GoodRun(After(s, GetFunctions(c, addr)), others)
    ensures var s2, n := Run(After(s, GetFunctions(c, addr)), others), |s.table[k].func|;
      && Possible(s2, TakeFunctions(c, i))
      && var s' := After(s2, TakeFunctions(c, i));
        if n >= 32 then c !in s'.clients else
        && c in s'.clients && s'.clients[c].last == s.clients[c].last && s'.clients[c].pending.None?
        && s'.clients[c].mirror == Some(SwitchedOff(s.clients[c].mirror.value, i, n))
  {
    var s1 := After(s, GetFunctions(c, addr));
    assert Find(s.table, addr) == k by {
      FindUnique(s.table, addr, k);
    }
    OthersLeave(s1, others, c);
    var client := s1.clients[c];
    assert client == s.clients[c].(pending := Some(Functions(FuncValues(s.table[k].func), s.table[k].func)));
    if |s.table[k].func| < 32 {
      FunctionsAreOff(client.mirror.value[i].func, s.table[k].func);
    }
  }

  function SwitchedOff(m: seq<Seen>, i: nat, n: nat): (m': seq<Seen>)
    requires i < |m|
    ensures |m'| == |m| && forall k :: 0 <= k < |m| && k != i ==> m'[k] == m[k]
    ensures m'[i] == m[i].(func := m'[i].func) && |m'[i].func| == |m[i].func|
    ensures forall j :: 0 <= j < |m[i].func| ==> m'[i].func[j] == (j >= n && m[i].func[j])
  {
    m[i := m[i].(func := Without(m[i].func, n))]
  }

  predicate Knows(m: seq<Seen>, addr: int32) {
    exists i :: 0 <= i < |m| && m[i].addr == addr
  }

  /** A reply can be applied if and only if the client knows every address in it; otherwise its session ends. */
  lemma {:induction false} AppliesIff(m: seq<Seen>, infos: seq<Info>)
    ensures ApplyInfos(m, infos).Ok? <==> forall k :: 0 <= k < |infos| ==> Knows(m, infos[k].addr)
    decreases |infos|
  {
    if infos != [] {
      var i := FindSeen(m, infos[0].addr);
      assert infos == [infos[0]] + infos[1..];
      if i < |m| {
        var m' := m[i := SeenOf(infos[0])];
        AppliesIff(m', infos[1..]);
        forall k | 0 <= k < |infos[1..]|
          ensures Knows(m', infos[1..][k].addr) <==> Knows(m, infos[1..][k].addr)
        {
          SameKnown(m, m', infos[1..][k].addr);
        }
      }
    }
  }

  lemma SameKnown(m: seq<Seen>, m': seq<Seen>, addr: int32)
    requires |m| == |m'| && forall k :: 0 <= k < |m| ==> m'[k].addr == m[k].addr
    ensures Knows(m, addr) <==> Knows(m', addr)
  {
  }

  /** A client that goes is forgotten; when it comes back, nothing counts as sent to it. */
  lemma ComesBack(s: Sys, c: nat, others: seq<Event>, earlier: Option<seq<Seen>>)
    requires Inv(s) && GoodRun(After(s, Quit(c)), others) && Others(others, c)
    requires earlier.Some? ==> Loaded(s.table, earlier.value)
    ensures var r := Run(After(s, Quit(c)), others);
      && c !in After(s, Quit(c)).clients && Possible(r, Join(c, earlier))
      && var r' := After(r, Join(c, earlier));
        c in r'.clients && r'.clients[c].mirror == earlier && r'.clients[c].pending.None?
        && forall i :: 0 <= i < |r'.table| ==> r'.clients[c].last[i] == Last(0, -1, 0)
  {
    OthersLeave(After(s, Quit(c)), others, c);
  }
}
