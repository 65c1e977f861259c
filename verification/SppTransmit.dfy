// The Bluetooth serial transmit task: packets of any length are packed into one buffer of 330 bytes.
module SppTransmit {
  import opened Bytes
  import opened Util

  const SPP_TX_MAX := 330

  /** How one attempt to send the buffer ends. Only AckTimeout and Done hand the bytes to the stack. */
  datatype Outcome = Congested | ClientGone | WriteFailed | AckTimeout | Done

  /** What the world answers to the n-th attempt. */
  type Env = nat -> Outcome

  /** The transmit state: buffered bytes, writes handed to the stack, and the number of attempts so far. */
  datatype Tx = Tx(buf: seq<byte>, writes: seq<seq<byte>>, calls: nat)

  const IDLE := Tx([], [], 0)

  /** A packet taken from the queue, and whether the queue was seen empty when the task looked again. */
  datatype Event = Event(packet: seq<byte>, queueEmpty: bool)

  function Concat(ss: seq<seq<byte>>): seq<byte> {
    if ss == [] then [] else Concat(ss[..|ss| - 1]) + ss[|ss| - 1]
  }

  /** _spp_send_buffer */
  function Send(env: Env, t: Tx): (t': Tx)
    ensures |t'.buf| <= |t.buf|
  {
    match env(t.calls)
    case Congested => t.(calls := t.calls + 1)
    case ClientGone => t.(calls := t.calls + 1)
    case WriteFailed => t.(calls := t.calls + 1)
    case AckTimeout => Tx([], t.writes + [t.buf], t.calls + 1)
    case Done => Tx([], t.writes + [t.buf], t.calls + 1)
  }

  /** The handling of one packet in _spp_tx_task. */
  function Packet(env: Env, t: Tx, e: Event): (t': Tx)
    requires |t.buf| <= SPP_TX_MAX
    ensures |t'.buf| <= SPP_TX_MAX
  {
    var room := SPP_TX_MAX - |t.buf|;
    if |e.packet| <= room then
      var t1 := t.(buf := t.buf + e.packet);
      if |t1.buf| == SPP_TX_MAX || e.queueEmpty then Send(env, t1) else t1
    else
      var t1 := t.(buf := t.buf + e.packet[..room]);
      if env(t1.calls) != Done then Send(env, t1) else Chunks(env, Send(env, t1), e.packet[room..], e.queueEmpty)
  }

  /** The rest of a long packet: full buffers first, then what is left over. */
  function Chunks(env: Env, t: Tx, data: seq<byte>, queueEmpty: bool): (t': Tx)
    requires |t.buf| <= SPP_TX_MAX
    ensures |t'.buf| <= SPP_TX_MAX
    decreases |data|
  {
    if |data| >= SPP_TX_MAX then
      var t1 := t.(buf := data[..SPP_TX_MAX]);
      if env(t1.calls) != Done then Send(env, t1) else Chunks(env, Send(env, t1), data[SPP_TX_MAX..], queueEmpty)
    else if data != [] then
      var t1 := t.(buf := data);
      if queueEmpty then Send(env, t1) else t1
    else t
  }

  // ----- the task on its static buffer -----

  class SppTask {
    const env: Env
    const buffer: array<byte>
    var len: nat
    var calls: nat
    var writes: seq<seq<byte>>

    ghost predicate Valid()
      reads this
    {
      buffer.Length == SPP_TX_MAX && len <= SPP_TX_MAX
    }

    ghost function State(): Tx
      requires Valid()
      reads this, buffer
    {
      Tx(buffer[..len], writes, calls)
    }

    constructor (env: Env)
      ensures Valid() && State() == IDLE && this.env == env && fresh(buffer)
    {
      this.env := env;
      buffer := new byte[SPP_TX_MAX];
      len, calls, writes := 0, 0, [];
    }

    method SendBuffer() returns (ok: bool)
      requires Valid()
      modifies this
      ensures Valid() && State() == Send(env, old(State()))
      ensures ok <==> env(old(calls)) == Done
    {
      var outcome := env(calls);
      calls := calls + 1;
      if outcome == Congested || outcome == ClientGone || outcome == WriteFailed {
        return false;
      }
      writes := writes + [buffer[..len]];
      len := 0;
      ok := outcome == Done;
    }

    /** memcpy into the buffer behind the bytes already there, and the new length. */
    method Append(data: seq<byte>)
      requires Valid() && len + |data| <= SPP_TX_MAX
      modifies this`len, buffer
      ensures Valid() && State() == old(State()).(buf := old(State()).buf + data)
    {
      forall i | 0 <= i < |data| {
        buffer[len + i] := data[i];
      }
      len := len + |data|;
      assert buffer[..len] == old(buffer[..len]) + data;
    }

    /** One round of the task loop for a packet taken from the queue. */
    method HandlePacket(e: Event)
      requires Valid()
      modifies this, buffer
      ensures Valid() && State() == Packet(env, old(State()), e)
    {
      if |e.packet| <= SPP_TX_MAX - len {
        Append(e.packet);
        if len == SPP_TX_MAX || e.queueEmpty {
          var _ := SendBuffer();
        }
      } else {
        var data := e.packet;
        var toSend := SPP_TX_MAX - len;
        Append(data[..toSend]);
        data := data[toSend..];
        var ok := SendBuffer();
        if !ok {
          data := [];
        }
        while |data| >= SPP_TX_MAX
          invariant Valid() && (data != [] ==> len == 0)
          invariant Packet(env, old(State()), e) == Chunks(env, State(), data, e.queueEmpty)
        {
          assert State().buf == [];
          Append(data[..SPP_TX_MAX]);
          assert [] + data[..SPP_TX_MAX] == data[..SPP_TX_MAX];
          data := data[SPP_TX_MAX..];
          ok := SendBuffer();
          if !ok {
            data := [];
            break;
          }
        }
        if data != [] {
          Append(data);
          assert [] + data == data;
          if e.queueEmpty {
            var _ := SendBuffer();
          }
        }
      }
    }
  }

  // ----- every run -----

  /** Everything accepted so far, in order: handed to the stack, then still buffered. */
  function Out(t: Tx): seq<byte> {
    Concat(t.writes) + t.buf
  }

  ghost predicate Bounded(t: Tx) {
    |t.buf| <= SPP_TX_MAX && forall w :: w in t.writes ==> 1 <= |w| <= SPP_TX_MAX
  }

  /** No attempt between two attempt counts failed. */
  ghost predicate NoFailure(env: Env, from: nat, to: nat) {
    forall i :: from <= i < to ==> env(i) == Done
  }

  lemma SendKeeps(env: Env, t: Tx)
    requires Bounded(t) && t.buf != []
    ensures Bounded(Send(env, t)) && Out(Send(env, t)) == Out(t)
    ensures env(t.calls) == Done ==> Send(env, t).buf == []
  {
  }

  /** t' accepted exactly the prefix of data of length k after t, and lost the tail only through a failed attempt. */
  ghost predicate Took(env: Env, t: Tx, t': Tx, data: seq<byte>, k: nat) {
    && k <= |data|
    && Bounded(t')
    && t.calls <= t'.calls
    && Out(t') == Out(t) + data[..k]
    && (NoFailure(env, t.calls, t'.calls) ==> k == |data|)
  }

  /** Putting x behind the buffered bytes accepts x; sending afterwards accepts no more and no less. */
  lemma Fill(env: Env, t: Tx, x: seq<byte>)
    requires Bounded(t) && x != [] && |t.buf| + |x| <= SPP_TX_MAX
    ensures var t1 := t.(buf := t.buf + x);
      && Took(env, t, t1, x, |x|) && Took(env, t, Send(env, t1), x, |x|)
      && (env(t.calls) == Done ==> Send(env, t1).buf == [])
  {
    var t1 := t.(buf := t.buf + x);
    assert x[..|x|] == x;
    assert Concat(t.writes) + (t.buf + x) == Concat(t.writes) + t.buf + x;
    SendKeeps(env, t1);
  }

  lemma TookMore(env: Env, t: Tx, t1: Tx, t2: Tx, x: seq<byte>, data: seq<byte>, k: nat)
    requires Took(env, t, t1, x, |x|) && Took(env, t1, t2, data, k)
    ensures Took(env, t, t2, x + data, |x| + k)
  {
    assert x[..|x|] == x;
    assert (x + data)[..|x| + k] == x + data[..k];
    assert Out(t) + x + data[..k] == Out(t) + (x + data[..k]);
    if NoFailure(env, t.calls, t2.calls) {
      assert NoFailure(env, t1.calls, t2.calls);
    }
  }

  lemma TookBoth(env: Env, t: Tx, t1: Tx, t2: Tx, x: seq<byte>, data: seq<byte>, k: nat, queueEmpty: bool)
    requires Took(env, t, t1, x, |x|) && Took(env, t1, t2, data, k)
    requires NoFailure(env, t1.calls, t2.calls) && queueEmpty ==> t2.buf == []
    ensures Took(env, t, t2, x + data, |x| + k)
    ensures NoFailure(env, t.calls, t2.calls) && queueEmpty ==> t2.buf == []
  {
    TookMore(env, t, t1, t2, x, data, k);
    if NoFailure(env, t.calls, t2.calls) {
      assert NoFailure(env, t1.calls, t2.calls);
    }
  }

  lemma TookLess(env: Env, t: Tx, t1: Tx, x: seq<byte>, data: seq<byte>)
    requires Took(env, t, t1, x, |x|) && t.calls < t1.calls && env(t.calls) != Done
    ensures Took(env, t, t1, x + data, |x|)
  {
  }

  /** How many attempts in a row succeed, from the given one on, up to a limit. */
  function Successes(env: Env, from: nat, limit: nat): (s: nat)
    ensures s <= limit
    decreases limit
  {
    if limit == 0 || env(from) != Done then 0 else 1 + Successes(env, from + 1, limit - 1)
  }

  /**
   * The bytes of a packet that are accepted: all of them if they fit the free space, and otherwise the free space and one
   * buffer for each attempt that succeeds before the first one that fails.
   */
  function Accepted(env: Env, t: Tx, packet: seq<byte>): (k: nat)
    requires |t.buf| <= SPP_TX_MAX
    ensures k <= |packet|
  {
    var room := SPP_TX_MAX - |t.buf|;
    if |packet| <= room then |packet| else Min(|packet|, room + SPP_TX_MAX * Successes(env, t.calls, |packet| + 1))
  }

  // The same number, counted along the chunks.

  function ChunkCount(env: Env, calls: nat, n: nat): (k: nat)
    ensures k <= n
    decreases n
  {
    if n < SPP_TX_MAX then n else PartCount(env, calls, SPP_TX_MAX, n)
  }

  function PartCount(env: Env, calls: nat, part: nat, n: nat): (k: nat)
    requires part <= n
    ensures k <= n
    decreases n - part + 1
  {
    if env(calls) != Done then part else part + ChunkCount(env, calls + 1, n - part)
  }

  lemma {:induction false} ChunkCountIs(env: Env, calls: nat, n: nat, limit: nat)
    requires n <= limit
    ensures ChunkCount(env, calls, n) == Min(n, SPP_TX_MAX + SPP_TX_MAX * Successes(env, calls, limit))
    decreases n
  {
    if n >= SPP_TX_MAX && env(calls) == Done {
      ChunkCountIs(env, calls + 1, n - SPP_TX_MAX, limit - 1);
    }
  }

  lemma PartCountIs(env: Env, calls: nat, part: nat, n: nat)
    requires part <= n
    ensures PartCount(env, calls, part, n) == Min(n, part + SPP_TX_MAX * Successes(env, calls, n + 1))
  {
    if env(calls) == Done {
      ChunkCountIs(env, calls + 1, n - part, n);
    }
  }

  lemma {:induction false} ChunksTake(env: Env, t: Tx, data: seq<byte>, queueEmpty: bool)
    requires Bounded(t) && t.buf == []
    ensures Took(env, t, Chunks(env, t, data, queueEmpty), data, ChunkCount(env, t.calls, |data|))
    ensures NoFailure(env, t.calls, Chunks(env, t, data, queueEmpty).calls) && queueEmpty
      ==> Chunks(env, t, data, queueEmpty).buf == []
    decreases |data|, 0
  {
    if |data| >= SPP_TX_MAX {
      var x, rest := data[..SPP_TX_MAX], data[SPP_TX_MAX..];
      PartTake(env, t, x, rest, queueEmpty);
      assert [] + x == x && x + rest == data;
      assert Chunks(env, t, data, queueEmpty) == Part(env, t, x, rest, queueEmpty);
    } else if data != [] {
      assert [] + data == data;
      Fill(env, t, data);
    } else {
      assert Out(t) + data[..0] == Out(t);
    }
  }

  /** The buffer filled up with x and sent. */
  lemma FullBuffer(env: Env, t: Tx, x: seq<byte>)
    requires Bounded(t) && |t.buf| + |x| == SPP_TX_MAX
    ensures var t1 := Send(env, t.(buf := t.buf + x));
      Took(env, t, t1, x, |x|) && t1.calls == t.calls + 1 && (env(t.calls) == Done ==> t1.buf == [])
  {
    if x == [] {
      assert t.buf + x == t.buf;
      SendKeeps(env, t);
      assert Out(t) + x[..0] == Out(t);
    } else {
      Fill(env, t, x);
    }
  }

  /** A buffer filled up with x that could not be sent: the rest of the data is dropped. */
  lemma PartFails(env: Env, t: Tx, x: seq<byte>, rest: seq<byte>)
    requires Bounded(t) && |t.buf| + |x| == SPP_TX_MAX && env(t.calls) != Done
    ensures var t' := Send(env, t.(buf := t.buf + x));
      Took(env, t, t', x + rest, |x|) && !NoFailure(env, t.calls, t'.calls)
  {
    FullBuffer(env, t, x);
    TookLess(env, t, Send(env, t.(buf := t.buf + x)), x, rest);
  }

  /** A buffer filled up with x that was sent, and the chunks behind it. */
  lemma {:induction false} PartSucceeds(env: Env, t: Tx, x: seq<byte>, rest: seq<byte>, queueEmpty: bool)
    requires Bounded(t) && |t.buf| + |x| == SPP_TX_MAX && env(t.calls) == Done
    ensures var t' := Chunks(env, Send(env, t.(buf := t.buf + x)), rest, queueEmpty);
      && Took(env, t, t', x + rest, |x| + ChunkCount(env, t.calls + 1, |rest|))
      && (NoFailure(env, t.calls, t'.calls) && queueEmpty ==> t'.buf == [])
    decreases |rest|, 1
  {
    var t1 := Send(env, t.(buf := t.buf + x));
    FullBuffer(env, t, x);
    ChunksTake(env, t1, rest, queueEmpty);
    TookBoth(env, t, t1, Chunks(env, t1, rest, queueEmpty), x, rest, ChunkCount(env, t1.calls, |rest|), queueEmpty);
  }

  /** The buffer filled up with x and sent, and the chunks of the rest unless that failed. */
  function Part(env: Env, t: Tx, x: seq<byte>, rest: seq<byte>, queueEmpty: bool): Tx
    requires |t.buf| + |x| == SPP_TX_MAX
  {
    var t1 := Send(env, t.(buf := t.buf + x));
    if env(t.calls) == Done then Chunks(env, t1, rest, queueEmpty) else t1
  }

  lemma {:induction false} PartTake(env: Env, t: Tx, x: seq<byte>, rest: seq<byte>, queueEmpty: bool)
    requires Bounded(t) && |t.buf| + |x| == SPP_TX_MAX
    ensures var t' := Part(env, t, x, rest, queueEmpty);
      && Took(env, t, t', x + rest, PartCount(env, t.calls, |x|, |x| + |rest|))
      && (NoFailure(env, t.calls, t'.calls) && queueEmpty ==> t'.buf == [])
    decreases |rest|, 2
  {
    if env(t.calls) == Done {
      PartSucceeds(env, t, x, rest, queueEmpty);
    } else {
      PartFails(env, t, x, rest);
    }
  }

  /**
   * One packet: exactly the accepted prefix is taken. It is the whole packet whenever the packet fits the free space,
   * even if the attempt to send fails, and whenever no attempt fails.
   */
  lemma PacketTakes(env: Env, t: Tx, e: Event)
    requires Bounded(t) && e.packet != []
    ensures Took(env, t, Packet(env, t, e), e.packet, Accepted(env, t, e.packet))
    ensures NoFailure(env, t.calls, Packet(env, t, e).calls) && e.queueEmpty ==> Packet(env, t, e).buf == []
  {
    if |e.packet| <= SPP_TX_MAX - |t.buf| {
      ShortPacket(env, t, e);
    } else {
      LongPacketTakes(env, t, e);
    }
  }

  lemma LongPacketTakes(env: Env, t: Tx, e: Event)
    requires Bounded(t) && |e.packet| > SPP_TX_MAX - |t.buf|
    ensures Took(env, t, Packet(env, t, e), e.packet, Accepted(env, t, e.packet))
    ensures NoFailure(env, t.calls, Packet(env, t, e).calls) && e.queueEmpty ==> Packet(env, t, e).buf == []
  {
    var room := SPP_TX_MAX - |t.buf|;
    LongPacket(env, t, e);
    PartTake(env, t, e.packet[..room], e.packet[room..], e.queueEmpty);
    assert e.packet[..room] + e.packet[room..] == e.packet;
  }

  lemma ShortPacket(env: Env, t: Tx, e: Event)
    requires Bounded(t) && 0 < |e.packet| <= SPP_TX_MAX - |t.buf|
    ensures Took(env, t, Packet(env, t, e), e.packet, |e.packet|)
    ensures NoFailure(env, t.calls, Packet(env, t, e).calls) && e.queueEmpty ==> Packet(env, t, e).buf == []
  {
    Fill(env, t, e.packet);
  }

  lemma LongPacket(env: Env, t: Tx, e: Event)
    requires Bounded(t) && |e.packet| > SPP_TX_MAX - |t.buf|
    ensures var room := SPP_TX_MAX - |t.buf|;
      && Packet(env, t, e) == Part(env, t, e.packet[..room], e.packet[room..], e.queueEmpty)
      && Accepted(env, t, e.packet) == PartCount(env, t.calls, room, |e.packet|)
  {
    PartCountIs(env, t.calls, SPP_TX_MAX - |t.buf|, |e.packet|);
  }

  function Run(env: Env, events: seq<Event>): (t: Tx)
    ensures |t.buf| <= SPP_TX_MAX
  {
    if events == [] then IDLE else Packet(env, Run(env, events[..|events| - 1]), events[|events| - 1])
  }

  /** What is accepted of each packet, in order. */
  function Parts(env: Env, events: seq<Event>): seq<seq<byte>> {
    if events == [] then [] else
    var before, packet := events[..|events| - 1], events[|events| - 1].packet;
    Parts(env, before) + [packet[..Accepted(env, Run(env, before), packet)]]
  }

  /** One prefix per packet. */
  ghost predicate Prefixes(events: seq<Event>, ps: seq<seq<byte>>) {
    |ps| == |events| && forall i :: 0 <= i < |ps| ==> ps[i] <= events[i].packet
  }

  ghost predicate WholePackets(events: seq<Event>, ps: seq<seq<byte>>) {
    |ps| == |events| && forall i :: 0 <= i < |ps| ==> ps[i] == events[i].packet
  }

  /** The bytes of a run: one prefix per packet, and the whole packet if nothing failed. */
  ghost predicate Accounts(env: Env, events: seq<Event>, t: Tx, ps: seq<seq<byte>>) {
    && Bounded(t)
    && Prefixes(events, ps)
    && Out(t) == Concat(ps)
    && (NoFailure(env, 0, t.calls) ==> WholePackets(events, ps))
    && (NoFailure(env, 0, t.calls) && events != [] && events[|events| - 1].queueEmpty ==> t.buf == [])
  }

  /**
   * In every run, whatever fails: the bytes handed to the stack and those still buffered are the concatenation, in
   * order, of the accepted prefix of each packet; writes have between 1 and 330 bytes. Without failures every prefix is
   * the whole packet, and nothing stays buffered once the queue was seen empty.
   */
  lemma {:induction false} RunAccounts(env: Env, events: seq<Event>)
    requires forall i :: 0 <= i < |events| ==> events[i].packet != []
    ensures Accounts(env, events, Run(env, events), Parts(env, events))
    decreases |events|
  {
    if events == [] {
      assert Out(IDLE) == [];
    } else {
      var before, e := events[..|events| - 1], events[|events| - 1];
      RunAccounts(env, before);
      var t, ps := Run(env, before), Parts(env, before);
      assert events == before + [e];
      RunSnoc(env, before, e);
      AccountsStep(env, before, t, ps, e);
    }
  }

  lemma RunSnoc(env: Env, before: seq<Event>, e: Event)
    ensures var t := Run(env, before);
      && Run(env, before + [e]) == Packet(env, t, e)
      && Parts(env, before + [e]) == Parts(env, before) + [e.packet[..Accepted(env, t, e.packet)]]
  {
    assert (before + [e])[..|before|] == before;
  }

  lemma AccountsStep(env: Env, before: seq<Event>, t: Tx, ps: seq<seq<byte>>, e: Event)
    requires Accounts(env, before, t, ps) && e.packet != []
    ensures Accounts(env, before + [e], Packet(env, t, e), ps + [e.packet[..Accepted(env, t, e.packet)]])
  {
    PacketTakes(env, t, e);
    AccountsTook(env, before, t, ps, e, Packet(env, t, e), Accepted(env, t, e.packet));
  }

  lemma AccountsTook(env: Env, before: seq<Event>, t: Tx, ps: seq<seq<byte>>, e: Event, t': Tx, k: nat)
    requires Accounts(env, before, t, ps) && Took(env, t, t', e.packet, k)
    requires NoFailure(env, t.calls, t'.calls) && e.queueEmpty ==> t'.buf == []
    ensures Accounts(env, before + [e], t', ps + [e.packet[..k]])
  {
    var p := e.packet[..k];
    ConcatSnoc(ps, p);
    PrefixesSnoc(before, ps, e, p);
    if NoFailure(env, 0, t'.calls) {
      assert NoFailure(env, 0, t.calls) && NoFailure(env, t.calls, t'.calls);
      assert p == e.packet;
      WholeSnoc(before, ps, e);
    }
  }

  lemma PrefixesSnoc(events: seq<Event>, ps: seq<seq<byte>>, e: Event, p: seq<byte>)
    requires Prefixes(events, ps) && p <= e.packet
    ensures Prefixes(events + [e], ps + [p])
  {
  }

  lemma WholeSnoc(events: seq<Event>, ps: seq<seq<byte>>, e: Event)
    requires WholePackets(events, ps)
    ensures WholePackets(events + [e], ps + [e.packet])
  {
  }

  lemma ConcatSnoc(ps: seq<seq<byte>>, p: seq<byte>)
    ensures Concat(ps + [p]) == Concat(ps) + p
  {
  }

  // ----- coalescing -----

  ghost predicate AllFull(t: Tx) {
    forall w :: w in t.writes ==> |w| == 330
  }

  lemma {:induction false} ChunksFull(env: Env, t: Tx, data: seq<byte>)
    requires AllFull(t) && t.buf == [] && NoFailure(env, t.calls, Chunks(env, t, data, false).calls)
    ensures AllFull(Chunks(env, t, data, false)) && |Chunks(env, t, data, false).buf| < SPP_TX_MAX
    decreases |data|
  {
    if |data| >= SPP_TX_MAX {
      var t1 := t.(buf := data[..SPP_TX_MAX]);
      ChunksCalls(env, Send(env, t1), data[SPP_TX_MAX..]);
      if env(t1.calls) == Done {
        ChunksFull(env, Send(env, t1), data[SPP_TX_MAX..]);
      }
    }
  }

  lemma {:induction false} ChunksCalls(env: Env, t: Tx, data: seq<byte>)
    requires |t.buf| <= SPP_TX_MAX
    ensures t.calls <= Chunks(env, t, data, false).calls
    decreases |data|
  {
    if |data| >= SPP_TX_MAX {
      var t1 := t.(buf := data[..SPP_TX_MAX]);
      ChunksCalls(env, Send(env, t1), data[SPP_TX_MAX..]);
    }
  }

  lemma PacketFull(env: Env, t: Tx, e: Event)
    requires AllFull(t) && |t.buf| < SPP_TX_MAX && !e.queueEmpty && NoFailure(env, t.calls, Packet(env, t, e).calls)
    ensures AllFull(Packet(env, t, e)) && |Packet(env, t, e).buf| < SPP_TX_MAX
    ensures t.calls <= Packet(env, t, e).calls
  {
    var room := SPP_TX_MAX - |t.buf|;
    if |e.packet| > room {
      var t1 := t.(buf := t.buf + e.packet[..room]);
      ChunksCalls(env, Send(env, t1), e.packet[room..]);
      if env(t1.calls) == Done {
        ChunksFull(env, Send(env, t1), e.packet[room..]);
      }
    }
  }

  /** Without failures, as long as the queue is never seen empty, every write is a full buffer and no full buffer waits. */
  lemma {:induction false} WritesAreFull(env: Env, events: seq<Event>)
    requires forall i :: 0 <= i < |events| ==> !events[i].queueEmpty
    requires NoFailure(env, 0, Run(env, events).calls)
    ensures AllFull(Run(env, events)) && |Run(env, events).buf| < SPP_TX_MAX
    decreases |events|
  {
    if events != [] {
      var before, e := events[..|events| - 1], events[|events| - 1];
      var t, t' := Run(env, before), Run(env, events);
      assert t' == Packet(env, t, e);
      PacketCalls(env, t, e);
      WritesAreFull(env, before);
      PacketFull(env, t, e);
    }
  }

  lemma PacketCalls(env: Env, t: Tx, e: Event)
    requires |t.buf| <= SPP_TX_MAX && !e.queueEmpty
    ensures t.calls <= Packet(env, t, e).calls
  {
    var room := SPP_TX_MAX - |t.buf|;
    if |e.packet| > room {
      ChunksCalls(env, Send(env, t.(buf := t.buf + e.packet[..room])), e.packet[room..]);
    }
  }

  // ----- what an attempt does -----

  /** The number of attempts below n whose bytes the stack has taken. */
  function Handed(env: Env, n: nat): nat {
    if n == 0 then 0 else Handed(env, n - 1) + (if env(n - 1) == AckTimeout || env(n - 1) == Done then 1 else 0)
  }

  ghost predicate CountsWrites(env: Env, t: Tx, t': Tx) {
    t.calls <= t'.calls && |t'.writes| - |t.writes| == Handed(env, t'.calls) - Handed(env, t.calls)
  }

  lemma SendCounts(env: Env, t: Tx)
    ensures CountsWrites(env, t, Send(env, t)) && Send(env, t).calls == t.calls + 1
  {
  }

  lemma {:induction false} ChunksCount(env: Env, t: Tx, data: seq<byte>, queueEmpty: bool)
    requires |t.buf| <= SPP_TX_MAX
    ensures CountsWrites(env, t, Chunks(env, t, data, queueEmpty))
    decreases |data|
  {
    if |data| >= SPP_TX_MAX {
      var t1 := t.(buf := data[..SPP_TX_MAX]);
      SendCounts(env, t1);
      ChunksCount(env, Send(env, t1), data[SPP_TX_MAX..], queueEmpty);
    } else {
      SendCounts(env, t.(buf := data));
    }
  }

  lemma PacketCounts(env: Env, t: Tx, e: Event)
    requires |t.buf| <= SPP_TX_MAX
    ensures CountsWrites(env, t, Packet(env, t, e))
  {
    var room := SPP_TX_MAX - |t.buf|;
    if |e.packet| <= room {
      SendCounts(env, t.(buf := t.buf + e.packet));
    } else {
      var t1 := t.(buf := t.buf + e.packet[..room]);
      SendCounts(env, t1);
      ChunksCount(env, Send(env, t1), e.packet[room..], e.queueEmpty);
    }
  }

  /** In every run there is one write for each attempt that ended with or without the acknowledgement, and no other. */
  lemma {:induction false} OneWritePerHandedAttempt(env: Env, events: seq<Event>)
    ensures |Run(env, events).writes| == Handed(env, Run(env, events).calls)
    decreases |events|
  {
    if events != [] {
      OneWritePerHandedAttempt(env, events[..|events| - 1]);
      PacketCounts(env, Run(env, events[..|events| - 1]), events[|events| - 1]);
    }
  }

  /**
   * What one attempt leaves, in every state: after congestion, a lost client or a failed write the bytes stay buffered
   * for the next attempt and nothing is written; with or without the acknowledgement they are written and gone from the
   * buffer. No attempt is made as long as the buffer has room and the queue is not empty.
   */
  lemma AttemptOutcome(env: Env, t: Tx, e: Event)
    requires |t.buf| <= 330
    ensures |t.buf| + |e.packet| < 330 && !e.queueEmpty ==> Packet(env, t, e) == Tx(t.buf + e.packet, t.writes, t.calls)
    ensures |t.buf| + |e.packet| == 330 || (|t.buf| + |e.packet| < 330 && e.queueEmpty) ==>
      Packet(env, t, e) == match env(t.calls)
        case Congested => Tx(t.buf + e.packet, t.writes, t.calls + 1)
        case ClientGone => Tx(t.buf + e.packet, t.writes, t.calls + 1)
        case WriteFailed => Tx(t.buf + e.packet, t.writes, t.calls + 1)
        case AckTimeout => Tx([], t.writes + [t.buf + e.packet], t.calls + 1)
        case Done => Tx([], t.writes + [t.buf + e.packet], t.calls + 1)
    ensures |t.buf| + |e.packet| > 330 && env(t.calls) != Done ==>
      var first := t.buf + e.packet[..330 - |t.buf|];
      Packet(env, t, e) ==
        if env(t.calls) == AckTimeout then Tx([], t.writes + [first], t.calls + 1) else Tx(first, t.writes, t.calls + 1)
  {
  }
}
