// A client session after the greeting: one command at a time, each answered before the next one is sent.
module Session {
  import opened Util

  datatype Kind =
    | PING | ACC | BREAK | DIR | STOP | ACC_MULTI | BREAK_MULTI | DIR_MULTI | STOP_MULTI | SETFUNC
    | GETLOCOS | GETFUNCTIONS | POWER | POM | POMBIT | GETIMAGE | BTSCAN | BTPUSH | HELO_ERR | OTHER

  datatype ReplyKind =
    | STATUS_REPLY | GETLOCOS_REPLY | GETFUNCTIONS_REPLY | POWER_REPLY | POM_REPLY | POMBIT_REPLY | GETIMAGE_REPLY
    | BTSCAN_REPLY | BTPUSH_REPLY

  /** The type of the answer of a server built with Bluetooth; an update request and an unknown command get none. */
  function Answer(k: Kind): Option<ReplyKind> {
    match k
    case GETLOCOS => Some(GETLOCOS_REPLY)
    case GETFUNCTIONS => Some(GETFUNCTIONS_REPLY)
    case POWER => Some(POWER_REPLY)
    case POM => Some(POM_REPLY)
    case POMBIT => Some(POMBIT_REPLY)
    case GETIMAGE => Some(GETIMAGE_REPLY)
    case BTSCAN => Some(BTSCAN_REPLY)
    case BTPUSH => Some(BTPUSH_REPLY)
    case HELO_ERR => None
    case OTHER => None
    case _ => Some(STATUS_REPLY)
  }

  /**
   * A message on its way. `origin` says which query it belongs to, or -1 for the ping the client sends on its own; it
   * is not on the wire, and no step looks at it.
   */
  datatype Request = Request(kind: Kind, origin: int)
  datatype Reply = Reply(kind: ReplyKind, payload: int, origin: int)

  /** What the client thread waits for: nothing, or an answer with or without a callback. */
  datatype Waiting = Idle | NoCallback | Callback

  /** asked: all queries so far; queue: those not sent yet; answers: what the server sent; called: what callbacks got. */
  datatype State = State(asked: seq<Kind>, queue: seq<Request>, waiting: Waiting,
                         toServer: seq<Request>, toClient: seq<Reply>,
                         answers: seq<Reply>, called: seq<Reply>, ended: bool)

  const INIT := State([], [], Idle, [], [], [], [], false)

  /**
   * Query: the user interface queues a command. Send: the client thread sends the next command, or a ping if there is
   * none. Handle: the server takes one message and answers. Throw: the server ends the session while it handles one.
   * Receive: the client thread takes the answer. Break: the connection fails.
   */
  datatype Action = Query(kind: Kind) | Send | Handle(payload: int) | Throw | Receive | Break

  predicate Enabled(s: State, a: Action) {
    match a
    case Query(_) => true
    case Send => !s.ended && s.waiting == Idle
    case Handle(_) => !s.ended && s.toServer != []
    case Throw => !s.ended && s.toServer != []
    case Receive => !s.ended && s.waiting != Idle && s.toClient != []
    case Break => true
  }

  function Next(s: State, a: Action): State
    requires Enabled(s, a)
  {
    match a
    case Query(k) => s.(asked := s.asked + [k], queue := s.queue + [Request(k, |s.asked|)])
    case Send =>
      if s.queue == [] then s.(toServer := s.toServer + [Request(PING, -1)], waiting := NoCallback)
      else s.(toServer := s.toServer + [s.queue[0]], queue := s.queue[1..], waiting := Callback)
    case Handle(p) =>
      var r := s.toServer[0];
      (match Answer(r.kind)
       case None => s.(toServer := s.toServer[1..])
       case Some(k) =>
         var reply := Reply(k, p, r.origin);
         s.(toServer := s.toServer[1..], toClient := s.toClient + [reply], answers := s.answers + [reply]))
    case Throw => s.(ended := true)
    case Receive =>
      var reply := s.toClient[0];
      s.(toClient := s.toClient[1..], waiting := Idle,
         called := if s.waiting == Callback then s.called + [reply] else s.called)
    case Break => s.(ended := true)
  }

  /** The number of commands taken out of the queue. */
  function Taken(s: State): int {
    |s.asked| - |s.queue|
  }

  /** The number of the query the client waits for, or -1. */
  function Current(s: State): int {
    if s.waiting == Callback then Taken(s) - 1 else -1
  }

  /** The kind of the command the client waits for. */
  function Expected(s: State): Kind
    requires s.waiting == Callback ==> 0 <= Taken(s) - 1 < |s.asked|
  {
    if s.waiting == Callback then s.asked[Taken(s) - 1] else PING
  }

  ghost predicate QueueOk(s: State) {
    && |s.queue| <= |s.asked|
    && (forall i :: 0 <= i < |s.queue| ==> s.queue[i] == Request(s.asked[Taken(s) + i], Taken(s) + i))
  }

  ghost predicate CallsOk(s: State) {
    && |s.called| == Taken(s) - (if s.waiting == Callback then 1 else 0)
    && |s.called| <= |s.asked|
    && (forall k :: 0 <= k < |s.called| ==>
          s.called[k].origin == k && Answer(s.asked[k]) == Some(s.called[k].kind) && s.called[k] in s.answers)
  }

  ghost predicate WireOk(s: State)
    requires s.waiting == Callback ==> 0 <= Taken(s) - 1 < |s.asked|
  {
    && |s.toServer| + |s.toClient| <= 1
    && (s.waiting == Idle ==> s.toServer == [] && s.toClient == [])
    && (s.toServer != [] ==> s.toServer[0] == Request(Expected(s), Current(s)))
    && (s.toClient != [] ==>
          var r := s.toClient[0];
          r.origin == Current(s) && r in s.answers && Answer(Expected(s)) == Some(r.kind))
    && (s.waiting != Idle && s.toServer == [] && s.toClient == [] ==> Answer(Expected(s)) == None)
  }

  ghost predicate Inv(s: State) {
    QueueOk(s) && CallsOk(s) && WireOk(s)
  }

  lemma QueryKeepsInv(s: State, k: Kind)
    requires Inv(s)
    ensures Inv(Next(s, Query(k)))
  {
  }

  lemma SendKeepsInv(s: State)
    requires Inv(s) && Enabled(s, Send)
    ensures Inv(Next(s, Send))
  {
    var s' := Next(s, Send);
    if s.queue != [] {
      assert s.queue[0] == Request(s.asked[Taken(s)], Taken(s));
      assert forall i :: 0 <= i < |s'.queue| ==> s'.queue[i] == s.queue[i + 1];
    }
  }

  lemma HandleKeepsInv(s: State, p: int)
    requires Inv(s) && Enabled(s, Handle(p))
    ensures Inv(Next(s, Handle(p)))
  {
    assert s.toServer[0] == Request(Expected(s), Current(s));
    assert s.toClient == [];
  }

  lemma ReceiveKeepsInv(s: State)
    requires Inv(s) && Enabled(s, Receive)
    ensures Inv(Next(s, Receive))
  {
    assert s.toServer == [] && s.toClient[1..] == [];
  }

  lemma NextKeepsInv(s: State, a: Action)
    requires Inv(s) && Enabled(s, a)
    ensures Inv(Next(s, a))
  {
    match a
    case Query(k) => QueryKeepsInv(s, k);
    case Send => SendKeepsInv(s);
    case Handle(p) => HandleKeepsInv(s, p);
    case Receive => ReceiveKeepsInv(s);
    case Throw =>
    case Break =>
  }

  ghost predicate GoodRun(s: State, acts: seq<Action>)
    decreases |acts|
  {
    acts == [] || (Enabled(s, acts[0]) && GoodRun(Next(s, acts[0]), acts[1..]))
  }

  ghost function Run(s: State, acts: seq<Action>): State
    requires GoodRun(s, acts)
    decreases |acts|
  {
    if acts == [] then s else Run(Next(s, acts[0]), acts[1..])
  }

  lemma {:induction false} RunKeepsInv(s: State, acts: seq<Action>)
    requires Inv(s) && GoodRun(s, acts)
    ensures Inv(Run(s, acts))
    decreases |acts|
  {
    if acts != [] {
      NextKeepsInv(s, acts[0]);
      RunKeepsInv(Next(s, acts[0]), acts[1..]);
    }
  }

  /**
   * Over every session: at most one message is under way, queries leave in the order they were made, and the k-th
   * callback gets the server's answer to the k-th query, of the type that belongs to that query.
   */
  lemma Lockstep(acts: seq<Action>)
    requires GoodRun(INIT, acts)
    ensures var s := Run(INIT, acts);
      && |s.toServer| + |s.toClient| <= 1
      && |s.queue| <= |s.asked|
      && (forall i :: 0 <= i < |s.queue| ==> s.queue[i].kind == s.asked[|s.asked| - |s.queue| + i])
      && |s.called| <= |s.asked| - |s.queue| <= |s.called| + 1
      && (forall k :: 0 <= k < |s.called| ==>
        s.called[k].origin == k && Answer(s.asked[k]) == Some(s.called[k].kind) && s.called[k] in s.answers)
  {
    RunKeepsInv(INIT, acts);
  }

  // ----- when a session gets stuck -----

  /** Nothing can happen any more but new queries and the end of the connection. */
  ghost predicate Stuck(s: State) {
    forall a :: Enabled(s, a) ==> a.Query? || a.Break?
  }

  /**
   * Over every session that has not ended: it is stuck if and only if the server has taken the query the client waits
   * for and that query has no answer. In particular a ping never blocks, and a session with answered queries only is
   * never stuck.
   */
  lemma StuckIff(acts: seq<Action>)
    requires GoodRun(INIT, acts) && !Run(INIT, acts).ended
    ensures var s := Run(INIT, acts);
      && (s.waiting == Callback ==> |s.queue| < |s.asked|)
      && (Stuck(s) <==>
            s.waiting == Callback && s.toServer == [] && Answer(s.asked[|s.asked| - |s.queue| - 1]) == None)
  {
    RunKeepsInv(INIT, acts);
    var s := Run(INIT, acts);
    if Stuck(s) {
      assert !Enabled(s, Send) && !Enabled(s, Throw) && !Enabled(s, Receive);
    }
  }

  /** A query without an answer is the last one that leaves: no later query is sent and no later callback called. */
  lemma NothingBehindUnanswered(acts: seq<Action>, k: nat)
    requires GoodRun(INIT, acts) && k < |Run(INIT, acts).asked| && Answer(Run(INIT, acts).asked[k]) == None
    ensures var s := Run(INIT, acts);
      |s.called| <= k && |s.asked| - |s.queue| <= k + 1
  {
    RunKeepsInv(INIT, acts);
  }

  /** Every query without an answer does block a session. */
  lemma UnansweredQueryBlocks(k: Kind, p: int)
    requires Answer(k) == None
    ensures var acts := [Query(k), Send, Handle(p)];
      GoodRun(INIT, acts) && !Run(INIT, acts).ended && Stuck(Run(INIT, acts))
  {
    var s1 := Next(INIT, Query(k));
    var s2 := Next(s1, Send);
    assert s1.queue == [Request(k, 0)] && s2.toServer == [Request(k, 0)];
    RunThree(INIT, Query(k), Send, Handle(p), []);
    assert [Query(k), Send, Handle(p)] + [] == [Query(k), Send, Handle(p)];
  }

  lemma RunThree(s: State, a: Action, b: Action, c: Action, acts: seq<Action>)
    requires Enabled(s, a) && Enabled(Next(s, a), b) && Enabled(Next(Next(s, a), b), c)
    ensures var s' := Next(Next(Next(s, a), b), c);
      && (GoodRun(s, [a, b, c] + acts) <==> GoodRun(s', acts))
      && (GoodRun(s', acts) ==> Run(s, [a, b, c] + acts) == Run(s', acts))
  {
    RunCons(s, a, [b, c] + acts);
    RunCons(Next(s, a), b, [c] + acts);
    RunCons(Next(Next(s, a), b), c, acts);
    assert [a] + ([b, c] + acts) == [a, b, c] + acts && [b] + ([c] + acts) == [b, c] + acts;
  }

  lemma RunCons(s: State, a: Action, acts: seq<Action>)
    requires Enabled(s, a)
    ensures GoodRun(s, [a] + acts) <==> GoodRun(Next(s, a), acts)
    ensures GoodRun(Next(s, a), acts) ==> Run(s, [a] + acts) == Run(Next(s, a), acts)
  {
    assert ([a] + acts)[1..] == acts;
  }

  /** One exchange after the other, with the given payloads. */
  function Exchanges(payloads: seq<int>): seq<Action> {
    if payloads == [] then [] else [Send, Handle(payloads[0]), Receive] + Exchanges(payloads[1..])
  }

  lemma Exchange(s: State, p: int)
    requires Inv(s) && !s.ended && s.waiting == Idle && s.queue != [] && Answer(s.queue[0].kind).Some?
    ensures Enabled(s, Send) && Enabled(Next(s, Send), Handle(p)) && Enabled(Next(Next(s, Send), Handle(p)), Receive)
    ensures var s' := Next(Next(Next(s, Send), Handle(p)), Receive);
      && Inv(s') && !s'.ended && s'.waiting == Idle && s'.asked == s.asked && s'.queue == s.queue[1..]
      && s'.called == s.called + [Reply(Answer(s.queue[0].kind).value, p, s.queue[0].origin)]
  {
    NextKeepsInv(s, Send);
    var s1 := Next(s, Send);
    assert s1.toServer == [s.queue[0]];
    NextKeepsInv(s1, Handle(p));
    NextKeepsInv(Next(s1, Handle(p)), Receive);
  }

  /** Queries that all have an answer are served: one exchange each empties the queue and calls every callback. */
  lemma {:induction false} AnsweredQueriesAreServed(s: State, payloads: seq<int>)
    requires Inv(s) && !s.ended && s.waiting == Idle && |payloads| == |s.queue|
    requires forall i :: 0 <= i < |s.queue| ==> Answer(s.queue[i].kind).Some?
    ensures GoodRun(s, Exchanges(payloads))
    ensures var s' := Run(s, Exchanges(payloads));
      && s'.asked == s.asked && s'.queue == [] && s'.waiting == Idle && |s'.called| == |s.asked|
      && forall i :: 0 <= i < |payloads| ==> s'.called[|s.called| + i].payload == payloads[i]
    decreases |payloads|
  {
    if payloads != [] {
      Exchange(s, payloads[0]);
      var s1 := Next(Next(Next(s, Send), Handle(payloads[0])), Receive);
      AnsweredQueriesAreServed(s1, payloads[1..]);
      RunThree(s, Send, Handle(payloads[0]), Receive, Exchanges(payloads[1..]));
      CalledGrows(s1, Exchanges(payloads[1..]));
    }
  }

  lemma {:induction false} CalledGrows(s: State, acts: seq<Action>)
    requires GoodRun(s, acts)
    ensures s.called <= Run(s, acts).called
    decreases |acts|
  {
    if acts != [] {
      CalledGrows(Next(s, acts[0]), acts[1..]);
    }
  }

  /** The client side of the queue. */
  class ControlClient {
    var asked: nat
    var queue: seq<Request>
    var waiting: Waiting

    ghost predicate Matches(s: State)
      reads this
    {
      asked == |s.asked| && queue == s.queue && waiting == s.waiting
    }

    constructor ()
      ensures Matches(INIT)
    {
      asked, queue, waiting := 0, [], Idle;
    }

    method AddQuery(kind: Kind, ghost s: State)
      requires Matches(s)
      modifies this
      ensures Matches(Next(s, Query(kind)))
    {
      queue := queue + [Request(kind, asked)];
      asked := asked + 1;
    }

    /** The head of the client loop: the front of the queue, or a ping. */
    method TakeNext(ghost s: State) returns (r: Request)
      requires Matches(s) && Enabled(s, Send)
      modifies this
      ensures Matches(Next(s, Send)) && Next(s, Send).toServer == s.toServer + [r]
    {
      if |queue| == 0 {
        r := Request(PING, -1);
        waiting := NoCallback;
      } else {
        r := queue[0];
        queue := queue[1..];
        waiting := Callback;
      }
    }

    /** The tail of the client loop: whether a callback has to be called with the reply. */
    method TakeReply(ghost s: State) returns (call: bool)
      requires Matches(s) && Enabled(s, Receive)
      modifies this
      ensures Matches(Next(s, Receive))
      ensures Next(s, Receive).called == if call then s.called + [s.toClient[0]] else s.called
    {
      call := waiting == Callback;
      waiting := Idle;
    }
  }

  // ----- the end of a session -----

  ghost predicate Ends(acts: seq<Action>) {
    exists k :: 0 <= k < |acts| && (acts[k].Throw? || acts[k].Break?)
  }

  /** A session has ended exactly if the server threw or the connection broke. */
  lemma {:induction false} EndedIff(s: State, acts: seq<Action>)
    requires GoodRun(s, acts)
    ensures Run(s, acts).ended <==> s.ended || Ends(acts)
    decreases |acts|
  {
    if acts != [] {
      EndedIff(Next(s, acts[0]), acts[1..]);
      assert acts == [acts[0]] + acts[1..];
      if Ends(acts[1..]) {
        var k :| 0 <= k < |acts[1..]| && (acts[1..][k].Throw? || acts[1..][k].Break?);
        assert acts[k + 1] == acts[1..][k];
      }
    }
  }

  /** After that nothing is sent, answered or handed to a callback. */
  lemma {:induction false} EndedIsFinal(s: State, acts: seq<Action>)
    requires GoodRun(s, acts) && s.ended
    ensures var s' := Run(s, acts);
      s'.called == s.called && s'.answers == s.answers && s'.toServer == s.toServer && s'.toClient == s.toClient
    decreases |acts|
  {
    if acts != [] {
      EndedIsFinal(Next(s, acts[0]), acts[1..]);
    }
  }

  // ----- names -----

  /** The name of a command in the protocol. */
  function Name(k: Kind): string {
    match k
    case PING => "PING"
    case ACC => "ACC"
    case BREAK => "BREAK"
    case DIR => "DIR"
    case STOP => "STOP"
    case ACC_MULTI => "ACC_MULTI"
    case BREAK_MULTI => "BREAK_MULTI"
    case DIR_MULTI => "DIR_MULTI"
    case STOP_MULTI => "STOP_MULTI"
    case SETFUNC => "SETFUNC"
    case GETLOCOS => "GETLOCOS"
    case GETFUNCTIONS => "GETFUNCTIONS"
    case POWER => "POWER"
    case POM => "POM"
    case POMBIT => "POMBIT"
    case GETIMAGE => "GETIMAGE"
    case BTSCAN => "BTSCAN"
    case BTPUSH => "BTPUSH"
    case HELO_ERR => "HELO_ERR"
    case OTHER => ""
  }

  function ReplyName(r: ReplyKind): string {
    match r
    case STATUS_REPLY => "STATUS_REPLY"
    case GETLOCOS_REPLY => "GETLOCOS_REPLY"
    case GETFUNCTIONS_REPLY => "GETFUNCTIONS_REPLY"
    case POWER_REPLY => "POWER_REPLY"
    case POM_REPLY => "POM_REPLY"
    case POMBIT_REPLY => "POMBIT_REPLY"
    case GETIMAGE_REPLY => "GETIMAGE_REPLY"
    case BTSCAN_REPLY => "BTSCAN_REPLY"
    case BTPUSH_REPLY => "BTPUSH_REPLY"
  }

  /** The commands that drive: they, and the ping, are answered with the status. */
  predicate Drives(k: Kind) {
    k in {PING, ACC, BREAK, DIR, STOP, ACC_MULTI, BREAK_MULTI, DIR_MULTI, STOP_MULTI, SETFUNC}
  }

  /**
   * Over every session, the k-th callback gets a status if the k-th query drives, and otherwise the reply that is named
   * after it, which is what the callbacks for the lists of locos and functions insist on.
   */
  lemma CallbacksGetTheirReply(acts: seq<Action>, k: nat)
    requires GoodRun(INIT, acts) && k < |Run(INIT, acts).called|
    ensures var s := Run(INIT, acts);
      && k < |s.asked|
      && ReplyName(s.called[k].kind) == if Drives(s.asked[k]) then "STATUS_REPLY" else Name(s.asked[k]) + "_REPLY"
  {
    Lockstep(acts);
    var s := Run(INIT, acts);
    NamedAfter(s.asked[k], s.called[k].kind);
  }

  lemma NamedAfter(k: Kind, r: ReplyKind)
    requires Answer(k) == Some(r)
    ensures ReplyName(r) == if Drives(k) then "STATUS_REPLY" else Name(k) + "_REPLY"
  {
  }
}
