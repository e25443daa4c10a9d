/** Services: the handling of a request, and the reply loop over a REP socket. */
module Services {
  import opened Wrappers
  import opened Utf8
  import opened Literals

  type Bytes = seq<Byte>

  datatype Failure = CancelledError | RuntimeError | TimeoutError | ExtraData | OtherException

  datatype Outcome = Returned(result: Option<Bytes>) | Raised(failure: Failure)

  type Callback = Bytes -> Outcome

  type Registry = map<Text, Callback>

  datatype Reply = Reply(status: Bytes, result: Bytes)

  const SUCCESS := Literal("SUCCESS")
  const NOSERVICE := Literal("NOSERVICE")
  const SERVICE_TIMEOUT := Literal("SERVICE_TIMEOUT")
  const INVALID_REQUEST := Literal("INVALID_REQUEST")
  const UNKNOWN_ERROR := Literal("UNKNOWN_ERROR")

  /** What befalls the call while the loop waits for it. */
  datatype Meanwhile = Completes | TimesOut | IsCancelled | PoolIsDown

  function Awaited(callback: Callback, request: Bytes, during: Meanwhile): Outcome {
    match during
    case Completes => callback(request)
    case TimesOut => Raised(TimeoutError)
    case IsCancelled => Raised(CancelledError)
    case PoolIsDown => Raised(RuntimeError)
  }

  /** The reply to a named request, or nothing where the failure is raised again to end the loop. */
  function Answer(services: Registry, running: bool, name: Text, request: Bytes, during: Meanwhile): Option<Reply> {
    if name !in services then Some(Reply(Encode(NOSERVICE), []))
    else
      match Awaited(services[name], request, during)
      case Returned(result) => Some(Reply(Encode(SUCCESS), result.UnwrapOr([])))
      case Raised(failure) =>
        if failure.CancelledError? || failure.RuntimeError? then
          if running then Some(Reply(Encode(UNKNOWN_ERROR), [])) else None
        else if failure.TimeoutError? then Some(Reply(Encode(SERVICE_TIMEOUT), []))
        else if failure.ExtraData? then Some(Reply(Encode(INVALID_REQUEST), []))
        else Some(Reply(Encode(UNKNOWN_ERROR), []))
  }

  /** The outcome of the call a named request leads to, if it leads to one. */
  function Called(services: Registry, name: Text, request: Bytes, during: Meanwhile): Option<Outcome> {
    if name in services then Some(Awaited(services[name], request, during)) else None
  }

  /** The call ends in a failure that ends the loop too once the manager is stopped. */
  predicate Interrupts(called: Option<Outcome>) {
    called == Some(Raised(CancelledError)) || called == Some(Raised(RuntimeError))
  }

  /** The decoded status tells what became of the call, and only a success carries a result. */
  predicate Tells(reply: Reply, called: Option<Outcome>) {
    var status := Decode(reply.status);
    && status.Some?
    && (status.value == NOSERVICE <==> called.None?)
    && (status.value == SUCCESS <==> called.Some? && called.value.Returned?)
    && (status.value == SERVICE_TIMEOUT <==> called == Some(Raised(TimeoutError)))
    && (status.value == INVALID_REQUEST <==> called == Some(Raised(ExtraData)))
    && (status.value == UNKNOWN_ERROR <==> Interrupts(called) || called == Some(Raised(OtherException)))
    && reply.result == match called
                       case Some(Returned(result)) => result.UnwrapOr([])
                       case _ => []
  }

  lemma StatusesDiffer()
    ensures SUCCESS != NOSERVICE && SUCCESS != SERVICE_TIMEOUT && SUCCESS != INVALID_REQUEST && SUCCESS != UNKNOWN_ERROR
    ensures NOSERVICE != SERVICE_TIMEOUT && NOSERVICE != INVALID_REQUEST && NOSERVICE != UNKNOWN_ERROR
    ensures SERVICE_TIMEOUT != INVALID_REQUEST && SERVICE_TIMEOUT != UNKNOWN_ERROR && INVALID_REQUEST != UNKNOWN_ERROR
  {
    assert |SUCCESS| == 7 && |NOSERVICE| == 9 && |UNKNOWN_ERROR| == 13;
    assert |SERVICE_TIMEOUT| == 15 && |INVALID_REQUEST| == 15;
    assert SERVICE_TIMEOUT[0] == 'S' as int && INVALID_REQUEST[0] == 'I' as int;
  }

  /** A reply is due unless a cancellation or `RuntimeError` meets a stopped manager, and it tells the outcome. */
  lemma AnswerExactly(services: Registry, running: bool, name: Text, request: Bytes, during: Meanwhile)
    ensures var called := Called(services, name, request, during);
      var reply := Answer(services, running, name, request, during);
      && (reply.None? <==> !running && Interrupts(called))
      && (reply.Some? ==> Tells(reply.value, called))
  {
    hide Literal, Encodable, Awaited, Encode, Decode;
    StatusesDiffer();
    DecodeInvertsEncode(SUCCESS);
    DecodeInvertsEncode(NOSERVICE);
    DecodeInvertsEncode(SERVICE_TIMEOUT);
    DecodeInvertsEncode(INVALID_REQUEST);
    DecodeInvertsEncode(UNKNOWN_ERROR);
  }

  datatype Incoming = Nothing | Interrupted | Frames(frames: seq<Bytes>)

  datatype Delivery = Sent | Refused | CutShort

  /**
   What one turn of the loop meets: services registered before it, the request that is waiting, how the
   call goes, how sending goes, and whether `stop` is called while the call runs or after the sending.
   */
  datatype Turn = Turn(
    registered: Registry, incoming: Incoming, during: Meanwhile, stopsMeanwhile: bool,
    delivery: Delivery, stopsAfter: bool)

  /** `alive` until the loop is left; `owes` while the socket has a request it has not replied to. */
  datatype Server = Server(
    services: Registry, running: bool, alive: bool, owes: bool, received: seq<seq<Bytes>>, replies: seq<Reply>)

  /** A request the loop can name: two frames, the first of them UTF-8. */
  predicate WellFormed(frames: seq<Bytes>) {
    |frames| == 2 && Decode(frames[0]).Some?
  }

  function AfterRequest(s: Server, frames: seq<Bytes>, t: Turn): Server {
    var running := !t.stopsMeanwhile;
    var taken := s.(running := running, owes := true, received := s.received + [frames]);
    var due := if !WellFormed(frames) then None
      else Answer(s.services, running, Decode(frames[0]).value, frames[1], t.during);
    if due.None? || t.delivery.Refused? then taken.(alive := running)
    else if t.delivery.CutShort? then taken.(alive := false)
    else taken.(owes := false, replies := s.replies + [due.value])
  }

  /** A REP socket that owes a reply shows no request, whatever waits behind it. */
  function AfterTurn(s: Server, t: Turn): Server {
    if !s.alive || !s.running then s.(alive := false)
    else
      var s1 := s.(services := s.services + t.registered);
      var s2 := if t.incoming.Interrupted? then s1.(alive := false)
        else if t.incoming.Nothing? || s1.owes then s1.(running := !t.stopsMeanwhile)
        else AfterRequest(s1, t.incoming.frames, t);
      s2.(running := s2.running && !t.stopsAfter)
  }

  function AfterTurns(s: Server, turns: seq<Turn>): Server {
    if turns == [] then s else AfterTurn(AfterTurns(s, turns[..|turns| - 1]), turns[|turns| - 1])
  }

  // ---------- the objects ----------

  class RepSocket {
    var owes: bool
    var received: seq<seq<Bytes>>
    var replies: seq<Reply>

    constructor ()
      ensures !owes && received == [] && replies == []
    {
      owes, received, replies := false, [], [];
    }

    method Poll(waiting: bool) returns (ready: bool)
      ensures ready == (waiting && !owes)
    {
      ready := waiting && !owes;
    }

    method Receive(frames: seq<Bytes>)
      requires !owes
      modifies this
      ensures owes && received == old(received) + [frames] && replies == old(replies)
    {
      owes, received := true, received + [frames];
    }

    method Send(reply: Reply)
      requires owes
      modifies this
      ensures !owes && received == old(received) && replies == old(replies) + [reply]
    {
      owes, replies := false, replies + [reply];
    }
  }

  class ServiceManager {
    const resSocket: RepSocket
    var callableServices: Registry
    var running: bool

    ghost function State(alive: bool): Server
      reads this, resSocket
    {
      Server(callableServices, running, alive, resSocket.owes, resSocket.received, resSocket.replies)
    }

    constructor ()
      ensures State(true) == Server(map[], true, true, false, [], []) && fresh(resSocket)
    {
      resSocket := new RepSocket();
      callableServices, running := map[], true;
    }

    method RegisterService(serviceName: Text, callback: Callback)
      modifies this`callableServices
      ensures callableServices == old(callableServices)[serviceName := callback]
    {
      callableServices := callableServices[serviceName := callback];
    }

    method HandleRequest(serviceName: Text, request: Bytes, during: Meanwhile) returns (reply: Option<Reply>)
      ensures reply == Answer(callableServices, running, serviceName, request, during)
      ensures var called := Called(callableServices, serviceName, request, during);
        && (reply.None? <==> !running && Interrupts(called))
        && (reply.Some? ==> Tells(reply.value, called))
    {
      hide Literal, Encodable, Encode, Decode, Awaited, Called, Tells, Interrupts;
      AnswerExactly(callableServices, running, serviceName, request, during);
      if serviceName !in callableServices {
        return Some(Reply(Encode(NOSERVICE), []));
      }
      var outcome := Awaited(callableServices[serviceName], request, during);
      match outcome
      case Returned(result) => return Some(Reply(Encode(SUCCESS), result.UnwrapOr([])));
      case Raised(CancelledError) => reply := RaiseUnlessRunning();
      case Raised(RuntimeError) => reply := RaiseUnlessRunning();
      case Raised(TimeoutError) => return Some(Reply(Encode(SERVICE_TIMEOUT), []));
      case Raised(ExtraData) => return Some(Reply(Encode(INVALID_REQUEST), []));
      case Raised(OtherException) => return Some(Reply(Encode(UNKNOWN_ERROR), []));
    }

    method RaiseUnlessRunning() returns (reply: Option<Reply>)
      ensures reply == if running then Some(Reply(Encode(UNKNOWN_ERROR), [])) else None
    {
      if !running {
        return None;
      }
      return Some(Reply(Encode(UNKNOWN_ERROR), []));
    }

    /** The loop over whatever its turns bring; `alive` says whether it would go on. */
    method ServiceLoop(turns: seq<Turn>) returns (alive: bool)
      modifies this, resSocket
      ensures State(alive) == AfterTurns(old(State(true)), turns)
    {
      hide Answer, AfterRequest;
      alive := true;
      ghost var before := State(true);
      for i := 0 to |turns|
        invariant State(alive) == AfterTurns(before, turns[..i])
      {
        assert turns[..i + 1][..i] == turns[..i];
        if alive && running {
          alive := TakeTurn(turns[i]);
        } else {
          alive := false;
        }
      }
      assert turns[..|turns|] == turns;
    }

    method TakeTurn(t: Turn) returns (alive: bool)
      requires running
      modifies this, resSocket
      ensures State(alive) == AfterTurn(old(State(true)), t)
    {
      hide Answer, AfterRequest;
      callableServices := callableServices + t.registered;
      if t.incoming.Interrupted? {
        alive := false;
      } else {
        var ready := resSocket.Poll(t.incoming.Frames?);
        if ready {
          alive := ServeRequest(t.incoming.frames, t);
        } else {
          alive := true;
          running := !t.stopsMeanwhile;
        }
      }
      running := running && !t.stopsAfter;
    }

    method ServeRequest(frames: seq<Bytes>, t: Turn) returns (alive: bool)
      requires running && !resSocket.owes
      modifies this`running, resSocket
      ensures State(alive) == AfterRequest(old(State(true)), frames, t)
    {
      hide Answer;
      resSocket.Receive(frames);
      running := !t.stopsMeanwhile;
      if |frames| != 2 || Decode(frames[0]).None? {
        return running;
      }
      var reply := HandleRequest(Decode(frames[0]).value, frames[1], t.during);
      if reply.None? || t.delivery.Refused? {
        return running;
      }
      if t.delivery.CutShort? {
        return false;
      }
      resSocket.Send(reply.value);
      return true;
    }
  }

  // ---------- requests and replies alternate ----------

  /** The loop takes a request in this turn. */
  predicate Takes(s: Server, t: Turn) {
    s.alive && s.running && !s.owes && t.incoming.Frames?
  }

  predicate Alternates(s: Server) {
    |s.received| == |s.replies| + if s.owes then 1 else 0
  }

  lemma RequestAlternates(s: Server, t: Turn)
    requires s.alive && s.running && !s.owes && Alternates(s) && t.incoming.Frames?
    ensures Alternates(AfterRequest(s.(services := s.services + t.registered), t.incoming.frames, t))
  {
    hide Answer, WellFormed;
  }

  lemma TurnAlternates(s: Server, t: Turn)
    requires Alternates(s)
    ensures Alternates(AfterTurn(s, t))
  {
    hide AfterRequest;
    if Takes(s, t) {
      RequestAlternates(s, t);
    }
  }

  /** However the handlers and the sending go, at most the last request is without its reply. */
  lemma {:induction false} Alternation(s: Server, turns: seq<Turn>)
    requires Alternates(s)
    ensures Alternates(AfterTurns(s, turns))
  {
    hide AfterTurn;
    if turns != [] {
      Alternation(s, turns[..|turns| - 1]);
      TurnAlternates(AfterTurns(s, turns[..|turns| - 1]), turns[|turns| - 1]);
    }
  }

  /** The loop takes a request of these frames in this turn and replies with this answer to it. */
  predicate RepliesTo(s: Server, t: Turn, frames: seq<Bytes>, reply: Reply) {
    && Takes(s, t) && t.incoming.frames == frames && WellFormed(frames)
    && Some(reply) ==
         Answer(s.services + t.registered, !t.stopsMeanwhile, Decode(frames[0]).value, frames[1], t.during)
  }

  /** How one turn extends the two logs. */
  lemma TurnExtends(s: Server, t: Turn)
    requires Alternates(s)
    ensures var s' := AfterTurn(s, t);
      && s.received <= s'.received && s.replies <= s'.replies && |s'.replies| <= |s.replies| + 1
      && (|s'.replies| > |s.replies| ==>
        && |s.received| == |s.replies| && |s'.received| == |s.received| + 1
        && RepliesTo(s, t, s'.received[|s.received|], s'.replies[|s.replies|]))
  {
    hide Answer;
  }

  /** The k-th reply answers the k-th request, by the services registered when it was taken. */
  lemma {:induction false} RepliesMatch(s: Server, turns: seq<Turn>, k: nat)
    requires s.received == [] && s.replies == [] && !s.owes && k < |AfterTurns(s, turns).replies|
    ensures k < |AfterTurns(s, turns).received|
    ensures var after := AfterTurns(s, turns);
      exists i :: (0 <= i < |turns| && |AfterTurns(s, turns[..i]).received| == k
        && RepliesTo(AfterTurns(s, turns[..i]), turns[i], after.received[k], after.replies[k]))
  {
    hide AfterTurn, RepliesTo;
    Alternation(s, turns);
    var n := |turns| - 1;
    var before := AfterTurns(s, turns[..n]);
    Alternation(s, turns[..n]);
    TurnExtends(before, turns[n]);
    if k < |before.replies| {
      RepliesMatch(s, turns[..n], k);
      var i :| 0 <= i < n && |AfterTurns(s, turns[..n][..i]).received| == k
        && RepliesTo(AfterTurns(s, turns[..n][..i]), turns[..n][i], before.received[k], before.replies[k]);
      assert turns[..n][..i] == turns[..i] && turns[..n][i] == turns[i];
    } else {
      assert |before.received| == k;
    }
  }

  /** A request that can be named and whose reply goes out. */
  predicate Answerable(t: Turn) {
    t.incoming.Frames? && WellFormed(t.incoming.frames) && t.delivery.Sent?
  }

  /** Every request the loop took in these turns could be answered. */
  predicate AllAnswerable(s: Server, turns: seq<Turn>) {
    forall i :: 0 <= i < |turns| && Takes(AfterTurns(s, turns[..i]), turns[i]) ==> Answerable(turns[i])
  }

  lemma RunningTurn(s: Server, t: Turn)
    requires AfterTurn(s, t).alive && AfterTurn(s, t).running
    ensures s.alive && s.running
    ensures AfterTurn(s, t).owes <==> s.owes || (Takes(s, t) && !Answerable(t))
  {
  }

  /**
   While the manager runs, at the head of the loop every received request has its reply if and only if
   every request so far came in two frames, the first of them UTF-8, and its reply was sent. What the
   handlers did does not matter.
   */
  lemma {:induction false} AnsweredExactly(s: Server, turns: seq<Turn>)
    requires Alternates(s) && !s.owes && AfterTurns(s, turns).alive && AfterTurns(s, turns).running
    ensures |AfterTurns(s, turns).received| == |AfterTurns(s, turns).replies| <==> AllAnswerable(s, turns)
  {
    hide AfterTurn, Answerable;
    Alternation(s, turns);
    if turns != [] {
      var n := |turns| - 1;
      Alternation(s, turns[..n]);
      RunningTurn(AfterTurns(s, turns[..n]), turns[n]);
      AnsweredExactly(s, turns[..n]);
      AllAnswerableSnoc(s, turns);
    }
  }

  lemma AllAnswerableSnoc(s: Server, turns: seq<Turn>)
    requires turns != []
    ensures var n := |turns| - 1; AllAnswerable(s, turns) <==>
      AllAnswerable(s, turns[..n]) && (Takes(AfterTurns(s, turns[..n]), turns[n]) ==> Answerable(turns[n]))
  {
    hide AfterTurn, AfterTurns, Takes, Answerable;
    var n := |turns| - 1;
    assert forall i :: 0 <= i < n ==> turns[..n][..i] == turns[..i] && turns[..n][i] == turns[i];
  }

  /** A socket that owes a reply at the head of the loop receives and sends nothing more. */
  lemma {:induction false} OwingIsForever(s: Server, turns: seq<Turn>)
    requires s.owes
    ensures var s' := AfterTurns(s, turns); s'.owes && s'.received == s.received && s'.replies == s.replies
  {
    hide AfterRequest;
    if turns != [] {
      OwingIsForever(s, turns[..|turns| - 1]);
    }
  }

  /** One request that cannot be answered is the last the loop takes. */
  lemma {:induction false} UnanswerableIsLast(s: Server, t: Turn, turns: seq<Turn>)
    requires Takes(s, t) && !Answerable(t)
    ensures var s' := AfterTurns(AfterTurn(s, t), turns);
      s'.received == s.received + [t.incoming.frames] && s'.replies == s.replies
  {
    OwingIsForever(AfterTurn(s, t), turns);
  }

  /** A message of one frame, or of three or more, or whose name is not UTF-8, is the last to be taken. */
  lemma UnreadableIsLast(s: Server, t: Turn, frames: seq<Bytes>, turns: seq<Turn>)
    requires s.alive && s.running && !s.owes && t.incoming == Frames(frames)
    requires |frames| != 2 || Decode(frames[0]).None?
    ensures var s' := AfterTurns(AfterTurn(s, t), turns);
      s'.received == s.received + [frames] && s'.replies == s.replies
  {
    UnanswerableIsLast(s, t, turns);
  }

  /** So one message of a single frame to a new service is the last it takes. */
  lemma OneFrameIsLast(s: Server, t: Turn, body: Bytes, turns: seq<Turn>)
    requires s.alive && s.running && s.received == [] && s.replies == [] && !s.owes && t.incoming == Frames([body])
    ensures AfterTurns(AfterTurn(s, t), turns).received == [[body]] && AfterTurns(AfterTurn(s, t), turns).replies == []
  {
    UnanswerableIsLast(s, t, turns);
  }
}
