/** A remote call from end to end: the client's request, the wrapped handler, the reply, the client's result. */
module RemoteCalls {
  import opened Wrappers
  import opened Utf8
  import opened Literals
  import opened Services

  datatype Unpacked<+V> = Whole(value: V) | Trailing | Broken

  /** A serialisation of the values that calls carry. */
  datatype Format<!V> = Format(pack: V -> Bytes, unpack: Bytes -> Unpacked<V>)

  ghost predicate Faithful<V(!new)>(f: Format<V>) {
    (forall v: V :: f.unpack(f.pack(v)) == Whole(v)) && f.unpack([]).Broken?
  }

  datatype Handled<+V> = Gives(value: V) | Fails(failure: Failure)

  /** What is registered for a handler: trailing bytes give an empty success, not a failure. */
  function Wrapped<V>(f: Format<V>, handler: V -> Handled<V>): Callback {
    (request: Bytes) =>
      match f.unpack(request)
      case Trailing => Returned(Some([]))
      case Broken => Raised(OtherException)
      case Whole(arg) =>
        match handler(arg)
        case Gives(result) => Returned(Some(f.pack(result)))
        case Fails(failure) => if failure.ExtraData? then Returned(Some([])) else Raised(failure)
  }

  /** What a caller hands in: bytes go out as they are, any other value is packed. */
  datatype Request<+V> = Raw(bytes: Bytes) | Packed(value: V)

  function Body<V>(f: Format<V>, request: Request<V>): Bytes {
    match request
    case Raw(bytes) => bytes
    case Packed(value) => f.pack(value)
  }

  /** The frames a client sends, or nothing where its service name has no encoding. */
  function RequestFrames(serviceName: Text, body: Bytes): Option<seq<Bytes>> {
    if Encodable(serviceName) then Some([Encode(serviceName), body]) else None
  }

  /** Requests of this program's own clients never leave the socket owing. */
  lemma ClientRequestsAreWellFormed(serviceName: Text, body: Bytes)
    requires RequestFrames(serviceName, body).Some?
    ensures WellFormed(RequestFrames(serviceName, body).value)
    ensures Decode(RequestFrames(serviceName, body).value[0]) == Some(serviceName)
  {
    DecodeInvertsEncode(serviceName);
  }

  /** Nothing comes back when no reply is due; the client then times out. */
  function ResponseFrames(reply: Option<Reply>): Option<seq<Bytes>> {
    if reply.None? then None else Some([reply.value.status, reply.value.result])
  }

  datatype CallResult<+V> = Value(value: V) | NoValue | Raises

  /** What `send_request` makes of a response; frames beyond the second are not looked at. */
  function CallResultOf<V>(f: Format<V>, response: Option<seq<Bytes>>): CallResult<V> {
    if response.None? then NoValue
    else if response.value == [] || Decode(response.value[0]).None? then Raises
    else if Decode(response.value[0]) != Some(SUCCESS) then NoValue
    else if |response.value| < 2 then Raises
    else
      match f.unpack(response.value[1])
      case Whole(v) => Value(v)
      case _ => Raises
  }

  /**
   Whatever a peer answers, in any number of frames: the client gets a value if and only if the first says
   success and the second unpacks to it, no value if and only if nothing came or the first says something
   else, and raises in every other case, an empty response or a success without a body among them.
   */
  lemma AnyResponseExactly<V>(f: Format<V>, response: Option<seq<Bytes>>, v: V)
    ensures var result, frames := CallResultOf(f, response), response.UnwrapOr([]);
      && (result == Value(v) <==>
            |frames| >= 2 && Decode(frames[0]) == Some(Literal("SUCCESS")) && f.unpack(frames[1]) == Whole(v))
      && (result == NoValue <==>
            response.None? ||
            (frames != [] && Decode(frames[0]).Some? && Decode(frames[0]) != Some(Literal("SUCCESS"))))
  {
    hide Decode, Literal;
  }

  /** The whole way of a call that reaches the manager and whose reply reaches the client. */
  function CallService<V>(
      f: Format<V>, services: Registry, running: bool, name: Text,
      request: Request<V>, during: Meanwhile): CallResult<V>
  {
    match RequestFrames(name, Body(f, request))
    case None => NoValue
    case Some(frames) =>
      if !WellFormed(frames) then NoValue
      else CallResultOf(f, ResponseFrames(Answer(services, running, Decode(frames[0]).value, frames[1], during)))
  }

  /** Only a success is unpacked. */
  lemma ReplyIsRead<V>(f: Format<V>, reply: Reply, called: Option<Outcome>)
    requires Tells(reply, called)
    ensures CallResultOf(f, ResponseFrames(Some(reply))) ==
      if called.None? || called.value.Raised? then NoValue
      else if f.unpack(reply.result).Whole? then Value(f.unpack(reply.result).value) else Raises
  {
    hide Decode, Literal;
  }

  /** The client gets a result exactly when the awaited call returns, and then what the result unpacks to. */
  lemma CallIsRead<V>(
      f: Format<V>, services: Registry, running: bool, name: Text, request: Request<V>, during: Meanwhile)
    ensures CallService(f, services, running, name, request, during) ==
      if Encodable(name) && Called(services, name, Body(f, request), during).Some?
        && Called(services, name, Body(f, request), during).value.Returned?
      then
        var result := Called(services, name, Body(f, request), during).value.result.UnwrapOr([]);
        if f.unpack(result).Whole? then Value(f.unpack(result).value) else Raises
      else NoValue
  {
    hide Literal, Encodable, Encode, Decode, Called, Answer, Awaited, WellFormed;
    if Encodable(name) {
      var body := Body(f, request);
      ClientRequestsAreWellFormed(name, body);
      AnswerExactly(services, running, name, body, during);
      var reply := Answer(services, running, name, body, during);
      if reply.Some? {
        ReplyIsRead(f, reply.value, Called(services, name, body, during));
      }
    }
  }

  /**
   A remote call, exactly. The client gets the value `w` if and only if the service is registered, its
   call completes, the request's bytes unpack to a value, and the handler gives `w` for it. It raises
   if and only if the completed call found trailing bytes: in the request, or raised by the handler.
   In every other case it gets no value.
   */
  lemma RemoteCallExactly<V(!new)>(
      f: Format<V>, services: Registry, running: bool, name: Text, handler: V -> Handled<V>,
      request: Request<V>, during: Meanwhile, w: V)
    requires Faithful(f) && (name in services ==> services[name] == Wrapped(f, handler))
    ensures var result, arg := CallService(f, services, running, name, request, during), f.unpack(Body(f, request));
      && (result == Value(w) <==>
            Encodable(name) && name in services && during.Completes? && arg.Whole? && handler(arg.value) == Gives(w))
      && (result.Raises? <==>
            && Encodable(name) && name in services && during.Completes?
            && (arg.Trailing? || (arg.Whole? && handler(arg.value) == Fails(ExtraData))))
  {
    hide Encodable, CallService, Body;
    CallIsRead(f, services, running, name, request, during);
    assert forall x: V :: f.unpack(f.pack(x)) == Whole(x);
  }

  /** A call with a value: the handler sees that value, and the client raises only for the handler's own failure. */
  lemma PackedCallExactly<V(!new)>(
      f: Format<V>, services: Registry, running: bool, name: Text, handler: V -> Handled<V>,
      v: V, during: Meanwhile, w: V)
    requires Faithful(f) && Encodable(name) && name in services && services[name] == Wrapped(f, handler)
    ensures var result := CallService(f, services, running, name, Packed(v), during);
      && (result == Value(w) <==> during.Completes? && handler(v) == Gives(w))
      && (result.Raises? <==> during.Completes? && handler(v) == Fails(ExtraData))
  {
    hide CallService, Encodable, Wrapped;
    RemoteCallExactly(f, services, running, name, handler, Packed(v), during, w);
    assert f.unpack(f.pack(v)) == Whole(v);
  }

  lemma WrappedOutcome<V>(f: Format<V>, handler: V -> Handled<V>, request: Bytes)
    ensures Wrapped(f, handler)(request) != Raised(ExtraData)
    ensures f.unpack(request).Trailing? ==> Wrapped(f, handler)(request) == Returned(Some([]))
  {
  }

  /** Trailing bytes in a request are answered by an empty success; a wrapped handler never has it called invalid. */
  lemma TrailingBytesSucceed<V>(
      f: Format<V>, services: Registry, name: Text, handler: V -> Handled<V>, request: Bytes, during: Meanwhile)
    requires name in services && services[name] == Wrapped(f, handler)
    ensures var reply := Answer(services, true, name, request, during);
      && reply.Some? && Decode(reply.value.status) != Some(INVALID_REQUEST)
      && (during.Completes? && f.unpack(request).Trailing? ==> reply == Some(Reply(Encode(SUCCESS), [])))
  {
    hide Literal, Encodable, Encode, Wrapped;
    AnswerExactly(services, true, name, request, during);
    WrappedOutcome(f, handler, request);
  }
}
