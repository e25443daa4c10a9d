/** The reply loop over whole runs: what it answers, which services it knows, and when it ends. */
module ServiceLaws {
  import opened Wrappers
  import opened Utf8
  import opened Literals
  import opened Services

  // ---------- statuses ----------

  /** The reply says this and carries this. */
  predicate Says(reply: Option<Reply>, status: string, result: Bytes) {
    reply.Some? && Decode(reply.value.status) == Some(Literal(status)) && reply.value.result == result
  }

  /**
   What the wait for a call leads to. A timeout has its own status; a cancellation, or a pool that is down,
   is an unknown error to the client while the manager runs and ends the loop once it is stopped.
   */
  lemma WaitExactly(services: Registry, running: bool, name: Text, request: Bytes, during: Meanwhile)
    ensures var reply := Answer(services, running, name, request, during);
      && (name !in services ==> Says(reply, "NOSERVICE", []))
      && (name in services && during.TimesOut? ==> Says(reply, "SERVICE_TIMEOUT", []))
      && (name in services && (during.IsCancelled? || during.PoolIsDown?) ==>
           if running then Says(reply, "UNKNOWN_ERROR", []) else reply.None?)
      && (name in services && during.Completes? ==>
           match services[name](request)
           case Returned(Some(result)) => Says(reply, "SUCCESS", result)
           case Returned(None) => Says(reply, "SUCCESS", [])
           case Raised(TimeoutError) => Says(reply, "SERVICE_TIMEOUT", [])
           case Raised(ExtraData) => Says(reply, "INVALID_REQUEST", [])
           case Raised(OtherException) => Says(reply, "UNKNOWN_ERROR", [])
           case Raised(_) => if running then Says(reply, "UNKNOWN_ERROR", []) else reply.None?)
  {
    hide Literal, Encodable, Encode, Decode;
    DecodeInvertsEncode(SUCCESS);
    DecodeInvertsEncode(NOSERVICE);
    DecodeInvertsEncode(SERVICE_TIMEOUT);
    DecodeInvertsEncode(INVALID_REQUEST);
    DecodeInvertsEncode(UNKNOWN_ERROR);
  }

  // ---------- which services are known ----------

  /** In turn `i` the loop still runs, and a callback is registered under the name before it polls. */
  predicate RegistersAt(s: Server, turns: seq<Turn>, i: nat, name: Text)
    requires i < |turns|
  {
    AfterTurns(s, turns[..i]).alive && AfterTurns(s, turns[..i]).running && name in turns[i].registered
  }

  lemma TurnRegisters(s: Server, t: Turn)
    ensures AfterTurn(s, t).services == if s.alive && s.running then s.services + t.registered else s.services
  {
    hide Answer, WellFormed;
  }

  /** The callback of a name is the one registered last. */
  lemma {:induction false} LastRegisteredServes(s: Server, turns: seq<Turn>, i: nat, name: Text)
    requires i < |turns| && RegistersAt(s, turns, i, name)
    requires forall j: nat :: i < j < |turns| ==> !RegistersAt(s, turns, j, name)
    ensures var after := AfterTurns(s, turns).services; name in after && after[name] == turns[i].registered[name]
  {
    hide AfterTurn;
    var n := |turns| - 1;
    TurnRegisters(AfterTurns(s, turns[..n]), turns[n]);
    if i < n {
      assert !RegistersAt(s, turns, n, name);
      SameRegistrations(s, turns, n, name);
      LastRegisteredServes(s, turns[..n], i, name);
    }
  }

  /** A name that is not registered is known, and means what it meant, just as at the start. */
  lemma {:induction false} UnregisteredStays(s: Server, turns: seq<Turn>, name: Text)
    requires forall j: nat :: j < |turns| ==> !RegistersAt(s, turns, j, name)
    ensures var after := AfterTurns(s, turns).services;
      (name in after <==> name in s.services) && (name in after ==> after[name] == s.services[name])
  {
    hide AfterTurn;
    if turns != [] {
      var n := |turns| - 1;
      TurnRegisters(AfterTurns(s, turns[..n]), turns[n]);
      assert !RegistersAt(s, turns, n, name);
      SameRegistrations(s, turns, n, name);
      UnregisteredStays(s, turns[..n], name);
    }
  }

  lemma SameRegistrations(s: Server, turns: seq<Turn>, n: nat, name: Text)
    requires n <= |turns|
    ensures forall i: nat :: i < n ==> (RegistersAt(s, turns[..n], i, name) <==> RegistersAt(s, turns, i, name))
  {
    assert forall i: nat :: i < n ==> turns[..n][..i] == turns[..i];
  }

  // ---------- when the loop ends ----------

  /** In this turn of a running loop `stop` is called, the task is cancelled, or the sending of a reply is. */
  predicate Ends(s: Server, t: Turn) {
    || t.stopsAfter || t.incoming.Interrupted? || t.stopsMeanwhile
    || (Takes(s, t) && WellFormed(t.incoming.frames) && t.delivery.CutShort?)
  }

  lemma RequestEnds(s: Server, frames: seq<Bytes>, t: Turn)
    requires s.alive && s.running
    ensures var s' := AfterRequest(s, frames, t);
      s'.running == !t.stopsMeanwhile
      && (s'.running ==> (s'.alive <==> !(WellFormed(frames) && t.delivery.CutShort?)))
  {
    hide Answer;
    if WellFormed(frames) {
      AnswerExactly(s.services, true, Decode(frames[0]).value, frames[1], t.during);
    }
    hide WellFormed, Tells, Interrupts;
  }

  lemma TurnEnds(s: Server, t: Turn)
    ensures AfterTurn(s, t).alive && AfterTurn(s, t).running <==> s.alive && s.running && !Ends(s, t)
  {
    hide AfterRequest, WellFormed;
    if Takes(s, t) {
      RequestEnds(s.(services := s.services + t.registered), t.incoming.frames, t);
    }
  }

  predicate NothingEnds(s: Server, turns: seq<Turn>) {
    forall i: nat :: i < |turns| ==> !Ends(AfterTurns(s, turns[..i]), turns[i])
  }

  /** Nothing else ends the loop: no handler's failure, no request it cannot read, no reply it cannot send. */
  lemma {:induction false} GoesOnExactly(s: Server, turns: seq<Turn>)
    requires s.alive && s.running
    ensures AfterTurns(s, turns).alive && AfterTurns(s, turns).running <==> NothingEnds(s, turns)
  {
    hide AfterTurn, Ends, NothingEnds;
    if turns == [] {
      NothingYetEnds(s);
    } else {
      var n := |turns| - 1;
      GoesOnExactly(s, turns[..n]);
      TurnEnds(AfterTurns(s, turns[..n]), turns[n]);
      NothingEndsSnoc(s, turns);
    }
  }

  lemma NothingYetEnds(s: Server)
    ensures NothingEnds(s, [])
  {
  }

  lemma NothingEndsSnoc(s: Server, turns: seq<Turn>)
    requires turns != []
    ensures var n := |turns| - 1;
      NothingEnds(s, turns) <==> NothingEnds(s, turns[..n]) && !Ends(AfterTurns(s, turns[..n]), turns[n])
  {
    hide AfterTurns, Ends;
    var n := |turns| - 1;
    assert forall i: nat :: i < n ==> turns[..n][..i] == turns[..i] && turns[..n][i] == turns[i];
  }

  /** A loop that is stopped, or left, takes and sends nothing more, and is left at the latest in its next turn. */
  lemma {:induction false} EndedIsQuiet(s: Server, turns: seq<Turn>)
    requires !s.alive || !s.running
    ensures AfterTurns(s, turns) == if turns == [] then s else s.(alive := false)
  {
    hide AfterRequest;
    if turns != [] {
      EndedIsQuiet(s, turns[..|turns| - 1]);
    }
  }

  /** Requests are taken exactly in the turns of a running loop that owes nothing and finds one waiting. */
  lemma TakesExactly(s: Server, t: Turn)
    ensures AfterTurn(s, t).received == s.received + if Takes(s, t) then [t.incoming.frames] else []
    ensures AfterTurn(s, t).replies == s.replies <==>
      !(Takes(s, t) && |t.incoming.frames| == 2 && Decode(t.incoming.frames[0]).Some? && t.delivery.Sent?
        && Answer(s.services + t.registered, !t.stopsMeanwhile, Decode(t.incoming.frames[0]).value,
                  t.incoming.frames[1], t.during).Some?)
  {
    hide Answer, Decode;
  }
}
