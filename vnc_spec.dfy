/** Specification of the client's control logic as functions on values:
    the fail-fast handshake sequence, the message registry, and the run of
    the dispatch loop over a finite input. The imperative client in module
    VncClient is proved against these functions. */
module VncSpec {
  import opened VncTypes

  // ---------------------------------------------------------------------
  // Handshake sequencing
  // ---------------------------------------------------------------------

  /** The five handshake steps (sections 7.1.1, 7.1.2, 7.1.3, 7.3.1 and
      7.3.2 of RFC 6143). */
  datatype Step = ProtocolVersion | Security | SecurityResult | ClientInit | ServerInit

  /** The order in which Connect runs the steps. */
  const HandshakeSteps: seq<Step> := [ProtocolVersion, Security, SecurityResult, ClientInit, ServerInit]

  /** The steps that ran, and the error of the run (None on success). */
  datatype HandshakeTrace = HandshakeTrace(ran: seq<Step>, error: Option<VncError>)

  /** Runs `steps` in order, stopping at the first one that fails;
      `failures` maps each step that fails to the error it returns. */
  function Handshake(steps: seq<Step>, failures: map<Step, VncError>): (t: HandshakeTrace)
    ensures |t.ran| <= |steps| && t.ran == steps[..|t.ran|]
    ensures forall j :: 0 <= j < |t.ran| - 1 ==> t.ran[j] !in failures
    ensures t.error.None? <==> forall j :: 0 <= j < |steps| ==> steps[j] !in failures
    ensures t.error.None? ==> t.ran == steps
    ensures t.error.Some? ==>
              t.ran != [] && t.ran[|t.ran| - 1] in failures &&
              t.error.value == failures[t.ran[|t.ran| - 1]]
  {
    if steps == [] then
      HandshakeTrace([], None)
    else if steps[0] in failures then
      HandshakeTrace([steps[0]], Some(failures[steps[0]]))
    else
      var rest := Handshake(steps[1..], failures);
      assert forall j :: 1 <= j < |steps| ==> steps[j] == steps[1..][j - 1];
      HandshakeTrace([steps[0]] + rest.ran, rest.error)
  }

  /** When step k is the first failing one, exactly the steps up to and
      including k run, and the run returns step k's error unchanged.
      (A corollary of Handshake's contract.) */
  lemma HandshakeStopsAtFirstFailure(steps: seq<Step>, failures: map<Step, VncError>, k: nat)
    requires k < |steps| && steps[k] in failures
    requires forall j :: 0 <= j < k ==> steps[j] !in failures
    ensures Handshake(steps, failures) == HandshakeTrace(steps[..k + 1], Some(failures[steps[k]]))
  {
  }

  /** When no step fails, every step runs, in order, and the run succeeds.
      (A corollary of Handshake's contract.) */
  lemma HandshakeCompletes(steps: seq<Step>, failures: map<Step, VncError>)
    requires forall j :: 0 <= j < |steps| ==> steps[j] !in failures
    ensures Handshake(steps, failures) == HandshakeTrace(steps, None)
  {
  }

  // ---------------------------------------------------------------------
  // Message registry
  // ---------------------------------------------------------------------

  /** The registry built from the configured messages, entry by entry in
      list order, each entry stored under its type code. */
  function Registry(msgs: seq<ServerMessage>): (reg: map<uint8, ServerMessage>)
    ensures reg.Keys == set m | m in msgs :: m.Type()
    ensures forall t :: t in reg ==> reg[t] in msgs && reg[t].Type() == t
  {
    if msgs == [] then
      map[]
    else
      var init, last := msgs[..|msgs| - 1], msgs[|msgs| - 1];
      assert msgs == init + [last];
      Registry(init)[last.Type() := last]
  }

  /** An entry that no later entry shares its code with is what the
      registry holds for that code: the last entry for a code wins. */
  lemma {:induction false} RegistryKeepsLast(msgs: seq<ServerMessage>, i: nat)
    requires i < |msgs|
    requires forall j :: i < j < |msgs| ==> msgs[j].Type() != msgs[i].Type()
    ensures msgs[i].Type() in Registry(msgs) && Registry(msgs)[msgs[i].Type()] == msgs[i]
  {
    var n := |msgs|;
    var init, last := msgs[..n - 1], msgs[n - 1];
    assert Registry(msgs) == Registry(init)[last.Type() := last];
    if i < n - 1 {
      assert forall j :: i < j < |init| ==> init[j] == msgs[j];
      RegistryKeepsLast(init, i);
      assert last.Type() != msgs[i].Type();
    }
  }

  /** Conversely, every entry of the registry is the last configured
      message with its code. */
  lemma {:induction false} RegistryEntryIsLast(msgs: seq<ServerMessage>, t: uint8) returns (i: nat)
    requires t in Registry(msgs)
    ensures i < |msgs| && msgs[i] == Registry(msgs)[t] && msgs[i].Type() == t
    ensures forall j :: i < j < |msgs| ==> msgs[j].Type() != t
  {
    var n := |msgs|;
    var init, last := msgs[..n - 1], msgs[n - 1];
    assert Registry(msgs) == Registry(init)[last.Type() := last];
    if last.Type() == t {
      i := n - 1;
    } else {
      assert t in Registry(init);
      i := RegistryEntryIsLast(init, t);
      assert init[i] == msgs[i];
    }
  }

  // ---------------------------------------------------------------------
  // Dispatch loop
  // ---------------------------------------------------------------------

  /** Why the dispatch loop stopped (the source logs it and returns nil). */
  datatype Stop = ReadFailed | Unsupported(msgType: uint8) | DecodeFailed(msgType: uint8)

  /** A run of the loop: the decoded messages in wire order, how many input
      events it took off the connection, and why it stopped. */
  datatype DispatchRun = DispatchRun(parsed: seq<ServerMessage>, consumed: nat, stop: Stop)

  /** An event the loop gets past: a frame of a registered type whose
      decoder succeeds. */
  predicate Handled(reg: map<uint8, ServerMessage>, read: MessageReader, e: Event)
  {
    e.Frame? && e.msgType in reg && read(reg[e.msgType], e.body).Some?
  }

  /** The message that the loop decodes from a handled event. */
  function Decoded(reg: map<uint8, ServerMessage>, read: MessageReader, e: Event): ServerMessage
    requires Handled(reg, read, e)
  {
    read(reg[e.msgType], e.body).value
  }

  /** Why the loop stops at an event it cannot get past. */
  function StopAt(reg: map<uint8, ServerMessage>, e: Event): Stop
  {
    match e
    case ReadError => ReadFailed
    case Frame(t, _) => if t in reg then DecodeFailed(t) else Unsupported(t)
  }

  /** One iteration after another of the loop over `events`: read a type
      byte, look it up, decode, and go on; stop at a failed read (an error
      or the end of the input), an unregistered type or a failed decode. */
  function Dispatch(reg: map<uint8, ServerMessage>, read: MessageReader, events: seq<Event>): (r: DispatchRun)
    ensures |r.parsed| <= r.consumed <= |events|
  {
    if events == [] then
      DispatchRun([], 0, ReadFailed)
    else
      match events[0]
      case ReadError => DispatchRun([], 1, ReadFailed)
      case Frame(t, body) =>
        if t !in reg then
          DispatchRun([], 1, Unsupported(t))
        else
          match read(reg[t], body)
          case None => DispatchRun([], 1, DecodeFailed(t))
          case Some(m) =>
            var rest := Dispatch(reg, read, events[1..]);
            DispatchRun([m] + rest.parsed, rest.consumed + 1, rest.stop)
  }

  /** One iteration of the loop, as Dispatch defines it. */
  lemma DispatchUnfold(reg: map<uint8, ServerMessage>, read: MessageReader, events: seq<Event>)
    ensures events == [] ==> Dispatch(reg, read, events) == DispatchRun([], 0, ReadFailed)
    ensures events != [] && !Handled(reg, read, events[0]) ==>
              Dispatch(reg, read, events) == DispatchRun([], 1, StopAt(reg, events[0]))
    ensures events != [] && Handled(reg, read, events[0]) ==>
              var rest := Dispatch(reg, read, events[1..]);
              Dispatch(reg, read, events) ==
                DispatchRun([Decoded(reg, read, events[0])] + rest.parsed, rest.consumed + 1, rest.stop)
  {
  }

  /** The loop decodes exactly the longest prefix of handled events, in wire
      order; it stops at the first event it cannot get past (taking that
      event off the connection) or, when there is none, at the end of the
      input. */
  lemma {:induction false} DispatchDeliversHandledPrefix(reg: map<uint8, ServerMessage>, read: MessageReader, events: seq<Event>)
    ensures var r := Dispatch(reg, read, events);
            |r.parsed| <= |events| &&
            (forall i :: 0 <= i < |r.parsed| ==>
               Handled(reg, read, events[i]) && r.parsed[i] == Decoded(reg, read, events[i])) &&
            (|r.parsed| < |events| ==>
               !Handled(reg, read, events[|r.parsed|]) && r.consumed == |r.parsed| + 1 &&
               r.stop == StopAt(reg, events[|r.parsed|])) &&
            (|r.parsed| == |events| ==> r.consumed == |events| && r.stop == ReadFailed)
  {
    if events != [] && Handled(reg, read, events[0]) {
      var rest := events[1..];
      DispatchDeliversHandledPrefix(reg, read, rest);
      var r := Dispatch(reg, read, events);
      assert forall i :: 1 <= i < |events| ==> events[i] == rest[i - 1];
      assert forall i :: 1 <= i < |r.parsed| ==> r.parsed[i] == Dispatch(reg, read, rest).parsed[i - 1];
    }
  }

  /** Delivery is compositional: messages handled before a suffix are
      delivered first, then whatever the suffix yields; nothing is lost or
      reordered across the boundary. */
  lemma {:induction false} DispatchAppend(reg: map<uint8, ServerMessage>, read: MessageReader, xs: seq<Event>, ys: seq<Event>)
    requires forall i :: 0 <= i < |xs| ==> Handled(reg, read, xs[i])
    ensures Dispatch(reg, read, xs + ys).parsed ==
            seq(|xs|, i requires 0 <= i < |xs| => Decoded(reg, read, xs[i])) + Dispatch(reg, read, ys).parsed
    ensures Dispatch(reg, read, xs + ys).consumed == |xs| + Dispatch(reg, read, ys).consumed
  {
    if xs == [] {
      assert xs + ys == ys;
    } else {
      assert Handled(reg, read, xs[0]);
      assert (xs + ys)[0] == xs[0];
      assert (xs + ys)[1..] == xs[1..] + ys;
      DispatchAppend(reg, read, xs[1..], ys);
      var rest := Dispatch(reg, read, xs[1..] + ys);
      assert Dispatch(reg, read, xs + ys) == DispatchRun([Decoded(reg, read, xs[0])] + rest.parsed, rest.consumed + 1, rest.stop);
      var head := seq(|xs|, i requires 0 <= i < |xs| => Decoded(reg, read, xs[i]));
      var tail := seq(|xs| - 1, i requires 0 <= i < |xs| - 1 => Decoded(reg, read, xs[1..][i]));
      assert head == [Decoded(reg, read, xs[0])] + tail;
    }
  }
}
