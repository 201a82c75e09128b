/** The VNC client of vncclient.go: configuration, the connection object,
    the handshake sequencer Connect and the dispatch loop ListenAndHandle.
    The network connection is an object holding what the server will do and
    send; the handshake steps and the message decoders are abstract. */
module VncClient {
  import opened VncTypes
  import opened VncSpec

  // ---------------------------------------------------------------------
  // Configuration
  // ---------------------------------------------------------------------

  /** The authentication methods a configuration offers. */
  datatype ClientAuth = ClientAuthNone | ClientAuthVNC(password: string)

  /** The consumer's channel: decoded messages are appended to `received`. */
  class MessageChannel {
    var received: seq<ServerMessage>

    constructor ()
      ensures received == []
    {
      received := [];
    }

    /** Delivers one message (a send on the Go channel). */
    method Send(m: ServerMessage)
      modifies this
      ensures received == old(received) + [m]
    {
      received := received + [m];
    }
  }

  /** A client configuration. `serverMessageCh` is None when no channel is
      set; `serverMessages` is None for a nil slice, which differs from an
      empty one. */
  datatype ClientConfig = ClientConfig(
    auth: seq<ClientAuth>,
    password: string,
    exclusive: bool,
    serverMessageCh: Option<MessageChannel>,
    serverMessages: Option<seq<ServerMessage>>)

  /** The objects the dispatch loop may change besides the connection. */
  function Channels(cfg: ClientConfig): set<MessageChannel>
  {
    if cfg.serverMessageCh.Some? then {cfg.serverMessageCh.value} else {}
  }

  /** A populated configuration for password `p`: no-authentication first,
      then VNC authentication with `p`; one empty prototype for each of the
      four messages of section 7.6 of RFC 6143, listed by type code; not
      exclusive and without a channel. */
  function NewClientConfig(p: string): (cfg: ClientConfig)
    ensures cfg.auth == [ClientAuthNone, ClientAuthVNC(p)]
    ensures cfg.password == p && !cfg.exclusive && cfg.serverMessageCh.None?
    ensures cfg.serverMessages.Some? && |cfg.serverMessages.value| == 4
    ensures forall i :: 0 <= i < |cfg.serverMessages.value| ==>
              cfg.serverMessages.value[i].Type() == i && cfg.serverMessages.value[i].payload == []
    ensures cfg.serverMessages.value[0].kind == FramebufferUpdate &&
            cfg.serverMessages.value[1].kind == SetColorMapEntries &&
            cfg.serverMessages.value[2].kind == Bell &&
            cfg.serverMessages.value[3].kind == ServerCutText
  {
    ClientConfig(
      [ClientAuthNone, ClientAuthVNC(p)],
      p,
      false,
      None,
      Some([ServerMessage(FramebufferUpdate, []), ServerMessage(SetColorMapEntries, []),
            ServerMessage(Bell, []), ServerMessage(ServerCutText, [])]))
  }

  /** The default configuration's registry knows exactly the four standard
      message types, each under its own code, and nothing else. */
  lemma DefaultRegistry(p: string)
    ensures var reg := Registry(NewClientConfig(p).serverMessages.value);
            reg.Keys == {0, 1, 2, 3} &&
            reg[0].kind == FramebufferUpdate && reg[1].kind == SetColorMapEntries &&
            reg[2].kind == Bell && reg[3].kind == ServerCutText
  {
    var msgs := NewClientConfig(p).serverMessages.value;
    forall i | 0 <= i < 4
      ensures msgs[i].Type() in Registry(msgs) && Registry(msgs)[msgs[i].Type()] == msgs[i]
    {
      RegistryKeepsLast(msgs, i);
    }
    assert msgs[0].Type() == 0 && msgs[1].Type() == 1 && msgs[2].Type() == 2 && msgs[3].Type() == 3;
  }

  /** Fills the registry from the configured messages in list order
      (a later entry with the same code replaces an earlier one). */
  method BuildRegistry(msgs: seq<ServerMessage>) returns (reg: map<uint8, ServerMessage>)
    ensures reg == Registry(msgs)
  {
    reg := map[];
    for i := 0 to |msgs|
      invariant reg == Registry(msgs[..i])
    {
      assert msgs[..i + 1][..i] == msgs[..i];
      reg := reg[msgs[i].Type() := msgs[i]];
    }
    assert msgs[..|msgs|] == msgs;
  }

  // ---------------------------------------------------------------------
  // The network connection
  // ---------------------------------------------------------------------

  /** What ServerInit carries (section 7.3.2 of RFC 6143) that the session keeps. */
  datatype ServerInitInfo = ServerInitInfo(width: uint16, height: uint16, name: string)

  /** The server's side of the handshake: the steps that fail, with their
      errors, and the ServerInit contents. */
  datatype Peer = Peer(failures: map<Step, VncError>, init: ServerInitInfo)

  /** The error a handshake step returns against `peer`. */
  function StepResult(peer: Peer, s: Step): Option<VncError>
  {
    if s in peer.failures then Some(peer.failures[s]) else None
  }

  /** The underlying connection (`net.Conn`). `input` is what the server
      sends after the handshake; `exchanged` records the handshake steps
      carried out over the connection; `closeCount` counts calls to Close. */
  class NetConn {
    const peer: Peer
    var input: seq<Event>
    var closeCount: nat
    ghost var exchanged: seq<Step>

    constructor (peer: Peer, input: seq<Event>)
      ensures this.peer == peer && this.input == input
      ensures closeCount == 0 && exchanged == []
    {
      this.peer := peer;
      this.input := input;
      closeCount := 0;
      exchanged := [];
    }

    /** Carries out one handshake step with the server. */
    method Exchange(s: Step) returns (err: Option<VncError>)
      modifies this
      ensures err == StepResult(peer, s)
      ensures exchanged == old(exchanged) + [s]
      ensures input == old(input) && closeCount == old(closeCount)
    {
      err := StepResult(peer, s);
      exchanged := exchanged + [s];
    }

    /** Reads one message-type byte. An I/O error or the end of the input
        gives None; otherwise the type, and the bytes after it that the
        message's decoder will consume. */
    method ReadMessageType() returns (msgType: Option<uint8>, body: seq<uint8>)
      modifies this
      ensures old(input) == [] ==> msgType.None? && input == []
      ensures old(input) != [] ==> input == old(input)[1..]
      ensures old(input) != [] && old(input)[0].Frame? ==>
                msgType == Some(old(input)[0].msgType) && body == old(input)[0].body
      ensures old(input) != [] && old(input)[0].ReadError? ==> msgType.None?
      ensures closeCount == old(closeCount) && exchanged == old(exchanged)
    {
      if input == [] {
        msgType, body := None, [];
      } else {
        match input[0] {
          case ReadError =>
            msgType, body := None, [];
          case Frame(t, b) =>
            msgType, body := Some(t), b;
        }
        input := input[1..];
      }
    }

    method Close()
      modifies this
      ensures closeCount == old(closeCount) + 1
      ensures input == old(input) && exchanged == old(exchanged)
    {
      closeCount := closeCount + 1;
    }
  }

  // ---------------------------------------------------------------------
  // The client connection
  // ---------------------------------------------------------------------

  /** The session (`ClientConn`): the connection, the configuration and what
      the server told the client during the handshake. */
  class ClientConn {
    const conn: NetConn
    const config: ClientConfig
    var framebufferWidth: uint16
    var framebufferHeight: uint16
    var desktopName: string

    constructor (c: NetConn, cfg: ClientConfig)
      ensures conn == c && config == cfg
      ensures framebufferWidth == 0 && framebufferHeight == 0 && desktopName == ""
    {
      conn := c;
      config := cfg;
      framebufferWidth, framebufferHeight := 0, 0;
      desktopName := "";
    }

    /** Closes the underlying connection. */
    method Close()
      modifies conn
      ensures conn.closeCount == old(conn.closeCount) + 1
      ensures conn.input == old(conn.input) && conn.exchanged == old(conn.exchanged)
    {
      conn.Close();
    }

    /** The desktop name the server sent in ServerInit. */
    function DesktopName(): string
      reads this
    {
      desktopName
    }

    method ProtocolVersionHandshake() returns (err: Option<VncError>)
      modifies conn
      ensures err == StepResult(conn.peer, ProtocolVersion)
      ensures conn.exchanged == old(conn.exchanged) + [ProtocolVersion]
      ensures conn.input == old(conn.input) && conn.closeCount == old(conn.closeCount)
    {
      err := conn.Exchange(ProtocolVersion);
    }

    method SecurityHandshake() returns (err: Option<VncError>)
      modifies conn
      ensures err == StepResult(conn.peer, Security)
      ensures conn.exchanged == old(conn.exchanged) + [Security]
      ensures conn.input == old(conn.input) && conn.closeCount == old(conn.closeCount)
    {
      err := conn.Exchange(Security);
    }

    method SecurityResultHandshake() returns (err: Option<VncError>)
      modifies conn
      ensures err == StepResult(conn.peer, SecurityResult)
      ensures conn.exchanged == old(conn.exchanged) + [SecurityResult]
      ensures conn.input == old(conn.input) && conn.closeCount == old(conn.closeCount)
    {
      err := conn.Exchange(SecurityResult);
    }

    method ClientInit() returns (err: Option<VncError>)
      modifies conn
      ensures err == StepResult(conn.peer, VncSpec.ClientInit)
      ensures conn.exchanged == old(conn.exchanged) + [VncSpec.ClientInit]
      ensures conn.input == old(conn.input) && conn.closeCount == old(conn.closeCount)
    {
      err := conn.Exchange(VncSpec.ClientInit);
    }

    /** On success, keeps the framebuffer size and desktop name the server sent. */
    method ServerInit() returns (err: Option<VncError>)
      modifies this, conn
      ensures err == StepResult(conn.peer, VncSpec.ServerInit)
      ensures conn.exchanged == old(conn.exchanged) + [VncSpec.ServerInit]
      ensures conn.input == old(conn.input) && conn.closeCount == old(conn.closeCount)
      ensures err.None? ==>
                framebufferWidth == conn.peer.init.width &&
                framebufferHeight == conn.peer.init.height &&
                desktopName == conn.peer.init.name
      ensures err.Some? ==>
                framebufferWidth == old(framebufferWidth) &&
                framebufferHeight == old(framebufferHeight) &&
                desktopName == old(desktopName)
    {
      err := conn.Exchange(VncSpec.ServerInit);
      if err.None? {
        framebufferWidth := conn.peer.init.width;
        framebufferHeight := conn.peer.init.height;
        desktopName := conn.peer.init.name;
      }
    }

    /** Reads and handles server messages until a read fails, a message type
        is not registered or a decoder fails; always closes the connection.
        With a nil message list it returns a configuration error instead. */
    method ListenAndHandle(read: MessageReader) returns (err: Option<VncError>)
      modifies conn, Channels(config)
      ensures conn.closeCount == old(conn.closeCount) + 1
      ensures conn.exchanged == old(conn.exchanged)
      ensures config.serverMessages.None? ==>
                err == Some(VncError("Client config error: ServerMessages undefined")) &&
                conn.input == old(conn.input) &&
                (config.serverMessageCh.Some? ==>
                   config.serverMessageCh.value.received == old(config.serverMessageCh.value.received))
      ensures config.serverMessages.Some? ==>
                var run := Dispatch(Registry(config.serverMessages.value), read, old(conn.input));
                err.None? &&
                conn.input == old(conn.input)[run.consumed..] &&
                (config.serverMessageCh.Some? ==>
                   config.serverMessageCh.value.received == old(config.serverMessageCh.value.received) + run.parsed)
    {
      if config.serverMessages.None? {
        Close();
        return Some(VncError("Client config error: ServerMessages undefined"));
      }
      var registry := BuildRegistry(config.serverMessages.value);
      HandleMessages(registry, read);
      Close();
      return None;
    }

    /** The read loop of ListenAndHandle: read a type byte, look up its
        decoder in `registry`, decode, and send the message on the channel
        (or discard it when there is none); stop at the first read failure,
        unregistered type or decode failure. */
    method HandleMessages(registry: map<uint8, ServerMessage>, read: MessageReader)
      modifies conn, Channels(config)
      ensures var run := Dispatch(registry, read, old(conn.input));
              conn.input == old(conn.input)[run.consumed..] &&
              (config.serverMessageCh.Some? ==>
                 config.serverMessageCh.value.received == old(config.serverMessageCh.value.received) + run.parsed)
      ensures conn.closeCount == old(conn.closeCount) && conn.exchanged == old(conn.exchanged)
    {
      var ch := config.serverMessageCh;
      ghost var events := conn.input;
      ghost var received0 := if ch.Some? then ch.value.received else [];
      ghost var parsed: seq<ServerMessage> := [];
      ghost var done: nat := 0;
      while true
        invariant done <= |events| && conn.input == events[done..]
        invariant conn.closeCount == old(conn.closeCount) && conn.exchanged == old(conn.exchanged)
        invariant Dispatch(registry, read, events).parsed == parsed + Dispatch(registry, read, conn.input).parsed
        invariant Dispatch(registry, read, events).consumed == done + Dispatch(registry, read, conn.input).consumed
        invariant ch.Some? ==> ch.value.received == received0 + parsed
        decreases |conn.input|
      {
        ghost var before := conn.input;
        DispatchUnfold(registry, read, before);
        var msgType, body := conn.ReadMessageType();
        if msgType.None? {
          // a read error or the end of the input
          assert conn.input == events[done + Dispatch(registry, read, before).consumed..];
          break;
        }
        var t := msgType.value;
        if t !in registry {
          // unsupported message type
          assert conn.input == events[done + 1..];
          break;
        }
        var parsedMsg := read(registry[t], body);
        if parsedMsg.None? {
          // the decoder failed
          assert conn.input == events[done + 1..];
          break;
        }
        assert Handled(registry, read, before[0]) && Decoded(registry, read, before[0]) == parsedMsg.value;
        ghost var rest := Dispatch(registry, read, conn.input);
        assert Dispatch(registry, read, before).parsed == [parsedMsg.value] + rest.parsed;
        assert parsed + ([parsedMsg.value] + rest.parsed) == (parsed + [parsedMsg.value]) + rest.parsed;
        parsed := parsed + [parsedMsg.value];
        done := done + 1;
        if ch.None? {
          // no channel: the message is discarded and reading goes on
          continue;
        }
        ch.value.Send(parsedMsg.value);
      }
    }
  }

  /** Runs the five handshake steps in order over `c`. The first step that
      fails closes the connection and its error is returned without a
      session; when all succeed, the open session is returned. */
  method Connect(c: NetConn, cfg: ClientConfig) returns (session: ClientConn?, err: Option<VncError>)
    modifies c
    ensures var t := Handshake(HandshakeSteps, c.peer.failures);
            err == t.error && c.exchanged == old(c.exchanged) + t.ran
    ensures c.input == old(c.input)
    ensures err.Some? ==> session == null && c.closeCount == old(c.closeCount) + 1
    ensures err.None? ==>
              session != null && fresh(session) &&
              session.conn == c && session.config == cfg &&
              c.closeCount == old(c.closeCount) &&
              session.DesktopName() == c.peer.init.name &&
              session.framebufferWidth == c.peer.init.width &&
              session.framebufferHeight == c.peer.init.height
  {
    var conn := new ClientConn(c, cfg);
    var f := c.peer.failures;
    var s := HandshakeSteps;

    err := conn.ProtocolVersionHandshake();
    assert c.exchanged == old(c.exchanged) + s[..1];
    if err.Some? {
      HandshakeStopsAtFirstFailure(s, f, 0);
      conn.Close();
      return null, err;
    }
    err := conn.SecurityHandshake();
    assert c.exchanged == old(c.exchanged) + s[..2];
    if err.Some? {
      HandshakeStopsAtFirstFailure(s, f, 1);
      conn.Close();
      return null, err;
    }
    err := conn.SecurityResultHandshake();
    assert c.exchanged == old(c.exchanged) + s[..3];
    if err.Some? {
      HandshakeStopsAtFirstFailure(s, f, 2);
      conn.Close();
      return null, err;
    }
    err := conn.ClientInit();
    assert c.exchanged == old(c.exchanged) + s[..4];
    if err.Some? {
      HandshakeStopsAtFirstFailure(s, f, 3);
      conn.Close();
      return null, err;
    }
    err := conn.ServerInit();
    assert c.exchanged == old(c.exchanged) + s[..5];
    if err.Some? {
      HandshakeStopsAtFirstFailure(s, f, 4);
      conn.Close();
      return null, err;
    }
    HandshakeCompletes(s, f);
    return conn, None;
  }
}
