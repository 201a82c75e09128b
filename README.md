# go-vnc client core in Dafny

This project models the control logic of the VNC client in `vncclient.go`.
The client speaks the RFB protocol of RFC 6143. Two parts are modelled:

- **`Connect`, the handshake sequencer.** It runs five steps in a fixed order:
  ProtocolVersion (section 7.1.1 of RFC 6143), Security (7.1.2),
  SecurityResult (7.1.3), ClientInit (7.3.1) and ServerInit (7.3.2). The
  first step that fails closes the connection, and `Connect` returns that
  step's error with no session. When every step succeeds, `Connect` returns
  the open session.
- **`ListenAndHandle`, the dispatch loop.** It rejects a nil message list
  with a configuration error. Otherwise it builds a registry from the
  configured server messages, keyed by type code, where a later entry wins.
  Then it loops: read a type byte, look up the decoder, decode, and send the
  result on the consumer channel, or discard it when no channel is set.
  The loop stops at the first read failure, unregistered type or decode
  failure, and returns nil. The connection is closed on every exit path.

The model also covers `NewClientConfig`, `ClientConn.Close` and
`ClientConn.DesktopName`.

Layout:

- `vnc_types.dfy` (module `VncTypes`) holds the value types: wire integers,
  errors, server messages with their type codes, decoders and input events.
- `vnc_spec.dfy` (module `VncSpec`) holds the specification functions:
  `Handshake` (fail-fast sequencing), `Registry` (the type-code table) and
  `Dispatch` (one run of the read loop). It also holds the lemmas that say
  what these functions mean.
- `vncclient.dfy` (module `VncClient`) holds the imperative client. The
  network connection is the class `NetConn`. It holds the server's
  handshake behaviour, the remaining input and a close counter. The
  consumer channel is the class `MessageChannel`, whose sends append to a
  sequence. The session is the class `ClientConn`. `Connect`,
  `ListenAndHandle` and its read loop `HandleMessages` are methods proved
  against the specification functions.

Abstractions:

- The input after the handshake is a finite sequence of events. Each event
  is a frame (a type byte plus the bytes its decoder consumes) or a read
  error. Reaching the end of the sequence is also a read failure.
- Each message decoder (`ServerMessage.Read`) is a function parameter. It
  maps the registered prototype and the frame's bytes to a decoded message,
  or to a failure.
- Each handshake step's outcome comes from the server model `Peer`. A map
  says which steps fail and with what error. ServerInit also supplies the
  framebuffer size and desktop name that the session keeps.

The doc comment at `vncclient.go:70-73` says the configured message list
need not contain the messages RFC 6143 requires. The code at
`vncclient.go:141-144` adds nothing to the list, and the model follows the
code. `Registry` has exactly the configured codes as keys. A configuration
that omits FramebufferUpdate therefore stops the loop at the first
framebuffer update.

## Model

| member | source | states |
|---|---|---|
| `VncSpec.Handshake` | vncclient.go:24-43 | The steps that run are a prefix of the step list, in order. Every step that ran before the last one succeeded. The run succeeds exactly when no step fails, and then every step ran. On failure, the last step that ran is a failing one, and the run's error is that step's error. |
| `VncSpec.HandshakeStopsAtFirstFailure` | vncclient.go:24-43 | If step k is the first failing step, exactly steps 0..k run, and the result is step k's error unchanged. No later step runs. |
| `VncSpec.HandshakeCompletes` | vncclient.go:24-45 | If no step fails, all steps run in order and the run succeeds. |
| `VncSpec.Registry` | vncclient.go:141-144 | The registry's keys are exactly the type codes of the configured messages, with nothing added implicitly. Each entry is a configured message with that code. |
| `VncSpec.RegistryKeepsLast` | vncclient.go:141-144 | A message that no later entry shares a code with is the registry's entry for its code: the last one wins. |
| `VncSpec.RegistryEntryIsLast` | vncclient.go:141-144 | Every registry entry is a configured message with that code, and no later message has the same code. |
| `VncSpec.Dispatch` | vncclient.go:146-172 | A run never decodes more messages than it consumes events, and never consumes more events than the input holds. |
| `VncSpec.DispatchDeliversHandledPrefix` | vncclient.go:146-174 | The decoded messages are, in wire order, the decoder results of the longest prefix of events whose type is registered and whose decode succeeds. If an event follows that prefix, it is the one the loop stops at: it is consumed, and the stop reason is a read error, an unsupported type or a decode failure. Otherwise the loop stops at the end of the input, having consumed everything. |
| `VncSpec.DispatchAppend` | vncclient.go:146-172 | Messages handled before a suffix are delivered first, followed by what the suffix yields. Nothing is lost or reordered across the boundary, and the consumed counts add up. |
| `VncClient.NewClientConfig` | vncclient.go:77-91 | The auth candidates are exactly [None, VNC(p)], in that order. The password is p. The config is not exclusive and has no channel. The message list is the four section 7.6 messages of RFC 6143 as empty prototypes, in the order FramebufferUpdate, SetColorMapEntries, Bell, ServerCutText, with type codes 0, 1, 2 and 3. |
| `VncClient.DefaultRegistry` | vncclient.go:84-89 | The default config's registry has exactly the keys {0, 1, 2, 3}. They hold FramebufferUpdate, SetColorMapEntries, Bell and ServerCutText, respectively. |
| `VncClient.BuildRegistry` | vncclient.go:141-144 | Filling the map entry by entry in list order yields `Registry` of the list. |
| `VncClient.Connect` | vncclient.go:18-46 | The steps carried out over the connection are exactly those `Handshake` runs over the five steps, and the returned error is its error. On failure: no session, and the connection is closed exactly once. On success: a fresh session holding the given connection and config, the connection not closed, and `DesktopName()` and the framebuffer size equal to what ServerInit sent. |
| `VncClient.ClientConn.DesktopName` | vncclient.go:129-132 | Returns the session's desktop name. Its meaning is stated by `Connect`'s postcondition: after a successful handshake it is the name the server sent in ServerInit. |
| `VncClient.ClientConn.ListenAndHandle` | vncclient.go:135-175 | The connection is closed exactly once on every path. With a nil message list: the configuration error, no input read and nothing delivered. Otherwise: nil, the input is advanced past what `Dispatch` consumes over the registry of the configured list, and the channel (if any) receives exactly `Dispatch`'s decoded messages. |
| `VncClient.ClientConn.HandleMessages` | vncclient.go:146-172 | The read loop consumes the events `Dispatch` consumes. It appends exactly the decoded messages to the channel when one is set, and discards them otherwise. It does not close the connection or change anything else. |
| `VncClient.ClientConn.Close` | vncclient.go:124-127 | Closing the session closes the underlying connection once. Nothing else changes. |
| `VncClient.ClientConn.constructor` | vncclient.go:19-22 | A new session holds the given connection and config, with empty server-provided fields. |
| `VncClient.ClientConn.ProtocolVersionHandshake` | vncclient.go:24 | Runs the ProtocolVersion step once over the connection and returns its outcome. |
| `VncClient.ClientConn.SecurityHandshake` | vncclient.go:28 | Runs the Security step once over the connection and returns its outcome. |
| `VncClient.ClientConn.SecurityResultHandshake` | vncclient.go:32 | Runs the SecurityResult step once over the connection and returns its outcome. |
| `VncClient.ClientConn.ClientInit` | vncclient.go:36 | Runs the ClientInit step once over the connection and returns its outcome. |
| `VncClient.ClientConn.ServerInit` | vncclient.go:40 | Runs the ServerInit step once and returns its outcome. On success, the session keeps the width, height and desktop name the server sent; on failure they are unchanged. |
| `VncClient.NetConn.ReadMessageType` | vncclient.go:147-151 | Reading a type byte takes one event off the input. It fails on a read error or at the end of the input. Otherwise it yields the frame's type and the bytes for its decoder. |
| `VncClient.MessageChannel.Send` | vncclient.go:171 | A send appends the message to what the consumer has received. |

## Left out

- The bodies of `protocolVersionHandshake`, `securityHandshake`, `securityResultHandshake`, `clientInit` and `serverInit` are not part of this model. Each step is an abstract outcome supplied by `Peer`. Version selection, security-type choice, authentication and the ServerInit wire format are not modelled. Only the width, height and name that ServerInit stores are kept.
- `ServerMessage.Read` is a function parameter (`MessageReader`). Its access to the session and its exact byte consumption are not modelled.
- The four standard messages' `Type()` implementations are not part of this model. Their codes 0 to 3 are taken from section 7.6 of RFC 6143.
- `NewVNCError` is modelled as the `VncError` value carrying its message. The `ClientAuth` and `Encoding` implementations are not part of this model.
- `net.Conn` I/O, `binary.Read` and byte-level framing are abstracted. A frame's type byte and the bytes its decoder reads form one event. When the type is unregistered or the decoder fails, the model counts the whole frame as consumed, while the source has read only the type byte or part of the body; the connection is closed right after, so the difference is not observable.
- The unbounded loop of `ListenAndHandle` terminates in the model because the input is finite. A live connection that never ends or errors is not modelled.
- A channel send that blocks on a slow or absent consumer is not modelled. The goroutine and channel semantics are concurrency, so a send is an append to `MessageChannel.received`.
- VncClient.ClientConn.Close: the error returned by `net.Conn.Close` (for example, on a second close) is not modelled. The source ignores it at every call site shown.
- The unused `context.Context` parameter of `Connect` and all `fmt.Println` logging are left out. The model keeps the loop's stop reason only in `VncSpec.Dispatch`, since the source returns nil for every stop.
- The session fields `protocolVersion`, `ColorMap`, `Encodings` and `PixelFormat` are not part of this model. They are filled by step bodies or by code outside `vncclient.go`.
- `encodings_test.go` checks only a type code defined in files that are not part of this model.
