# Chat server and fleet supervisor: a Dafny model

This project models the sequential core of a small multi-process chat
service written in C++.

**The chat server** (`ServidorChat`) keeps a directory of connected users
(`usuarios`, an ordered vector of name/descriptor pairs). It also keeps a
map from descriptor to last-message time (`tiemposUltimosMensajes`) and a
message counter (`totalMensajes`). Each connection goes through the same
steps:

- it gets a name prompt;
- it sends its name, which is trimmed on the right;
- it then sends chunks, each dispatched by prefix: `@usuarios`,
  `@conexion`, `@salir`, `@h`, or otherwise broadcast as a chat line.

**The fleet supervisor** (`MonitorServidores`) does three things:

- it checks its arguments;
- it keeps one restart flag per server slot, lowered by a failed child and
  raised again by the monitor pass;
- it collects telemetry datagrams into a FIFO queue, which a reporter
  drains.

Sockets are replaced by an outbox of effects (`Send(descriptor, data)`,
`Close(descriptor)`). A received chunk or datagram is a string parameter,
and the empty string stands for a failed read. The clock, the port probe
and a child's exit status are parameters too. Each locked region, and each
pass of a server loop, is one atomic step. State that the source updates in
place is a class with `modifies` frames:

- `ServidorChat.ServidorChat` holds the directory, the map, the counter and
  the outbox;
- `MonitorServidores.Monitor` holds the queue, the restart flags and the
  printed lines.

Each such method is proved against specification functions:

- `BroadcastSends`, `RosterText`, `RemoveFirst`, `Despedida`, `Respuesta`
  and `ActualizarTiempo` on the chat side;
- `Tokens`, `HastaNul`, `SiguienteBandera` and `ComandoServidor` on the
  supervisor side.

Lemmas prove what these functions promise.

Files: `wrappers.dfy` (Option), `decimal.dfy` (decimal rendering and its
parser), `lineas.dfy` (the newline tokenizer), `usuario.dfy` (the `Usuario`
value), `servidor_chat.dfy`, `monitor_servidores.dfy`.

Some of what the code does may surprise a reader. The model keeps the
code's behaviour in each case:

- The name keeps its leading blanks. Only trailing `' '`, `'\n'`, `'\r'`
  and `'\t'` are removed.
- `totalMensajes` counts every chunk received after the name, command
  lines included.
- `@salir` closes the connection but leaves the user in `usuarios`. Any
  chunk starting with `@h` (say `@hola`) gets the help text.
- A descriptor's last-message time is never erased.
- The server's telemetry goes out as five separate datagrams, one per
  metric. No "server on port" line is sent.
- The name prompt is sent as 20 bytes of a 19-character literal, so its
  terminating NUL reaches the client.
- `main` accepts only an odd number of servers (see Findings).

## Model

| member | source | states |
|---|---|---|
| `Decimal.NatToString` | src/ServidorChat.cpp:190 | `std::to_string` of the directory size: at least one character, all decimal digits, no leading zero; one digit exactly for values below ten |
| `Decimal.ParseNatToString` | src/ServidorChat.cpp:190 | reading the rendered count back gives the count (round trip) |
| `Decimal.IntToString` | src/MonitorServidores.cpp:57 | `std::to_string` of a port: a leading minus exactly when negative, digits after it |
| `Decimal.IntToStringRoundTrip` | src/MonitorServidores.cpp:57 | the rendered port parses back to the same integer |
| `Lineas.Scan` | src/MonitorServidores.cpp:145-152 | the state of the `getline` loop after reading a prefix of the payload: the non-empty lines completed so far, in order, and the characters read since the last newline |
| `Lineas.Tokens` | src/MonitorServidores.cpp:145-152 | the strings the loop pushes for a payload: the completed non-empty lines, then the text after the last newline when it is non-empty (the token `getline` returns at end of input) |
| `Lineas.ScanInvariant` | src/MonitorServidores.cpp:145-152 | while the `getline` loop runs, every token pushed so far is non-empty and newline-free, and the pushed tokens plus the pending one are the text read so far minus its newlines |
| `Lineas.TokensWellFormed` | src/MonitorServidores.cpp:141-152 | every token pushed for a payload is non-empty and has no `'\n'`, and their concatenation equals the payload with all newlines removed |
| `Lineas.TokensSplit` | src/MonitorServidores.cpp:147-151 | tokenising `a + "\n" + b` gives the tokens of `a` followed by the tokens of `b`, so payload order is kept |
| `Lineas.TokensOfLine` | src/MonitorServidores.cpp:147-151 | a non-empty newline-free line is one token, with or without a trailing newline |
| `Lineas.FinalTokenDelivered` | src/MonitorServidores.cpp:147-151 | a last token with no newline after it is still pushed, at the end |
| `Lineas.ScanAppendLine` | src/MonitorServidores.cpp:147-151 | after a complete line, reading one more newline-terminated line adds exactly that line as a token |
| `Lineas.NewlineCountAppend` | src/ServidorChat.cpp:180-183 | the number of line breaks in a concatenation is the sum of the numbers in its parts |
| `Usuarios.GettersReturnConstructorArguments` | include/ServidorChat.h:14-18 | `obtenerNombreUsuario` and `obtenerDescriptorSocket` return exactly the name and the descriptor given to the constructor |
| `Usuarios.Usuario` | include/ServidorChat.h:12-23 | the directory entry: an immutable name and connection descriptor with the two getters and no setters |
| `Usuarios.Nombres` | include/ServidorChat.h:49 | the names of a directory, same length and position by position, in vector order |
| `Usuarios.ConDescriptor` | src/ServidorChat.cpp:116-117 | how many directory entries carry a descriptor, the quantity the disconnect search and the broadcast filter test; never more than the directory size |
| `ServidorChat.TrimRight` | src/ServidorChat.cpp:92-93 | the stored name is a prefix of the received bytes, it does not end in a blank, and everything cut off is blank |
| `ServidorChat.TrimRightKeepsLeadingBlanks` | src/ServidorChat.cpp:92-93 | the name is empty exactly when the input is all blanks; otherwise it starts with the input's first character, leading blanks included |
| `ServidorChat.Substr0` | src/ServidorChat.cpp:146-153 | `std::string::substr(0, n)`: the first `n` characters, or the whole chunk when it is shorter; its length is the smaller of the two and it is a prefix of the chunk |
| `ServidorChat.Classify` | src/ServidorChat.cpp:146-163 | the `substr` comparisons tried in source order (`@usuarios`, `@conexion`, `@salir`, `@h`), falling through to a chat line |
| `ServidorChat.SubstrComparesPrefix` | src/ServidorChat.cpp:146-153 | `substr(0, n) == p` with `n == p.size()` holds exactly when `p` is a prefix of the chunk, short chunks included |
| `ServidorChat.ClassifyByPrefix` | src/ServidorChat.cpp:146-163 | each command is selected exactly when the chunk starts with its prefix, any chunk starting with `@h` gets help, and every other chunk is a chat line |
| `ServidorChat.Respuesta` | src/ServidorChat.cpp:146-163 | the effects of a non-empty chunk by its class: the roster or the user-count line or the help text to the asker, a close for `@salir`, or `nombre + ": " + chunk` broadcast to the others |
| `ServidorChat.NameLines` | src/ServidorChat.cpp:181-183 | what the `+=` loop appends: each name followed by a newline, in vector order |
| `ServidorChat.RosterText` | src/ServidorChat.cpp:180-184 | the roster sent for `@usuarios`: the header line followed by `NameLines` |
| `ServidorChat.RosterLineCount` | src/ServidorChat.cpp:178-185 | with newline-free names, the roster holds one line per user plus the header line |
| `ServidorChat.RosterScan` | src/ServidorChat.cpp:180-183 | for names free of newlines (empty ones included), the roster as built by the loop ends in a newline and has as its complete non-empty lines the header and then each non-empty name in order |
| `ServidorChat.NombresVisibles` | src/ServidorChat.cpp:181-182 | the names a line reader sees in the roster, in directory order: an empty name (an all-blank name chunk trims to it) is an empty line and is skipped; never more than the directory size |
| `ServidorChat.NombresVisiblesSinVacios` | src/ServidorChat.cpp:181-182 | when no name is empty, the reader sees every name |
| `ServidorChat.RosterTokens` | src/ServidorChat.cpp:178-185 | for names free of newlines, the roster read line by line is `"Usuarios conectados:"` followed by the non-empty names in vector order, and by all names when none is empty. A name with an inner newline (trimming keeps it) is outside this lemma: it reads back as several lines |
| `ServidorChat.LineaNumeroUsuarios` | src/ServidorChat.cpp:190 | the user-count line (also the telemetry datagram at line 262): the label, the decimal count and a newline |
| `ServidorChat.LineaNumeroUsuariosRoundTrip` | src/ServidorChat.cpp:188-192 | the `@conexion` reply is the label, the decimal directory size and a newline; parsing it gives back the size |
| `ServidorChat.BroadcastSends` | src/ServidorChat.cpp:168-174 | a broadcast makes one send per directory entry whose descriptor is not the sender's, so N−1 sends when the sender is listed once |
| `ServidorChat.BroadcastSendsSpec` | src/ServidorChat.cpp:168-174 | every send carries the message verbatim to a listed descriptor other than the sender's, and every other listed user gets it |
| `ServidorChat.BroadcastSendsAppend` | src/ServidorChat.cpp:170-173 | sends follow vector order: the broadcast to `a + b` is the broadcast to `a` followed by the broadcast to `b` |
| `ServidorChat.FirstIndex` | src/ServidorChat.cpp:116-117 | the index of the first entry with the descriptor, or the size when none has it |
| `ServidorChat.RemoveFirst` | src/ServidorChat.cpp:116-120 | the directory after the disconnect's erase: the entry at `FirstIndex` removed, or the directory unchanged when no entry matches |
| `ServidorChat.ConDescriptorAppend` | src/ServidorChat.cpp:116-120 | the number of entries with a descriptor is additive over concatenation |
| `ServidorChat.ConDescriptorZero` | src/ServidorChat.cpp:116-117 | no entry has the descriptor exactly when its count is zero |
| `ServidorChat.RemoveAt` | src/ServidorChat.cpp:120 | erasing one matching entry lowers that descriptor's count by one and removes just that element |
| `ServidorChat.RemoveFirstSpec` | src/ServidorChat.cpp:114-123 | disconnect erases only the first entry with the descriptor: none matching leaves the directory unchanged; otherwise the others keep their order, later duplicates stay, and nothing new appears |
| `ServidorChat.Despedida` | src/ServidorChat.cpp:116-119 | the farewell fan-out: when an entry matches, `"<name> se ha desconectado del chat.\n"` with the first match's name broadcast to the others; nothing otherwise |
| `ServidorChat.DespedidaSpec` | src/ServidorChat.cpp:116-119 | without a matching entry no farewell is sent; otherwise every farewell send goes to another descriptor with the text `"<name> se ha desconectado del chat.\n"` |
| `ServidorChat.ActualizarTiempo` | src/ServidorChat.cpp:130-140 | the metrics update overwrites the descriptor's time only when it has one, and adds or erases no entry |
| `ServidorChat.DisconnectLocksAsWritten` | src/ServidorChat.cpp:114-124 | the mutex operations of the disconnect block as written: the lock of line 115, the broadcast's own lock and release (line 169) only when an entry is found, then the release at the end of the block |
| `ServidorChat.DisconnectAsWrittenBlocks` | src/ServidorChat.cpp:115-119 | as written, the disconnect path blocks on the mutex it already holds exactly when the directory has an entry with the descriptor; with no entry it completes |
| `ServidorChat.ServidorChat.constructor` | src/ServidorChat.cpp:13-16 | a new server holds its port and start time, no users, no times, a zero counter and no listening socket yet (`-1`) |
| `ServidorChat.ServidorChat.EnviarMensajeATodos` | src/ServidorChat.cpp:168-175 | the loop appends exactly `BroadcastSends(usuarios, mensaje, remitente)` to the outbox and changes nothing else |
| `ServidorChat.ServidorChat.EnviarListaUsuarios` | src/ServidorChat.cpp:178-185 | the `+=` loop builds exactly the roster text, which is sent to the asking client only |
| `ServidorChat.ServidorChat.EnviarDetallesConexion` | src/ServidorChat.cpp:188-192 | the asking client gets the user-count line for the current directory size |
| `ServidorChat.ServidorChat.EnviarNumeroUsuarios` | src/ServidorChat.cpp:260-263 | the telemetry datagram is the user-count line, and it parses back to the directory size |
| `ServidorChat.ServidorChat.Aceptar` | src/ServidorChat.cpp:85 | a new connection is sent the name prompt, including its terminating NUL |
| `ServidorChat.ServidorChat.RegistrarUsuario` | src/ServidorChat.cpp:86-105 | a failed read only closes the connection. Otherwise one `Usuario(trimmed name, descriptor)` is appended at the end with earlier entries unchanged, the join notice goes to every other user, and the descriptor's time is set |
| `ServidorChat.ServidorChat.Desconectar` | src/ServidorChat.cpp:112-126 | the first matching entry's farewell goes to the others, then that entry is erased, then the connection is closed; times and counter are untouched |
| `ServidorChat.ServidorChat.ActualizarMetricas` | src/ServidorChat.cpp:130-141 | the counter goes up by exactly one and the time map changes as `ActualizarTiempo` says |
| `ServidorChat.ServidorChat.ProcesarMensaje` | src/ServidorChat.cpp:108-164 | a failed read disconnects without counting. Any other chunk, commands included, is counted once, leaves `usuarios` unchanged (even for `@salir`), gets the reply its prefix selects, and ends the loop only for `@salir` |
| `ServidorChat.SalirThenDescriptorReuse` | src/ServidorChat.cpp:150-152 | in one run (ana on descriptor 5, carla on 7, ana sends `@salir`, bea joins on the reused 5, then bea's connection ends), with the intended disconnect: the `@salir` entry stays, bea's disconnect erases ana's stale entry instead of bea's and announces "ana" to carla. As written, that disconnect finds the stale entry and blocks on the mutex (lines 115 and 169) |
| `ServidorChat.ReuseFarewell` | src/ServidorChat.cpp:116-120 | in that scenario, the disconnect erases the first (stale) entry and the farewell names its user |
| `ServidorChat.BroadcastSkipsStaleSender` | src/ServidorChat.cpp:170-173 | for any message, a broadcast from descriptor 5 over a three-entry directory with descriptors 5, 7, 5 reaches descriptor 7 only, skipping the stale entry too |
| `ServidorChat.TrimmedNames` | src/ServidorChat.cpp:92-93 | any name that is empty or does not end in a blank, sent with one trailing newline, is stored exactly as the name |
| `ServidorChat.RosterHeaderScan` | src/ServidorChat.cpp:180 | the roster header alone is one complete line |
| `ServidorChat.RosterScanStep` | src/ServidorChat.cpp:181-182 | for a name free of newlines, each pass of the roster loop adds the name as one more complete line, or only an empty line the reader skips when the name is empty |
| `MonitorServidores.HastaNul` | src/MonitorServidores.cpp:136-141 | the payload is the longest NUL-free prefix of the received bytes, stopping at the first NUL |
| `MonitorServidores.HastaNulSinNul` | src/MonitorServidores.cpp:141 | bytes without a NUL are taken whole |
| `MonitorServidores.UserCountDatagramIsOneLine` | src/MonitorServidores.cpp:141-152 | a chat server's user-count datagram, once delivered, becomes exactly one queued line: the label and the count (delivery and addresses are not modelled, see Left out) |
| `MonitorServidores.ComandoServidor` | src/MonitorServidores.cpp:57 | the command a slot runs: `"./build/chat servidor "` followed by the decimal port |
| `MonitorServidores.ComandoServidorRoundTrip` | src/MonitorServidores.cpp:57 | the spawn command is `"./build/chat servidor "` followed by the decimal port, which reads back unchanged |
| `MonitorServidores.SiguienteBandera` | src/MonitorServidores.cpp:66-84 | a slot's flag after one pass of `start_server`: lowered only when it was up, the port was free and the child returned a non-zero status |
| `MonitorServidores.SlotFlagTransitions` | src/MonitorServidores.cpp:66-84 | with the flag up and the port free, a non-zero status lowers the flag and zero keeps it up; otherwise the flag is unchanged; the step never raises a flag |
| `MonitorServidores.ArgumentosAceptados` | src/MonitorServidores.cpp:172-181 | `main`'s argument check as written: at least three `argv` entries with `argc - 1` even, then a positive count with `argc == 2 + count` |
| `MonitorServidores.ArgumentosCorregidos` | src/MonitorServidores.cpp:172-181 | the check without the parity test: a positive count followed by exactly that many ports |
| `MonitorServidores.ArgumentosAceptadosSoloImpares` | src/MonitorServidores.cpp:172-181 | `main` accepts exactly a positive count followed by that many ports, with the count odd |
| `MonitorServidores.FlotaParRechazada` | src/MonitorServidores.cpp:172-175 | the well-formed two-server command line `2 5000 5001` is refused |
| `MonitorServidores.ArgumentosCorregidosAceptanToda` | src/MonitorServidores.cpp:177-186 | without the parity test, every positive count with that many ports is accepted, and the ports are the arguments after the count |
| `MonitorServidores.AceptadosSonCorregidos` | src/MonitorServidores.cpp:172-181 | whatever `main` accepts as written is also accepted by the corrected check |
| `MonitorServidores.Monitor.constructor` | src/MonitorServidores.cpp:183-194 | ports are taken from `argv[2..]` in order, there is one flag per server, and every flag starts up |
| `MonitorServidores.Monitor.StartServerStep` | src/MonitorServidores.cpp:65-85 | one pass of `start_server` for one slot. The flag follows `SiguienteBandera` and other slots are untouched. The spawn command runs only when the flag is up and the port is free. The sleep is 1 s when down, 5 s when the port is busy or the child failed, and none after a clean exit |
| `MonitorServidores.Monitor.MonitorServers` | src/MonitorServidores.cpp:92-101 | after a monitor pass every flag is up, and the pass ends with the 5 s sleep of line 100 |
| `MonitorServidores.Monitor.CrashThenRestart` | src/MonitorServidores.cpp:66-98 | a crash lowers the flag, the monitor raises it, and the next step with the port free spawns the same command again |
| `MonitorServidores.Monitor.RecibirInformacionServidor` | src/MonitorServidores.cpp:133-153 | the queue gets exactly the tokens of the payload up to its first NUL, pushed at the back in payload order |
| `MonitorServidores.Monitor.MostrarInformacionServidor` | src/MonitorServidores.cpp:159-168 | a reporter tick (after its 7 s sleep, line 161) prints every queued line in FIFO order and leaves the queue empty |

## Left out

- `ServidorChat::iniciar` (src/ServidorChat.cpp:19-77) is not modelled: it only sets up sockets, accepts connections in a loop and starts threads. The accept loop hands each connection to `Aceptar` and the session steps.
- The floating-point telemetry (`enviarPromedioMensajes`, `enviarTasaUso`, `enviarTiempoEntreMensajes`, `enviarTiempoActividad`) and the UDP socket handling of `enviarInformacionMonitor` are left out. They are `double` arithmetic over a steady clock; only the integer user-count line is modelled. Delivery of a datagram to the collector is assumed and the addresses are not modelled: the servers send to 127.0.0.1:55555 (src/ServidorChat.cpp:247-248) while the collector binds 172.18.76.218:55555 (src/MonitorServidores.cpp:27,114-117), so on an unedited build a local server's datagram would not reach the queue.
- Threads, `std::mutex`, `std::atomic` and sleeps are not modelled. Each locked region is one atomic step. Each loop pass returns its sleep as a duration in seconds: 1, 5 or 0 for a slot step (src/MonitorServidores.cpp:75,79,83; none after a clean exit), 5 for the monitor pass (line 100) and 7 for the reporter tick (line 161); nothing waits. Unmodelled races include the unlocked write of the last-message time at src/ServidorChat.cpp:105, and a slot thread reading its flag while the monitor writes it.
- `is_port_available`, `std::system` and the `access("./build/chat")` check are OS calls. The probe result and the child's status are inputs; the early end of a slot thread when the executable is missing is not modelled.
- Console logging is not modelled. The only exception is the reporter's output, kept as `console`.
- `std::stoi` failures are not modelled: the arguments are taken as already-converted integers.
- The header declares string-returning metric functions and `concatenarMensajes` (include/ServidorChat.h:35-42). They do not match the `.cpp` and `concatenarMensajes` is never defined; the model follows the `.cpp`.
- main.cpp is not part of this model: it is a semaphore demo and the command-line entry of a client class that is not shown.
- Characters stand for bytes. The non-ASCII letters in the Spanish literals are single characters here, and no text encoding is modelled.
- `MonitorServidores.Monitor.RecibirInformacionServidor`: requires payloads shorter than 1024 bytes. A 1024-byte datagram makes the source write one byte past its buffer (src/MonitorServidores.cpp:135-138), which the model does not capture.
- `ServidorChat.ServidorChat.ActualizarMetricas`: does not model the 32-bit `int` overflow of `totalMensajes`, which would need more than two billion messages.
- `ServidorChat.ServidorChat.Desconectar`: states the intended effect of the disconnect path, not the self-deadlock the source has (see Findings and `DisconnectAsWrittenBlocks`).

## Findings

| source | as written | input that shows it | evidently intended | confidence | as-written member | corrected member |
|---|---|---|---|---|---|---|
| src/MonitorServidores.cpp:172-179 | `argc < 3 \|\| (argc - 1) % 2 != 0` together with `argc != 2 + num_servers` refuses every even number of servers | `supervisor 2 5000 5001` (argc 4) is refused with the usage message | accept any positive count followed by that many ports | high; not executed | `MonitorServidores.FlotaParRechazada` | `MonitorServidores.ArgumentosCorregidosAceptanToda` |
| src/ServidorChat.cpp:115-119 | the disconnect path holds `mutexUsuarios` (line 115) while calling `enviarMensajeATodos`, which locks the same non-recursive mutex again (line 169) | any joined client whose connection ends (`recv` returns 0): the handler blocks for good and every later directory access waits behind it | send the farewell and erase the entry under one lock acquisition | high for the default glibc mutex (the standard calls it undefined); not executed | `ServidorChat.DisconnectAsWrittenBlocks` | `ServidorChat.ServidorChat.Desconectar` |
