/**
 * The chat server of one process: its user directory, the per-connection
 * protocol and the replies it sends. Each locked region of the source is
 * one atomic step here. Socket sends and closes are appended to `outbox`;
 * the clock is read by the caller and passed in as `ahora`; a received
 * chunk is a string, and the empty string stands for a `recv` that
 * returned 0 bytes or an error.
 */
module ServidorChat {
  import opened Wrappers
  import opened Decimal
  import opened Lineas
  import opened Usuarios

  /** What the server does to a client connection. */
  datatype Effect = Send(descriptor: int, data: string) | Close(descriptor: int)

  /** The name prompt. 20 bytes of this 19-character literal are sent, so its terminating NUL goes out too. */
  const Prompt: string := "Ingrese su nombre: " + ['\0']

  const HelpText: string :=
    "Comandos disponibles:\n" +
    "@usuarios - Lista de usuarios conectados\n" +
    "@conexion - Muestra la conexión y el número de usuarios\n" +
    "@salir - Desconectar del chat\n"

  const RosterHeader: string := "Usuarios conectados:\n"

  const CountLabel: string := "Número de usuarios conectados: "

  // ---------------------------------------------------------------------
  // Name handshake

  predicate IsBlank(c: char) {
    c == ' ' || c == '\n' || c == '\r' || c == '\t'
  }

  /** `s.erase(s.find_last_not_of(" \n\r\t") + 1)`: only trailing blanks go. */
  function TrimRight(s: string): (r: string)
    ensures r <= s
    ensures r == [] || !IsBlank(r[|r| - 1])
    ensures forall i :: |r| <= i < |s| ==> IsBlank(s[i])
  {
    if s == [] || !IsBlank(s[|s| - 1]) then s else TrimRight(s[..|s| - 1])
  }

  /** Leading blanks survive, and only an all-blank input gives the empty name. */
  lemma TrimRightKeepsLeadingBlanks(s: string)
    ensures TrimRight(s) == [] <==> forall i :: 0 <= i < |s| ==> IsBlank(s[i])
    ensures TrimRight(s) != [] ==> TrimRight(s)[0] == s[0]
  {
  }

  // ---------------------------------------------------------------------
  // Command dispatch

  /** `s.substr(0, n)`: the first `n` characters, or all of `s` when it is shorter. */
  function Substr0(s: string, n: nat): (r: string)
    ensures |r| == if n < |s| then n else |s|
    ensures r <= s
  {
    if n < |s| then s[..n] else s
  }

  lemma SubstrComparesPrefix(m: string, p: string)
    ensures Substr0(m, |p|) == p <==> p <= m
  {
  }

  datatype Command = ListUsers | ConnectionCount | Quit | Help | Chat

  /** The chain of `substr` comparisons in `manejarCliente`, tried in source order. */
  function Classify(m: string): Command {
    if Substr0(m, 9) == "@usuarios" then ListUsers
    else if Substr0(m, 9) == "@conexion" then ConnectionCount
    else if Substr0(m, 6) == "@salir" then Quit
    else if Substr0(m, 2) == "@h" then Help
    else Chat
  }

  /**
   * Each command is recognised exactly by its prefix. The four prefixes
   * differ in their second character, so the order of the tests never
   * matters, and any chunk starting with "@h" is a help request.
   */
  lemma ClassifyByPrefix(m: string)
    ensures Classify(m) == ListUsers <==> "@usuarios" <= m
    ensures Classify(m) == ConnectionCount <==> "@conexion" <= m
    ensures Classify(m) == Quit <==> "@salir" <= m
    ensures Classify(m) == Help <==> "@h" <= m
    ensures Classify(m) == Chat <==> !("@usuarios" <= m || "@conexion" <= m || "@salir" <= m || "@h" <= m)
  {
    SubstrComparesPrefix(m, "@usuarios");
    SubstrComparesPrefix(m, "@conexion");
    SubstrComparesPrefix(m, "@salir");
    SubstrComparesPrefix(m, "@h");
    if "@usuarios" <= m { assert m[1] == 'u'; }
    if "@conexion" <= m { assert m[1] == 'c'; }
    if "@salir" <= m { assert m[1] == 's'; }
    if "@h" <= m { assert m[1] == 'h'; }
  }

  // ---------------------------------------------------------------------
  // Replies

  /** The roster body as the `+=` loop builds it: each name followed by a newline, in directory order. */
  function NameLines(us: seq<Usuario>): string {
    if us == [] then [] else NameLines(us[..|us| - 1]) + us[|us| - 1].nombreUsuario + "\n"
  }

  function RosterText(us: seq<Usuario>): string {
    RosterHeader + NameLines(us)
  }

  /** With names free of newlines, the roster has the header line plus one line per user. */
  lemma {:induction false} RosterLineCount(us: seq<Usuario>)
    requires forall k :: 0 <= k < |us| ==> '\n' !in us[k].nombreUsuario
    ensures NewlineCount(RosterText(us)) == |us| + 1
  {
    if us == [] {
      assert RosterText(us) == "Usuarios conectados:" + "\n";
      NewlineCountAppend("Usuarios conectados:", "\n");
      NewlineFree("Usuarios conectados:");
      assert "\n"[..0] == [];
    } else {
      var p := us[..|us| - 1];
      var u := us[|us| - 1];
      RosterLineCount(p);
      assert RosterText(us) == RosterText(p) + (u.nombreUsuario + "\n");
      NewlineCountAppend(RosterText(p), u.nombreUsuario + "\n");
      NewlineCountAppend(u.nombreUsuario, "\n");
      NewlineFree(u.nombreUsuario);
    }
  }

  /** The header alone scans as one complete line. */
  lemma RosterHeaderScan()
    ensures Scan(RosterHeader) == (["Usuarios conectados:"], [])
  {
    var t := "Usuarios conectados:";
    assert Scan([]) == ([], []);
    ScanAppendLine([], t);
    assert [] + t + "\n" == RosterHeader;
    assert [] + [t] == [t];
  }

  /**
   * The names a line reader sees in the roster, in directory order: an
   * empty name (what an all-blank name chunk is trimmed to) gives an empty
   * line, which the reader skips.
   */
  function NombresVisibles(us: seq<Usuario>): (ns: seq<string>)
    ensures |ns| <= |us|
  {
    if us == [] then [] else NombresVisibles(us[..|us| - 1]) + Flush(us[|us| - 1].nombreUsuario)
  }

  /** With no empty name, the reader sees every name. */
  lemma {:induction false} NombresVisiblesSinVacios(us: seq<Usuario>)
    requires forall k :: 0 <= k < |us| ==> us[k].nombreUsuario != []
    ensures NombresVisibles(us) == Nombres(us)
  {
    if us != [] {
      var p := us[..|us| - 1];
      NombresVisiblesSinVacios(p);
      assert Nombres(us) == Nombres(p) + [us[|us| - 1].nombreUsuario];
    }
  }

  /** Each pass of the roster loop adds the user's line; an empty name adds nothing the reader sees. */
  lemma RosterScanStep(us: seq<Usuario>, u: Usuario, done: seq<string>)
    requires Scan(RosterText(us)) == (done, [])
    requires '\n' !in u.nombreUsuario
    ensures Scan(RosterText(us + [u])) == (done + Flush(u.nombreUsuario), [])
  {
    assert (us + [u])[..|us|] == us;
    assert RosterText(us + [u]) == RosterText(us) + u.nombreUsuario + "\n";
    if u.nombreUsuario == [] {
      var s := RosterText(us) + u.nombreUsuario + "\n";
      assert s[..|s| - 1] == RosterText(us);
      assert done + Flush(u.nombreUsuario) == done;
    } else {
      ScanAppendLine(RosterText(us), u.nombreUsuario);
    }
  }

  /**
   * Read back line by line, the roster is its header followed by the
   * users' non-empty names in directory order (names free of newlines).
   */
  lemma {:induction false} RosterScan(us: seq<Usuario>)
    requires forall k :: 0 <= k < |us| ==> '\n' !in us[k].nombreUsuario
    ensures Scan(RosterText(us)) == (["Usuarios conectados:"] + NombresVisibles(us), [])
  {
    if us == [] {
      RosterHeaderScan();
      assert RosterText(us) == RosterHeader;
      assert ["Usuarios conectados:"] + NombresVisibles(us) == ["Usuarios conectados:"];
    } else {
      var p := us[..|us| - 1];
      var u := us[|us| - 1];
      RosterScan(p);
      RosterScanStep(p, u, ["Usuarios conectados:"] + NombresVisibles(p));
      assert p + [u] == us;
      assert ["Usuarios conectados:"] + NombresVisibles(p) + Flush(u.nombreUsuario) == ["Usuarios conectados:"] + NombresVisibles(us);
    }
  }

  /**
   * The roster as the collector-style line reader sees it: the header,
   * then every non-empty name in order; with no empty name, every name.
   */
  lemma RosterTokens(us: seq<Usuario>)
    requires forall k :: 0 <= k < |us| ==> '\n' !in us[k].nombreUsuario
    ensures Tokens(RosterText(us)) == ["Usuarios conectados:"] + NombresVisibles(us)
    ensures (forall k :: 0 <= k < |us| ==> us[k].nombreUsuario != []) ==>
      Tokens(RosterText(us)) == ["Usuarios conectados:"] + Nombres(us)
  {
    RosterScan(us);
    assert Tokens(RosterText(us)) == ["Usuarios conectados:"] + NombresVisibles(us);
    if forall k :: 0 <= k < |us| ==> us[k].nombreUsuario != [] {
      NombresVisiblesSinVacios(us);
    }
  }

  /** The `@conexion` reply and the user-count telemetry line. */
  function LineaNumeroUsuarios(n: nat): string {
    CountLabel + NatToString(n) + "\n"
  }

  /** Reads the count back from a user-count line. */
  function ParseLineaNumeroUsuarios(s: string): Option<nat> {
    if |s| > |CountLabel| + 1 && CountLabel <= s && s[|s| - 1] == '\n'
       && AllDigits(s[|CountLabel|..|s| - 1])
    then Some(ParseNat(s[|CountLabel|..|s| - 1]))
    else None
  }

  lemma LineaNumeroUsuariosRoundTrip(n: nat)
    ensures ParseLineaNumeroUsuarios(LineaNumeroUsuarios(n)) == Some(n)
  {
    var s := LineaNumeroUsuarios(n);
    assert s[|CountLabel|..|s| - 1] == NatToString(n);
    ParseNatToString(n);
  }

  // ---------------------------------------------------------------------
  // Broadcast and removal, as functions of the directory

  /** The sends of `enviarMensajeATodos`: one per entry whose descriptor is not the sender's, in directory order. */
  function BroadcastSends(us: seq<Usuario>, msg: string, sender: int): (r: seq<Effect>)
    ensures |r| == |us| - ConDescriptor(us, sender)
  {
    if us == [] then []
    else
      BroadcastSends(us[..|us| - 1], msg, sender) +
      (if us[|us| - 1].descriptorSocket != sender then [Send(us[|us| - 1].descriptorSocket, msg)] else [])
  }

  /** Every send carries the message verbatim to a listed user other than the sender, and every such user gets one. */
  lemma {:induction false} BroadcastSendsSpec(us: seq<Usuario>, msg: string, sender: int)
    ensures forall e :: e in BroadcastSends(us, msg, sender) ==>
      e.Send? && e.data == msg && e.descriptor != sender &&
      exists j :: 0 <= j < |us| && us[j].descriptorSocket == e.descriptor
    ensures forall j :: 0 <= j < |us| && us[j].descriptorSocket != sender ==>
      Send(us[j].descriptorSocket, msg) in BroadcastSends(us, msg, sender)
  {
    if us != [] {
      var p := us[..|us| - 1];
      BroadcastSendsSpec(p, msg, sender);
      forall e | e in BroadcastSends(us, msg, sender)
        ensures exists j :: 0 <= j < |us| && us[j].descriptorSocket == e.descriptor
      {
        if e in BroadcastSends(p, msg, sender) {
          var j :| 0 <= j < |p| && p[j].descriptorSocket == e.descriptor;
          assert us[j] == p[j];
        } else {
          assert us[|us| - 1].descriptorSocket == e.descriptor;
        }
      }
      forall j | 0 <= j < |us| && us[j].descriptorSocket != sender
        ensures Send(us[j].descriptorSocket, msg) in BroadcastSends(us, msg, sender)
      {
        if j < |p| {
          assert us[j] == p[j];
        }
      }
    }
  }

  /** Broadcasting to a directory in two parts sends to the first part first. */
  lemma {:induction false} BroadcastSendsAppend(a: seq<Usuario>, b: seq<Usuario>, msg: string, sender: int)
    ensures BroadcastSends(a + b, msg, sender) == BroadcastSends(a, msg, sender) + BroadcastSends(b, msg, sender)
  {
    if b == [] {
      assert a + b == a;
    } else {
      var b' := b[..|b| - 1];
      assert (a + b)[..|a + b| - 1] == a + b';
      assert (a + b)[|a + b| - 1] == b[|b| - 1];
      BroadcastSendsAppend(a, b', msg, sender);
    }
  }

  /** The index of the first entry with descriptor `fd`, or `|us|` when there is none. */
  function FirstIndex(us: seq<Usuario>, fd: int): (i: nat)
    ensures i <= |us|
    ensures i < |us| ==> us[i].descriptorSocket == fd
    ensures forall j :: 0 <= j < i ==> us[j].descriptorSocket != fd
  {
    if us == [] || us[0].descriptorSocket == fd then 0 else 1 + FirstIndex(us[1..], fd)
  }

  function RemoveFirst(us: seq<Usuario>, fd: int): seq<Usuario> {
    var i := FirstIndex(us, fd);
    if i == |us| then us else us[..i] + us[i + 1..]
  }

  lemma {:induction false} ConDescriptorAppend(a: seq<Usuario>, b: seq<Usuario>, fd: int)
    ensures ConDescriptor(a + b, fd) == ConDescriptor(a, fd) + ConDescriptor(b, fd)
  {
    if b == [] {
      assert a + b == a;
    } else {
      var b' := b[..|b| - 1];
      assert (a + b)[..|a + b| - 1] == a + b';
      assert (a + b)[|a + b| - 1] == b[|b| - 1];
      ConDescriptorAppend(a, b', fd);
    }
  }

  lemma {:induction false} ConDescriptorZero(us: seq<Usuario>, fd: int)
    ensures ConDescriptor(us, fd) == 0 <==> forall j :: 0 <= j < |us| ==> us[j].descriptorSocket != fd
  {
    if us != [] {
      var p := us[..|us| - 1];
      ConDescriptorZero(p, fd);
      assert forall j :: 0 <= j < |p| ==> p[j] == us[j];
    }
  }

  lemma RemoveAt(us: seq<Usuario>, i: nat, fd: int)
    requires i < |us| && us[i].descriptorSocket == fd
    ensures ConDescriptor(us[..i] + us[i + 1..], fd) == ConDescriptor(us, fd) - 1
    ensures multiset(us[..i] + us[i + 1..]) + multiset{us[i]} == multiset(us)
  {
    assert us == us[..i] + ([us[i]] + us[i + 1..]);
    ConDescriptorAppend(us[..i], [us[i]] + us[i + 1..], fd);
    ConDescriptorAppend([us[i]], us[i + 1..], fd);
    assert [us[i]][..0] == [];
    ConDescriptorAppend(us[..i], us[i + 1..], fd);
  }

  /**
   * Disconnect removes only the first entry with the descriptor: with no
   * such entry the directory is unchanged; otherwise exactly that entry
   * goes, the others keep their order, and later entries with the same
   * descriptor stay.
   */
  lemma RemoveFirstSpec(us: seq<Usuario>, fd: int)
    ensures ConDescriptor(us, fd) == 0 ==> RemoveFirst(us, fd) == us
    ensures ConDescriptor(us, fd) > 0 ==>
      exists i :: 0 <= i < |us| && us[i].descriptorSocket == fd &&
        (forall j :: 0 <= j < i ==> us[j].descriptorSocket != fd) &&
        RemoveFirst(us, fd) == us[..i] + us[i + 1..]
    ensures ConDescriptor(RemoveFirst(us, fd), fd) == if ConDescriptor(us, fd) > 0 then ConDescriptor(us, fd) - 1 else 0
    ensures multiset(RemoveFirst(us, fd)) <= multiset(us)
  {
    ConDescriptorZero(us, fd);
    var i := FirstIndex(us, fd);
    if i < |us| {
      var r := us[..i] + us[i + 1..];
      assert RemoveFirst(us, fd) == r;
      RemoveAt(us, i, fd);
      assert multiset(r) <= multiset(us);
    } else {
      assert RemoveFirst(us, fd) == us;
      assert ConDescriptor(us, fd) == 0;
    }
  }

  /** The farewell of a disconnect: sent to the others only when the descriptor is in the directory. */
  function Despedida(us: seq<Usuario>, fd: int): seq<Effect> {
    var i := FirstIndex(us, fd);
    if i == |us| then [] else BroadcastSends(us, us[i].nombreUsuario + " se ha desconectado del chat.\n", fd)
  }

  lemma DespedidaSpec(us: seq<Usuario>, fd: int)
    ensures ConDescriptor(us, fd) == 0 ==> Despedida(us, fd) == []
    ensures ConDescriptor(us, fd) > 0 ==>
      forall e :: e in Despedida(us, fd) ==>
        e.Send? && e.descriptor != fd &&
        e.data == us[FirstIndex(us, fd)].nombreUsuario + " se ha desconectado del chat.\n"
  {
    ConDescriptorZero(us, fd);
    var i := FirstIndex(us, fd);
    if i < |us| {
      BroadcastSendsSpec(us, us[i].nombreUsuario + " se ha desconectado del chat.\n", fd);
    }
  }

  /** The reply to a non-empty chunk from the user `nombre` on descriptor `fd`. */
  function Respuesta(us: seq<Usuario>, fd: int, nombre: string, chunk: string): seq<Effect> {
    match Classify(chunk)
    case ListUsers => [Send(fd, RosterText(us))]
    case ConnectionCount => [Send(fd, LineaNumeroUsuarios(|us|))]
    case Quit => [Close(fd)]
    case Help => [Send(fd, HelpText)]
    case Chat => BroadcastSends(us, nombre + ": " + chunk, fd)
  }

  /** The metrics update: an existing last-message time is overwritten, and no entry is added or erased. */
  function ActualizarTiempo(m: map<int, int>, fd: int, ahora: int): (r: map<int, int>)
    ensures r.Keys == m.Keys
    ensures fd in m ==> r[fd] == ahora
    ensures forall k :: k in m && k != fd ==> r[k] == m[k]
  {
    if fd in m then m[fd := ahora] else m
  }

  // ---------------------------------------------------------------------
  // Lock discipline of the disconnect path

  /** One thread's operations on a non-recursive `std::mutex` that no other thread holds. */
  datatype LockOp = Acquire | Release

  /** The lock state after `ops`, or None when the thread blocks on a mutex it already holds (or releases one it does not hold). */
  function RunLock(held: bool, ops: seq<LockOp>): Option<bool>
    decreases |ops|
  {
    if ops == [] then Some(held)
    else match ops[0]
      case Acquire => if held then None else RunLock(true, ops[1..])
      case Release => if held then RunLock(false, ops[1..]) else None
  }

  /** `enviarMensajeATodos` takes `mutexUsuarios` for the whole fan-out (line 169). */
  const BroadcastLocks: seq<LockOp> := [Acquire, Release]

  /**
   * The mutex operations of the disconnect block as written: the lock of
   * line 115, then, only when an entry with the descriptor is found, the
   * broadcast of the farewell with its own lock, then the release at the
   * end of the block.
   */
  function DisconnectLocksAsWritten(us: seq<Usuario>, fd: int): seq<LockOp> {
    [Acquire] + (if FirstIndex(us, fd) < |us| then BroadcastLocks else []) + [Release]
  }

  /**
   * As written, the disconnect path blocks on its own mutex exactly when the
   * directory holds an entry with the descriptor, that is, for every user
   * who joined and has not been erased yet.
   */
  lemma DisconnectAsWrittenBlocks(us: seq<Usuario>, fd: int)
    ensures RunLock(false, DisconnectLocksAsWritten(us, fd)) == None <==> ConDescriptor(us, fd) > 0
  {
    ConDescriptorZero(us, fd);
    var ops := DisconnectLocksAsWritten(us, fd);
    if FirstIndex(us, fd) < |us| {
      assert ops == [Acquire, Acquire, Release, Release];
    } else {
      assert ops == [Acquire, Release];
      assert RunLock(true, ops[1..]) == RunLock(false, []);
    }
  }

  // ---------------------------------------------------------------------
  // The server object

  class ServidorChat {
    const puerto: int
    var descriptorServidor: int
    const tiempoInicio: int
    var totalMensajes: nat
    var usuarios: seq<Usuario>
    var tiemposUltimosMensajes: map<int, int>
    var outbox: seq<Effect>

    constructor (puerto: int, ahora: int)
      ensures this.puerto == puerto && tiempoInicio == ahora && descriptorServidor == -1
      ensures totalMensajes == 0 && usuarios == [] && tiemposUltimosMensajes == map[] && outbox == []
    {
      this.puerto := puerto;
      descriptorServidor := -1;
      tiempoInicio := ahora;
      totalMensajes := 0;
      usuarios := [];
      tiemposUltimosMensajes := map[];
      outbox := [];
    }

    /** `enviarMensajeATodos`: the message, verbatim, to every entry whose descriptor is not the sender's. */
    method EnviarMensajeATodos(mensaje: string, descriptorRemitente: int)
      modifies this`outbox
      ensures outbox == old(outbox) + BroadcastSends(usuarios, mensaje, descriptorRemitente)
    {
      var us := usuarios;
      var i := 0;
      while i < |us|
        invariant 0 <= i <= |us|
        invariant outbox == old(outbox) + BroadcastSends(us[..i], mensaje, descriptorRemitente)
      {
        var usuario := us[i];
        ghost var paso := if usuario.descriptorSocket != descriptorRemitente then [Send(usuario.descriptorSocket, mensaje)] else [];
        assert us[..i + 1][..i] == us[..i];
        assert BroadcastSends(us[..i + 1], mensaje, descriptorRemitente) == BroadcastSends(us[..i], mensaje, descriptorRemitente) + paso;
        if usuario.ObtenerDescriptorSocket() != descriptorRemitente {
          outbox := outbox + [Send(usuario.ObtenerDescriptorSocket(), mensaje)];
        }
        assert outbox == old(outbox) + BroadcastSends(us[..i], mensaje, descriptorRemitente) + paso;
        i := i + 1;
      }
      assert us[..i] == us;
    }

    /** `enviarListaUsuarios`: the roster, built by appending each name, to the asking client. */
    method EnviarListaUsuarios(descriptorCliente: int)
      modifies this`outbox
      ensures outbox == old(outbox) + [Send(descriptorCliente, RosterText(usuarios))]
    {
      var listaUsuarios := RosterHeader;
      var i := 0;
      while i < |usuarios|
        invariant 0 <= i <= |usuarios|
        invariant listaUsuarios == RosterText(usuarios[..i])
      {
        assert usuarios[..i + 1][..i] == usuarios[..i];
        listaUsuarios := listaUsuarios + usuarios[i].ObtenerNombreUsuario() + "\n";
        i := i + 1;
      }
      assert usuarios[..i] == usuarios;
      outbox := outbox + [Send(descriptorCliente, listaUsuarios)];
    }

    /** `enviarDetallesConexion`: the current directory size to the asking client. */
    method EnviarDetallesConexion(descriptorCliente: int)
      modifies this`outbox
      ensures outbox == old(outbox) + [Send(descriptorCliente, LineaNumeroUsuarios(|usuarios|))]
    {
      var detalles := CountLabel + NatToString(|usuarios|) + "\n";
      outbox := outbox + [Send(descriptorCliente, detalles)];
    }

    /** `enviarNumeroUsuarios`: the user-count datagram for the supervisor's collector. */
    method EnviarNumeroUsuarios() returns (datagrama: string)
      ensures ParseLineaNumeroUsuarios(datagrama) == Some(|usuarios|)
      ensures datagrama == LineaNumeroUsuarios(|usuarios|)
    {
      datagrama := CountLabel + NatToString(|usuarios|) + "\n";
      LineaNumeroUsuariosRoundTrip(|usuarios|);
    }

    /** The first action of `manejarCliente` on a new connection: the name prompt. */
    method Aceptar(descriptorCliente: int)
      modifies this`outbox
      ensures outbox == old(outbox) + [Send(descriptorCliente, Prompt)]
    {
      outbox := outbox + [Send(descriptorCliente, Prompt)];
    }

    /**
     * The name handshake of `manejarCliente`. A failed read closes the
     * connection without joining. Otherwise the trimmed name is appended
     * to the directory, the others are told, and the descriptor's
     * last-message time is set. (The source writes that time at line 105
     * without holding the directory lock.)
     */
    method RegistrarUsuario(descriptorCliente: int, chunk: string, ahora: int) returns (nombre: Option<string>)
      modifies this`usuarios, this`outbox, this`tiemposUltimosMensajes
      ensures chunk == [] ==>
        && nombre == None
        && usuarios == old(usuarios)
        && tiemposUltimosMensajes == old(tiemposUltimosMensajes)
        && outbox == old(outbox) + [Close(descriptorCliente)]
      ensures chunk != [] ==>
        && nombre == Some(TrimRight(chunk))
        && usuarios == old(usuarios) + [Usuario(TrimRight(chunk), descriptorCliente)]
        && tiemposUltimosMensajes == old(tiemposUltimosMensajes)[descriptorCliente := ahora]
        && outbox == old(outbox) +
             BroadcastSends(old(usuarios), TrimRight(chunk) + " se ha conectado al chat.\n", descriptorCliente)
    {
      if chunk == [] {
        outbox := outbox + [Close(descriptorCliente)];
        nombre := None;
        return;
      }
      var nombreUsuario := TrimRight(chunk);
      usuarios := usuarios + [Usuario(nombreUsuario, descriptorCliente)];
      assert usuarios[..|usuarios| - 1] == old(usuarios);
      EnviarMensajeATodos(nombreUsuario + " se ha conectado al chat.\n", descriptorCliente);
      tiemposUltimosMensajes := tiemposUltimosMensajes[descriptorCliente := ahora];
      nombre := Some(nombreUsuario);
    }

    /**
     * Disconnect after a failed read: the first entry with the descriptor
     * says goodbye to the others and is erased; then the connection is
     * closed. The last-message time is left in place.
     *
     * Defect in the source: the lock taken at line 115 is still held when
     * `enviarMensajeATodos` takes the same non-recursive mutex at line 169,
     * so as written the thread blocks there for good whenever an entry is
     * found (DisconnectAsWrittenBlocks).
     * This step is the intended effect: farewell first, then the erase.
     */
    method Desconectar(descriptorCliente: int)
      modifies this`usuarios, this`outbox
      ensures usuarios == RemoveFirst(old(usuarios), descriptorCliente)
      ensures outbox == old(outbox) + Despedida(old(usuarios), descriptorCliente) + [Close(descriptorCliente)]
    {
      var i := 0;
      while i < |usuarios| && usuarios[i].ObtenerDescriptorSocket() != descriptorCliente
        invariant 0 <= i <= |usuarios|
        invariant forall j :: 0 <= j < i ==> usuarios[j].descriptorSocket != descriptorCliente
      {
        i := i + 1;
      }
      assert i == FirstIndex(usuarios, descriptorCliente);
      if i < |usuarios| {
        var mensajeDespedida := usuarios[i].ObtenerNombreUsuario() + " se ha desconectado del chat.\n";
        EnviarMensajeATodos(mensajeDespedida, descriptorCliente);
        usuarios := usuarios[..i] + usuarios[i + 1..];
      }
      outbox := outbox + [Close(descriptorCliente)];
    }

    /** The metrics block of `manejarCliente`: count the chunk and refresh an existing last-message time. */
    method ActualizarMetricas(descriptorCliente: int, ahora: int)
      modifies this`totalMensajes, this`tiemposUltimosMensajes
      ensures totalMensajes == old(totalMensajes) + 1
      ensures tiemposUltimosMensajes == ActualizarTiempo(old(tiemposUltimosMensajes), descriptorCliente, ahora)
    {
      totalMensajes := totalMensajes + 1;
      if descriptorCliente in tiemposUltimosMensajes {
        tiemposUltimosMensajes := tiemposUltimosMensajes[descriptorCliente := ahora];
      }
    }

    /**
     * One pass of the receive loop of `manejarCliente` for the user
     * `nombre`. A failed read disconnects with the intended effect of
     * `Desconectar`; the source as written blocks on its own mutex at this
     * point whenever the user is still listed (DisconnectAsWrittenBlocks).
     * Any other chunk, command or
     * not, is counted; then the prefixes are tried in order. `@salir`
     * closes the connection but leaves the user in the directory.
     * `sigue` says whether the loop goes on.
     */
    method ProcesarMensaje(descriptorCliente: int, nombre: string, chunk: string, ahora: int) returns (sigue: bool)
      modifies this`usuarios, this`outbox, this`totalMensajes, this`tiemposUltimosMensajes
      ensures chunk == [] ==>
        && !sigue
        && usuarios == RemoveFirst(old(usuarios), descriptorCliente)
        && outbox == old(outbox) + Despedida(old(usuarios), descriptorCliente) + [Close(descriptorCliente)]
        && totalMensajes == old(totalMensajes)
        && tiemposUltimosMensajes == old(tiemposUltimosMensajes)
      ensures chunk != [] ==>
        && sigue == (Classify(chunk) != Quit)
        && usuarios == old(usuarios)
        && totalMensajes == old(totalMensajes) + 1
        && tiemposUltimosMensajes == ActualizarTiempo(old(tiemposUltimosMensajes), descriptorCliente, ahora)
        && outbox == old(outbox) + Respuesta(old(usuarios), descriptorCliente, nombre, chunk)
    {
      if chunk == [] {
        Desconectar(descriptorCliente);
        sigue := false;
        return;
      }
      ActualizarMetricas(descriptorCliente, ahora);
      var mensaje := chunk;
      if Substr0(mensaje, 9) == "@usuarios" {
        EnviarListaUsuarios(descriptorCliente);
        sigue := true;
      } else if Substr0(mensaje, 9) == "@conexion" {
        EnviarDetallesConexion(descriptorCliente);
        sigue := true;
      } else if Substr0(mensaje, 6) == "@salir" {
        outbox := outbox + [Close(descriptorCliente)];
        sigue := false;
      } else if Substr0(mensaje, 2) == "@h" {
        outbox := outbox + [Send(descriptorCliente, HelpText)];
        sigue := true;
      } else {
        mensaje := nombre + ": " + mensaje;
        EnviarMensajeATodos(mensaje, descriptorCliente);
        sigue := true;
      }
    }
  }

  /** A broadcast from descriptor 5 skips every entry with that descriptor, the stale one included. */
  lemma BroadcastSkipsStaleSender(us: seq<Usuario>, m: string)
    requires |us| == 3 && us[0].descriptorSocket == 5 && us[1].descriptorSocket == 7 && us[2].descriptorSocket == 5
    ensures BroadcastSends(us, m, 5) == [Send(7, m)]
  {
    var p := us[..2];
    assert p[..1][..0] == [];
    assert BroadcastSends(p[..1], m, 5) == [];
    assert BroadcastSends(p, m, 5) == [Send(7, m)];
  }

  lemma ReuseFarewell(us: seq<Usuario>)
    requires us == [Usuario("ana", 5), Usuario("carla", 7), Usuario("bea", 5)]
    ensures RemoveFirst(us, 5) == us[1..]
    ensures Despedida(us, 5) == [Send(7, "ana se ha desconectado del chat.\n")]
  {
    assert FirstIndex(us, 5) == 0;
    assert us[0].nombreUsuario + " se ha desconectado del chat.\n" == "ana se ha desconectado del chat.\n";
    BroadcastSkipsStaleSender(us, us[0].nombreUsuario + " se ha desconectado del chat.\n");
  }

  /** A name that does not end in a blank, sent with a trailing newline, is stored without the newline. */
  lemma TrimmedNames(n: string)
    requires n == [] || !IsBlank(n[|n| - 1])
    ensures TrimRight(n + "\n") == n
  {
    var s := n + "\n";
    assert s[..|s| - 1] == n;
  }

  lemma ScenarioNamesTrimmed()
    ensures TrimRight("ana\n") == "ana" && TrimRight("carla\n") == "carla" && TrimRight("bea\n") == "bea"
  {
    TrimmedNames("ana");
    TrimmedNames("carla");
    TrimmedNames("bea");
    assert "ana" + "\n" == "ana\n" && "carla" + "\n" == "carla\n" && "bea" + "\n" == "bea\n";
  }

  /**
   * `@salir` leaves the entry in the directory. When the kernel hands the
   * freed descriptor to the next connection, that user's disconnect erases
   * the stale entry instead of its own, and the farewell carries the old
   * name.
   */
  method SalirThenDescriptorReuse() returns (directorio: seq<Usuario>, despedida: seq<Effect>)
    ensures directorio == [Usuario("carla", 7), Usuario("bea", 5)]
    ensures despedida == [Send(7, "ana se ha desconectado del chat.\n"), Close(5)]
  {
    ScenarioNamesTrimmed();
    ClassifyByPrefix("@salir");
    var s := new ServidorChat(5000, 0);
    var n := s.RegistrarUsuario(5, "ana\n", 1);
    n := s.RegistrarUsuario(7, "carla\n", 2);
    var sigue := s.ProcesarMensaje(5, "ana", "@salir", 3);
    n := s.RegistrarUsuario(5, "bea\n", 4);
    assert s.usuarios == [Usuario("ana", 5), Usuario("carla", 7), Usuario("bea", 5)];
    var antes := s.outbox;
    ReuseFarewell(s.usuarios);
    sigue := s.ProcesarMensaje(5, "bea", "", 5);
    ghost var d := [Send(7, "ana se ha desconectado del chat.\n"), Close(5)];
    assert s.outbox == antes + d;
    assert (antes + d)[|antes|..] == d;
    directorio := s.usuarios;
    despedida := s.outbox[|antes|..];
  }
}
