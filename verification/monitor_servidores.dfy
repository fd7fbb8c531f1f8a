/**
 * The fleet supervisor: the telemetry collector and reporter that share one
 * FIFO queue, the per-slot restart flags with the slot step and the monitor
 * pass, and the command-line check of `main`. Port probes and the exit
 * status of a child process are inputs; each loop pass returns the sleep
 * it ends or starts with as a duration in seconds (1, 5 or 0 for a slot, 5
 * for the monitor, 7 for the reporter); each locked region or loop pass is
 * one atomic step.
 */
module MonitorServidores {
  import opened Wrappers
  import opened Decimal
  import opened Lineas
  import ServidorChat

  // ---------------------------------------------------------------------
  // Telemetry payloads

  /** `std::string(buffer)`: the received bytes up to the first NUL. */
  function HastaNul(datos: string): (r: string)
    ensures r <= datos
    ensures '\0' !in r
    ensures |r| < |datos| ==> datos[|r|] == '\0'
  {
    if datos == [] || datos[0] == '\0' then [] else [datos[0]] + HastaNul(datos[1..])
  }

  lemma HastaNulSinNul(datos: string)
    requires '\0' !in datos
    ensures HastaNul(datos) == datos
  {
  }

  /**
   * A chat server's user-count datagram reaches the queue as exactly one
   * line: the label and the count, without the newline.
   */
  lemma UserCountDatagramIsOneLine(n: nat)
    ensures Tokens(HastaNul(ServidorChat.LineaNumeroUsuarios(n))) == [ServidorChat.CountLabel + NatToString(n)]
  {
    var line := ServidorChat.CountLabel + NatToString(n);
    var digits := NatToString(n);
    assert '\n' !in ServidorChat.CountLabel && '\0' !in ServidorChat.CountLabel;
    assert forall k :: 0 <= k < |digits| ==> IsDigit(digits[k]);
    assert '\n' !in line && '\0' !in line;
    assert ServidorChat.LineaNumeroUsuarios(n) == line + "\n";
    HastaNulSinNul(line + "\n");
    TokensOfLine(line);
  }

  // ---------------------------------------------------------------------
  // Restart flags

  /** The command `start_server` runs for a slot. */
  function ComandoServidor(port: int): string {
    "./build/chat servidor " + IntToString(port)
  }

  /** The command is the executable, the mode `servidor`, and the port, which reads back unchanged. */
  lemma ComandoServidorRoundTrip(port: int)
    ensures "./build/chat servidor " <= ComandoServidor(port)
    ensures IsIntText(ComandoServidor(port)[22..])
    ensures ParseInt(ComandoServidor(port)[22..]) == port
  {
    assert |"./build/chat servidor "| == 22;
    assert ComandoServidor(port)[22..] == IntToString(port);
    IntToStringRoundTrip(port);
  }

  /** A slot's flag after one pass of the loop in `start_server`, given the probe and the status `std::system` returned. */
  function SiguienteBandera(activo: bool, puertoDisponible: bool, resultado: int): bool {
    if activo && puertoDisponible && resultado != 0 then false else activo
  }

  /**
   * With the flag up and the port free, a failed child lowers the flag and
   * a clean exit keeps it up (so the slot respawns). Otherwise the flag is
   * unchanged. The slot step never raises a flag.
   */
  lemma SlotFlagTransitions(activo: bool, puertoDisponible: bool, resultado: int)
    ensures activo && puertoDisponible ==> (SiguienteBandera(activo, puertoDisponible, resultado) <==> resultado == 0)
    ensures !(activo && puertoDisponible) ==> SiguienteBandera(activo, puertoDisponible, resultado) == activo
    ensures SiguienteBandera(activo, puertoDisponible, resultado) ==> activo
  {
  }

  // ---------------------------------------------------------------------
  // The argument check of `main`

  /**
   * `main`'s check as written. `args` is `argv[1..]` already converted by
   * `std::stoi`, so `argc == |args| + 1`.
   */
  predicate ArgumentosAceptados(args: seq<int>) {
    var argc := |args| + 1;
    if argc < 3 || (argc - 1) % 2 != 0 then false
    else !(args[0] <= 0 || argc != 2 + args[0])
  }

  /** The check without the parity test: a positive count followed by that many ports. */
  predicate ArgumentosCorregidos(args: seq<int>) {
    |args| >= 2 && args[0] > 0 && |args| == 1 + args[0]
  }

  /** As written, `main` accepts a fleet exactly when it is well formed and its size is odd. */
  lemma ArgumentosAceptadosSoloImpares(args: seq<int>)
    ensures ArgumentosAceptados(args) <==> ArgumentosCorregidos(args) && args[0] % 2 == 1
  {
  }

  /** Two servers on two ports, the smallest even fleet, are refused. */
  lemma FlotaParRechazada()
    ensures ArgumentosCorregidos([2, 5000, 5001])
    ensures !ArgumentosAceptados([2, 5000, 5001])
  {
  }

  /** The corrected check accepts every fleet size, and the ports are the rest of the arguments. */
  lemma ArgumentosCorregidosAceptanToda(n: int, ports: seq<int>)
    requires n > 0 && |ports| == n
    ensures ArgumentosCorregidos([n] + ports)
    ensures ([n] + ports)[1..] == ports
  {
  }

  lemma AceptadosSonCorregidos(args: seq<int>)
    ensures ArgumentosAceptados(args) ==> ArgumentosCorregidos(args)
  {
  }

  // ---------------------------------------------------------------------
  // The supervisor's shared state

  class Monitor {
    /** The ports, in argument order; slot `i` serves `ports[i]`. */
    const ports: seq<int>
    /** `server_active`: one restart flag per slot. */
    const serverActive: array<bool>
    /** `message_queue`: telemetry lines waiting for the reporter. */
    var messageQueue: seq<string>
    /** The lines the reporter has printed. */
    var console: seq<string>

    predicate Valid() {
      serverActive.Length == |ports|
    }

    /** `main` after its argument check: the ports from `argv[2..]` in order, and every flag up. */
    constructor (args: seq<int>)
      requires ArgumentosCorregidos(args)
      ensures Valid() && fresh(serverActive)
      ensures ports == args[1..] && serverActive.Length == args[0]
      ensures forall k :: 0 <= k < serverActive.Length ==> serverActive[k]
      ensures messageQueue == [] && console == []
    {
      var ps: seq<int> := [];
      var i := 2;
      while i < |args| + 1
        invariant 2 <= i <= |args| + 1
        invariant ps == args[1..i - 1]
      {
        ps := ps + [args[i - 1]];
        i := i + 1;
      }
      var flags := new bool[args[0]];
      var k := 0;
      while k < args[0]
        invariant 0 <= k <= args[0]
        invariant forall j :: 0 <= j < k ==> flags[j]
      {
        flags[k] := true;
        k := k + 1;
      }
      ports := ps;
      serverActive := flags;
      messageQueue := [];
      console := [];
    }

    /**
     * One pass of the loop in `start_server` for slot `i`: with the flag up
     * and the port free, the child is spawned and its status decides the
     * flag. Returns the command spawned, if any, and the sleep that follows.
     */
    method StartServerStep(i: nat, puertoDisponible: bool, resultado: int) returns (lanzado: Option<string>, espera: nat)
      requires Valid() && i < serverActive.Length
      modifies serverActive
      ensures serverActive[i] == SiguienteBandera(old(serverActive[i]), puertoDisponible, resultado)
      ensures forall k :: 0 <= k < serverActive.Length && k != i ==> serverActive[k] == old(serverActive[k])
      ensures lanzado == if old(serverActive[i]) && puertoDisponible then Some(ComandoServidor(ports[i])) else None
      ensures espera == if !old(serverActive[i]) then 1
                        else if !puertoDisponible then 5
                        else if resultado != 0 then 5
                        else 0
    {
      if serverActive[i] {
        if puertoDisponible {
          lanzado := Some(ComandoServidor(ports[i]));
          if resultado != 0 {
            serverActive[i] := false;
            espera := 5;
          } else {
            espera := 0;
          }
        } else {
          lanzado := None;
          espera := 5;
        }
      } else {
        lanzado := None;
        espera := 1;
      }
    }

    /** One pass of `monitor_servers`: every lowered flag is raised; afterwards all are up. */
    method MonitorServers() returns (espera: nat)
      requires Valid()
      modifies serverActive
      ensures forall k :: 0 <= k < serverActive.Length ==> serverActive[k]
      ensures espera == 5
    {
      for k := 0 to serverActive.Length
        invariant forall j :: 0 <= j < k ==> serverActive[j]
      {
        if !serverActive[k] {
          serverActive[k] := true;
        }
      }
      espera := 5;
    }

    /**
     * A crash followed by a monitor pass: the next step of the slot, with
     * its port free, spawns the server again.
     */
    method CrashThenRestart(i: nat) returns (relanzado: Option<string>)
      requires Valid() && i < serverActive.Length && serverActive[i]
      modifies serverActive
      ensures relanzado == Some(ComandoServidor(ports[i]))
      ensures serverActive[i]
    {
      var lanzado, espera := StartServerStep(i, true, 256);
      espera := MonitorServers();
      relanzado, espera := StartServerStep(i, true, 0);
    }

    /**
     * One datagram handled by `recibirInformacionServidor`: the payload up
     * to its first NUL is cut at each newline and every non-empty token
     * goes to the back of the queue, in order. A receive error or an empty
     * datagram (`datos == []`) adds nothing. A 1024-byte datagram would make
     * the source write past its buffer, so payloads are shorter.
     */
    method RecibirInformacionServidor(datos: string)
      requires |datos| < 1024
      modifies this`messageQueue
      ensures messageQueue == old(messageQueue) + Tokens(HastaNul(datos))
    {
      if |datos| > 0 {
        var receivedData := HastaNul(datos);
        var token := "";
        var i := 0;
        while i < |receivedData|
          invariant 0 <= i <= |receivedData|
          invariant messageQueue == old(messageQueue) + Scan(receivedData[..i]).0
          invariant token == Scan(receivedData[..i]).1
        {
          assert receivedData[..i + 1][..i] == receivedData[..i];
          if receivedData[i] == '\n' {
            if token != [] {
              messageQueue := messageQueue + [token];
            }
            token := "";
          } else {
            token := token + [receivedData[i]];
          }
          i := i + 1;
        }
        assert receivedData[..i] == receivedData;
        if token != [] {
          messageQueue := messageQueue + [token];
        }
      }
    }

    /** One tick of `mostrarInformacionServidor`: every queued line is printed in FIFO order and the queue is left empty. */
    method MostrarInformacionServidor() returns (espera: nat)
      modifies this`messageQueue, this`console
      ensures espera == 7
      ensures console == old(console) + old(messageQueue)
      ensures messageQueue == []
    {
      espera := 7;
      while messageQueue != []
        invariant console + messageQueue == old(console) + old(messageQueue)
        decreases |messageQueue|
      {
        assert console + messageQueue == (console + [messageQueue[0]]) + messageQueue[1..];
        console := console + [messageQueue[0]];
        messageQueue := messageQueue[1..];
      }
    }
  }
}
