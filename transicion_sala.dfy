/** Room changes through doors and the cooldown that keeps a player standing
    on a door sensor from bouncing between two rooms. */
module TransicionSala {
  import opened Habitacion
  import opened Opcion
  import opened Eventos
  import opened Piso
  import opened ControlPuzzle
  import opened GestorSalas

  /** Frames during which door contacts are ignored after a door event is handled. */
  const BLOQUEO_FRAMES: int := 15

  /** What handling the door queue leaves: the current room, the cooldown,
      and the change `(anterior, nueva)` when there was one. */
  datatype Salida = Salida(sala: Habitacion, cooldown: int, cambio: Option<(Habitacion, Habitacion)>)

  /** Handling this frame's door queue. A locked room drops the queue; so
      does a running cooldown. Otherwise only the first event counts: its
      door is crossed when it leads somewhere, and in every case the
      cooldown restarts. */
  function Procesar(bloqueada: bool, sala: Habitacion, cooldown: int, pendientes: seq<EventoPuerta>,
                    destinos: map<(Habitacion, Direccion.Direccion), Habitacion>): (s: Salida)
    ensures s.cambio.Some? ==> !bloqueada && pendientes != [] && cooldown <= 0
    ensures s.cambio.Some? ==>
      && Cruce(destinos, sala, pendientes[0].puerta).Some?
      && s.sala == Cruce(destinos, sala, pendientes[0].puerta).value.0
      && s.cambio.value == (sala, s.sala)
    ensures !bloqueada && pendientes != [] && cooldown <= 0 && Cruce(destinos, sala, pendientes[0].puerta).Some?
            ==> s.cambio.Some?
    ensures s.cambio.None? ==> s.sala == sala
    ensures s.cooldown == if !bloqueada && pendientes != [] && cooldown <= 0 then BLOQUEO_FRAMES else cooldown
  {
    if bloqueada || pendientes == [] || cooldown > 0 then Salida(sala, cooldown, None)
    else
      match Cruce(destinos, sala, pendientes[0].puerta)
      case None => Salida(sala, BLOQUEO_FRAMES, None)
      case Some(c) => Salida(c.0, BLOQUEO_FRAMES, Some((sala, c.0)))
  }

  /** The end-of-frame countdown. */
  function Tick(cooldown: int): (r: int)
    ensures cooldown > 0 ==> r == cooldown - 1
    ensures cooldown <= 0 ==> r == cooldown
  {
    if cooldown > 0 then cooldown - 1 else cooldown
  }

  /** One frame's input to the door logic: whether the current room's doors
      are shut, and the door events queued during the physics step. */
  datatype Entrada = Entrada(bloqueada: bool, pendientes: seq<EventoPuerta>)

  /** One frame: the door queue is handled, then the cooldown counts down. */
  function Cuadro(sala: Habitacion, cooldown: int, e: Entrada,
                  destinos: map<(Habitacion, Direccion.Direccion), Habitacion>): Salida
  {
    var s := Procesar(e.bloqueada, sala, cooldown, e.pendientes, destinos);
    s.(cooldown := Tick(s.cooldown))
  }

  /** One frame changes room exactly when the room is open, no cooldown runs,
      a door event waits and its door leads somewhere. A frame that handles
      an event leaves fourteen frames of cooldown; any other frame only
      counts the cooldown down. */
  lemma CuadroExacto(sala: Habitacion, cooldown: int, e: Entrada,
                     destinos: map<(Habitacion, Direccion.Direccion), Habitacion>)
    ensures var c := Cuadro(sala, cooldown, e, destinos);
      var atiende := !e.bloqueada && e.pendientes != [] && cooldown <= 0;
      && (c.cambio.Some? <==> atiende && Cruce(destinos, sala, e.pendientes[0].puerta).Some?)
      && (c.cambio.Some? ==> c.cambio.value == (sala, c.sala)
                             && c.sala == Cruce(destinos, sala, e.pendientes[0].puerta).value.0)
      && (c.cambio.None? ==> c.sala == sala)
      && c.cooldown == if atiende then BLOQUEO_FRAMES - 1 else Tick(cooldown)
  {
  }

  /** Where a run of frames ends, and the room changes it made, in order. */
  datatype Recorrido = Recorrido(sala: Habitacion, cooldown: int, cambios: seq<(Habitacion, Habitacion)>)

  function Cuadros(sala: Habitacion, cooldown: int, es: seq<Entrada>,
                   destinos: map<(Habitacion, Direccion.Direccion), Habitacion>): Recorrido
    decreases |es|
  {
    if es == [] then Recorrido(sala, cooldown, [])
    else
      var s := Cuadro(sala, cooldown, es[0], destinos);
      var resto := Cuadros(s.sala, s.cooldown, es[1..], destinos);
      Recorrido(resto.sala, resto.cooldown, (if s.cambio.Some? then [s.cambio.value] else []) + resto.cambios)
  }

  /** The cooldown never goes negative and never exceeds its restart value
      less the frame's own tick. */
  lemma {:induction false} CooldownAcotado(sala: Habitacion, cooldown: int, es: seq<Entrada>,
                                           destinos: map<(Habitacion, Direccion.Direccion), Habitacion>)
    requires 0 <= cooldown <= BLOQUEO_FRAMES - 1
    ensures 0 <= Cuadros(sala, cooldown, es, destinos).cooldown <= BLOQUEO_FRAMES - 1
    decreases |es|
  {
    if es != [] {
      var s := Cuadro(sala, cooldown, es[0], destinos);
      CooldownAcotado(s.sala, s.cooldown, es[1..], destinos);
    }
  }

  /** A frame that changes room leaves fourteen frames of cooldown. */
  lemma TrasCambio(sala: Habitacion, cooldown: int, e: Entrada,
                   destinos: map<(Habitacion, Direccion.Direccion), Habitacion>)
    requires Cuadro(sala, cooldown, e, destinos).cambio.Some?
    ensures Cuadro(sala, cooldown, e, destinos).cooldown == BLOQUEO_FRAMES - 1
  {
  }

  /** While the cooldown runs, whatever the player touches, the room stays
      and the cooldown counts down one per frame. */
  lemma {:induction false} SinRebote(sala: Habitacion, cooldown: int, es: seq<Entrada>,
                                     destinos: map<(Habitacion, Direccion.Direccion), Habitacion>)
    requires |es| <= cooldown
    ensures Cuadros(sala, cooldown, es, destinos) == Recorrido(sala, cooldown - |es|, [])
    decreases |es|
  {
    if es != [] {
      SinRebote(sala, cooldown - 1, es[1..], destinos);
    }
  }

  /** No ping-pong: after a room change, the next fourteen frames change
      nothing, whatever door events they carry. */
  lemma CambiosEspaciados(sala: Habitacion, cooldown: int, e: Entrada, es: seq<Entrada>,
                          destinos: map<(Habitacion, Direccion.Direccion), Habitacion>)
    requires Cuadro(sala, cooldown, e, destinos).cambio.Some?
    requires |es| <= BLOQUEO_FRAMES - 1
    ensures var s := Cuadro(sala, cooldown, e, destinos);
      Cuadros(s.sala, s.cooldown, es, destinos) == Recorrido(s.sala, BLOQUEO_FRAMES - 1 - |es|, [])
  {
    TrasCambio(sala, cooldown, e, destinos);
    var s := Cuadro(sala, cooldown, e, destinos);
    SinRebote(s.sala, s.cooldown, es, destinos);
  }

  /** `cs` is a walk from `desde` to `hasta`: each change leaves the room the
      previous one entered. */
  predicate Encadenados(desde: Habitacion, cs: seq<(Habitacion, Habitacion)>, hasta: Habitacion)
    decreases |cs|
  {
    if cs == [] then desde == hasta
    else cs[0].0 == desde && Encadenados(cs[0].1, cs[1..], hasta)
  }

  /** The changes of a run of frames form a walk from the starting room to
      the room the run ends in. */
  lemma {:induction false} CambiosEncadenados(sala: Habitacion, cooldown: int, es: seq<Entrada>,
                                              destinos: map<(Habitacion, Direccion.Direccion), Habitacion>)
    ensures var r := Cuadros(sala, cooldown, es, destinos); Encadenados(sala, r.cambios, r.sala)
    decreases |es|
  {
    if es != [] {
      var s := Cuadro(sala, cooldown, es[0], destinos);
      CambiosEncadenados(s.sala, s.cooldown, es[1..], destinos);
      var resto := Cuadros(s.sala, s.cooldown, es[1..], destinos);
      if s.cambio.Some? {
        var cs := [s.cambio.value] + resto.cambios;
        assert cs[1..] == resto.cambios;
        assert Encadenados(sala, cs, resto.sala);
      } else {
        assert [] + resto.cambios == resto.cambios;
      }
    }
  }

  /** Whether some door of `a` leads to `b` on the floor. */
  ghost predicate Conectadas(destinos: map<(Habitacion, Direccion.Direccion), Habitacion>, a: Habitacion, b: Habitacion) {
    exists d :: (a, d) in destinos && destinos[(a, d)] == b
  }

  /** Every change in `cs` follows a connection of the floor. */
  ghost predicate PorPuertas(destinos: map<(Habitacion, Direccion.Direccion), Habitacion>, cs: seq<(Habitacion, Habitacion)>) {
    forall i :: 0 <= i < |cs| ==> Conectadas(destinos, cs[i].0, cs[i].1)
  }

  /** Every room change follows a connection of the floor. */
  lemma {:induction false} CambiosPorPuertas(sala: Habitacion, cooldown: int, es: seq<Entrada>,
                                             destinos: map<(Habitacion, Direccion.Direccion), Habitacion>)
    ensures PorPuertas(destinos, Cuadros(sala, cooldown, es, destinos).cambios)
    decreases |es|
  {
    if es != [] {
      var s := Cuadro(sala, cooldown, es[0], destinos);
      CambiosPorPuertas(s.sala, s.cooldown, es[1..], destinos);
      var resto := Cuadros(s.sala, s.cooldown, es[1..], destinos);
      if s.cambio.Some? {
        var cs := [s.cambio.value] + resto.cambios;
        var puerta := es[0].pendientes[0].puerta;
        var d := DireccionEfectiva(sala, puerta).value;
        assert (sala, d) in destinos && destinos[(sala, d)] == s.sala;
        assert Conectadas(destinos, cs[0].0, cs[0].1);
        forall i | 0 < i < |cs| ensures Conectadas(destinos, cs[i].0, cs[i].1) {
          assert cs[i] == resto.cambios[i - 1];
        }
        assert Cuadros(sala, cooldown, es, destinos).cambios == cs;
      } else {
        assert [] + resto.cambios == resto.cambios;
        assert Cuadros(sala, cooldown, es, destinos).cambios == resto.cambios;
      }
    }
  }

  /** Receives `(anterior, nueva)` for every room change. */
  class RegistroCambios {
    var cambios: seq<(Habitacion, Habitacion)>

    constructor ()
      ensures cambios == []
    {
      cambios := [];
    }

    method Aceptar(anterior: Habitacion, nueva: Habitacion)
      modifies this
      ensures cambios == old(cambios) + [(anterior, nueva)]
    {
      cambios := cambios + [(anterior, nueva)];
    }
  }

  /** The bookkeeping of a room change from `anterior` to `nueva`: the new
      room is discovered, the listener hears of the change, and the lock
      logic is told the room was entered. */
  method AlCambiarDeSala(anterior: Habitacion, nueva: Habitacion, controlPuzzle: ControlPuzzlePorSala?,
                         piso: Piso, notificarCambioSala: RegistroCambios?)
    requires controlPuzzle != null ==> controlPuzzle.Valid()
    modifies controlPuzzle, piso, notificarCambioSala
    ensures controlPuzzle != null ==> controlPuzzle.Valid()
    ensures piso.descubiertas == old(piso.descubiertas) + {nueva}
    ensures notificarCambioSala != null ==>
      notificarCambioSala.cambios == old(notificarCambioSala.cambios) + [(anterior, nueva)]
    ensures controlPuzzle != null ==> controlPuzzle.estados == TrasEntrar(old(controlPuzzle.estados), nueva)
  {
    piso.Descubrir(nueva);
    if notificarCambioSala != null {
      notificarCambioSala.Aceptar(anterior, nueva);
    }
    if controlPuzzle != null {
      controlPuzzle.AlEntrarASala(nueva);
    }
  }

  class SistemaTransicionSala {
    var framesBloqueoPuertas: int

    constructor ()
      ensures framesBloqueoPuertas == 0
    {
      framesBloqueoPuertas := 0;
    }

    function BloqueoActivo(): (r: bool)
      reads this
      ensures r <==> framesBloqueoPuertas > 0
    {
      framesBloqueoPuertas > 0
    }

    method TickCooldown()
      modifies this
      ensures framesBloqueoPuertas == Tick(old(framesBloqueoPuertas))
    {
      if framesBloqueoPuertas > 0 {
        framesBloqueoPuertas := framesBloqueoPuertas - 1;
      }
    }

    /** Handles the first pending door event, if the room is open and no
        cooldown runs, and returns the current room afterwards. On a change
        the new room is discovered, the listener hears of it and the lock
        logic is told the room was entered. The queue always ends empty. */
    method ProcesarPuertasPendientes(salaActual: Habitacion, puertasPendientes: Cola<EventoPuerta>,
                                     controlPuzzle: ControlPuzzlePorSala?, piso: Piso,
                                     notificarCambioSala: RegistroCambios?)
      returns (sala: Habitacion)
      requires controlPuzzle != null ==> controlPuzzle.Valid()
      modifies this, puertasPendientes, controlPuzzle, piso, notificarCambioSala
      ensures controlPuzzle != null ==> controlPuzzle.Valid()
      ensures puertasPendientes.elementos == []
      ensures var s := Procesar(old(controlPuzzle != null && controlPuzzle.EstaBloqueada(salaActual)), salaActual,
                                old(framesBloqueoPuertas), old(puertasPendientes.elementos), piso.destinos);
        && sala == s.sala
        && framesBloqueoPuertas == s.cooldown
        && piso.descubiertas == (if s.cambio.Some? then old(piso.descubiertas) + {sala} else old(piso.descubiertas))
        && (notificarCambioSala != null ==>
              notificarCambioSala.cambios
                == old(notificarCambioSala.cambios) + (if s.cambio.Some? then [s.cambio.value] else []))
        && (controlPuzzle != null ==>
              controlPuzzle.estados
                == if s.cambio.Some? then TrasEntrar(old(controlPuzzle.estados), sala) else old(controlPuzzle.estados))
    {
      sala := salaActual;
      var bloqueada := controlPuzzle != null && controlPuzzle.EstaBloqueada(salaActual);
      if !bloqueada && |puertasPendientes.elementos| > 0 && framesBloqueoPuertas <= 0 {
        var ev := puertasPendientes.elementos[0];
        var nueva := Cruce(piso.destinos, salaActual, ev.puerta);
        if nueva.Some? {
          sala := nueva.value.0;
          AlCambiarDeSala(salaActual, sala, controlPuzzle, piso, notificarCambioSala);
        }
        framesBloqueoPuertas := BLOQUEO_FRAMES;
      }
      // A locked room and a running cooldown drop the queue; an empty one stays empty.
      puertasPendientes.elementos := [];
    }
  }
}
