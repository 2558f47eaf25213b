/** The gameplay container: the current room, the door cooldown, the
    room-change listeners, and the event queues that the physics contact
    callbacks fill and the frame loop drains. */
module Partida {
  import opened Habitacion
  import opened Opcion
  import opened Eventos
  import opened Entidades
  import opened Piso
  import opened ControlPuzzle
  import opened GestorSalas
  import opened TransicionSala
  import ProcesadorColas

  /** No listener appears twice. */
  predicate SinRepetir(ls: seq<ListenerCambioSala>) {
    forall i, j :: 0 <= i < j < |ls| ==> ls[i] != ls[j]
  }

  /** The calls `salaCambiada(anterior, nueva)` one room change makes, one
      per registered listener, in registration order. */
  function Avisos(ls: seq<ListenerCambioSala>, anterior: Habitacion, nueva: Habitacion)
    : (r: seq<(ListenerCambioSala, Habitacion, Habitacion)>)
    ensures |r| == |ls|
    ensures forall i :: 0 <= i < |ls| ==> r[i] == (ls[i], anterior, nueva)
    decreases |ls|
  {
    if ls == [] then [] else Avisos(ls[..|ls| - 1], anterior, nueva) + [(ls[|ls| - 1], anterior, nueva)]
  }

  /** With no repeated listener, every listener hears of a change exactly once. */
  lemma CadaListenerUnaVez(ls: seq<ListenerCambioSala>, anterior: Habitacion, nueva: Habitacion, l: ListenerCambioSala)
    requires SinRepetir(ls)
    ensures var r := Avisos(ls, anterior, nueva);
      (l in ls ==> exists i :: 0 <= i < |r| && r[i] == (l, anterior, nueva))
      && (forall i, j :: 0 <= i < |r| && 0 <= j < |r| && r[i].0 == l && r[j].0 == l ==> i == j)
      && (l !in ls ==> forall i :: 0 <= i < |r| ==> r[i].0 != l)
  {
    var r := Avisos(ls, anterior, nueva);
    if l in ls {
      var k :| 0 <= k < |ls| && ls[k] == l;
      assert r[k] == (l, anterior, nueva);
    }
    forall i, j | 0 <= i < |r| && 0 <= j < |r| && r[i].0 == l && r[j].0 == l ensures i == j {
      assert ls[i] == l && ls[j] == l;
    }
    if l !in ls {
      forall i | 0 <= i < |r| ensures r[i].0 != l {
        assert r[i].0 == ls[i];
      }
    }
  }

  /** The effects of the frame loop on code outside the model: the
      listeners' calls, the items handed to the pickup routine, the players
      hit, and the unlock callbacks. */
  class Registro {
    var avisos: seq<(ListenerCambioSala, Habitacion, Habitacion)>
    var recogidos: seq<EventoPickup>
    var heridos: seq<int>
    var desbloqueos: nat

    constructor ()
      ensures avisos == [] && recogidos == [] && heridos == [] && desbloqueos == 0
    {
      avisos := [];
      recogidos := [];
      heridos := [];
      desbloqueos := 0;
    }
  }

  class Partida {
    const piso: Piso
    const controlPuzzle: ControlPuzzlePorSala
    const registro: Registro
    var salaActual: Habitacion
    /** Cooldown against door ping-pong, in frames. */
    var framesBloqueoPuertas: int
    var listenersCambioSala: seq<ListenerCambioSala>

    const puertasPendientes: Cola<EventoPuerta>
    const itemsPendientes: Cola<EventoPickup>
    const eventosBoton: Cola<EventoBoton>
    const itemsYaProcesados: Conjunto<Item>
    const daniosPendientes: Cola<EventoDanio>
    const jugadoresDanioFrame: Conjunto<int>

    /** The lock table is well formed, the cooldown stays within its
        restart value, no listener is registered twice, no door event waits
        while the cooldown runs, and every waiting door event belongs to
        the current room. */
    ghost predicate Valid()
      reads this, controlPuzzle, puertasPendientes
    {
      && controlPuzzle.Valid()
      && 0 <= framesBloqueoPuertas <= BLOQUEO_FRAMES
      && SinRepetir(listenersCambioSala)
      && (framesBloqueoPuertas > 0 ==> puertasPendientes.elementos == [])
      && (forall ev :: ev in puertasPendientes.elementos ==>
            ev.puerta.origen == salaActual || ev.puerta.destino == salaActual)
    }

    /** Whether the door logic is locked out of the current room this frame. */
    function Bloqueada(): bool
      reads this, controlPuzzle
    {
      controlPuzzle.EstaBloqueada(salaActual)
    }

    /** The logical part of `init()`: start in the floor's first room,
        discover it, and tell a new lock table the room was entered. */
    constructor (piso: Piso)
      modifies piso
      ensures Valid()
      ensures this.piso == piso && salaActual == piso.salaInicio
      ensures piso.descubiertas == old(piso.descubiertas) + {piso.salaInicio}
      ensures controlPuzzle.estados == TrasEntrar(map[], piso.salaInicio)
      ensures framesBloqueoPuertas == 0 && listenersCambioSala == []
      ensures puertasPendientes.elementos == [] && itemsPendientes.elementos == []
      ensures eventosBoton.elementos == [] && daniosPendientes.elementos == []
      ensures registro.avisos == [] && registro.recogidos == [] && registro.heridos == [] && registro.desbloqueos == 0
    {
      this.piso := piso;
      salaActual := piso.salaInicio;
      framesBloqueoPuertas := 0;
      listenersCambioSala := [];
      controlPuzzle := new ControlPuzzlePorSala();
      registro := new Registro();
      puertasPendientes := new Cola<EventoPuerta>();
      itemsPendientes := new Cola<EventoPickup>();
      eventosBoton := new Cola<EventoBoton>();
      itemsYaProcesados := new Conjunto<Item>();
      daniosPendientes := new Cola<EventoDanio>();
      jugadoresDanioFrame := new Conjunto<int>();
      new;
      piso.Descubrir(salaActual);
      controlPuzzle.AlEntrarASala(salaActual);
    }

    // ----- listeners -----

    /** A missing or already registered listener is ignored. */
    method AgregarListenerCambioSala(listener: ListenerCambioSala?)
      requires Valid()
      modifies this
      ensures Valid()
      ensures listenersCambioSala
        == if listener != null && listener !in old(listenersCambioSala)
           then old(listenersCambioSala) + [listener] else old(listenersCambioSala)
      ensures salaActual == old(salaActual) && framesBloqueoPuertas == old(framesBloqueoPuertas)
    {
      if listener != null && listener !in listenersCambioSala {
        listenersCambioSala := listenersCambioSala + [listener];
      }
    }

    /** Tells every listener, in registration order, of the change. */
    method NotificarCambioSala(salaAnterior: Habitacion, salaNueva: Habitacion)
      modifies registro
      ensures registro.avisos == old(registro.avisos) + Avisos(listenersCambioSala, salaAnterior, salaNueva)
      ensures registro.recogidos == old(registro.recogidos) && registro.heridos == old(registro.heridos)
      ensures registro.desbloqueos == old(registro.desbloqueos)
    {
      var i := 0;
      while i < |listenersCambioSala|
        invariant 0 <= i <= |listenersCambioSala|
        invariant registro.avisos == old(registro.avisos) + Avisos(listenersCambioSala[..i], salaAnterior, salaNueva)
        invariant registro.recogidos == old(registro.recogidos) && registro.heridos == old(registro.heridos)
        invariant registro.desbloqueos == old(registro.desbloqueos)
      {
        var listener := listenersCambioSala[i];
        assert listenersCambioSala[..i + 1][..i] == listenersCambioSala[..i];
        registro.avisos := registro.avisos + [(listener, salaAnterior, salaNueva)];
        i := i + 1;
      }
      assert listenersCambioSala[..i] == listenersCambioSala;
    }

    // ----- contacts to queues -----

    /** A door contact: ignored during the cooldown, without a door or a
        player (`jugadorId == -1`), or for a door of neither side of the
        current room. */
    method EncolarContactoPuerta(puerta: Option<DatosPuerta>, jugadorId: int)
      requires Valid()
      modifies puertasPendientes
      ensures Valid()
      ensures puertasPendientes.elementos
        == if framesBloqueoPuertas <= 0 && puerta.Some? && jugadorId != -1
              && (salaActual == puerta.value.origen || salaActual == puerta.value.destino)
           then old(puertasPendientes.elementos) + [EventoPuerta(puerta.value, jugadorId)]
           else old(puertasPendientes.elementos)
    {
      if framesBloqueoPuertas > 0 {
        return;
      }
      if puerta.None? {
        return;
      }
      if jugadorId == -1 {
        return;
      }
      var p := puerta.value;
      if salaActual == p.origen || salaActual == p.destino {
        puertasPendientes.elementos := puertasPendientes.elementos + [EventoPuerta(p, jugadorId)];
      }
    }

    /** An item contact: ignored without a player or without an item. */
    method EncolarPickup(item: Item?, jugadorId: int)
      modifies itemsPendientes
      ensures itemsPendientes.elementos
        == if item != null && jugadorId != -1
           then old(itemsPendientes.elementos) + [EventoPickup(item, jugadorId)]
           else old(itemsPendientes.elementos)
    {
      if jugadorId == -1 {
        return;
      }
      if item != null {
        itemsPendientes.elementos := itemsPendientes.elementos + [EventoPickup(item, jugadorId)];
      }
    }

    /** A button contact starting (`down`) or ending: ignored without a
        player or without a button. */
    method EncolarBoton(boton: Option<DatosBoton>, jugadorId: int, down: bool)
      modifies eventosBoton
      ensures eventosBoton.elementos
        == if boton.Some? && jugadorId != -1
           then old(eventosBoton.elementos) + [EventoBoton(boton.value, jugadorId, down)]
           else old(eventosBoton.elementos)
    {
      if jugadorId == -1 {
        return;
      }
      if boton.Some? {
        eventosBoton.elementos := eventosBoton.elementos + [EventoBoton(boton.value, jugadorId, down)];
      }
    }

    /** A hit on player `jugadorId`; ids below one are ignored. */
    method EncolarDanioJugador(jugadorId: int)
      modifies daniosPendientes
      ensures daniosPendientes.elementos
        == if jugadorId <= 0 then old(daniosPendientes.elementos)
           else old(daniosPendientes.elementos) + [EventoDanio(jugadorId)]
    {
      if jugadorId <= 0 {
        return;
      }
      daniosPendientes.elementos := daniosPendientes.elementos + [EventoDanio(jugadorId)];
    }

    // ----- the frame loop -----

    /** The door half of a frame, as `TransicionSala.Procesar` describes it;
        on a change every listener hears of it. */
    method ProcesarPuertasPendientes()
      requires Valid()
      modifies this, puertasPendientes, controlPuzzle, piso, registro
      ensures Valid()
      ensures puertasPendientes.elementos == []
      ensures listenersCambioSala == old(listenersCambioSala)
      ensures var s := Procesar(old(Bloqueada()), old(salaActual), old(framesBloqueoPuertas),
                                old(puertasPendientes.elementos), piso.destinos);
        && salaActual == s.sala
        && framesBloqueoPuertas == s.cooldown
        && piso.descubiertas == (if s.cambio.Some? then old(piso.descubiertas) + {salaActual} else old(piso.descubiertas))
        && registro.avisos == old(registro.avisos)
             + (if s.cambio.Some? then Avisos(listenersCambioSala, old(salaActual), salaActual) else [])
        && controlPuzzle.estados
             == (if s.cambio.Some? then TrasEntrar(old(controlPuzzle.estados), salaActual) else old(controlPuzzle.estados))
      ensures registro.recogidos == old(registro.recogidos) && registro.heridos == old(registro.heridos)
      ensures registro.desbloqueos == old(registro.desbloqueos)
    {
      if controlPuzzle.EstaBloqueada(salaActual) {
        puertasPendientes.elementos := [];
        return;
      }
      // Nothing waiting, or the cooldown running: the queue ends empty (the
      // invariant already keeps it empty while the cooldown runs).
      if |puertasPendientes.elementos| == 0 || framesBloqueoPuertas > 0 {
        puertasPendientes.elementos := [];
        return;
      }
      var ev := puertasPendientes.elementos[0];
      var nueva := Cruce(piso.destinos, salaActual, ev.puerta);
      if nueva.Some? {
        var anterior := salaActual;
        salaActual := nueva.value.0;
        piso.Descubrir(salaActual);
        NotificarCambioSala(anterior, salaActual);
        controlPuzzle.AlEntrarASala(salaActual);
      }
      framesBloqueoPuertas := BLOQUEO_FRAMES;
      puertasPendientes.elementos := [];
    }

    /** Each item touched this frame goes to the pickup routine once. */
    method ProcesarItemsPendientes()
      modifies itemsPendientes, itemsYaProcesados, registro
      ensures itemsPendientes.elementos == []
      ensures registro.recogidos
        == old(registro.recogidos) + ProcesadorColas.Primeros(old(itemsPendientes.elementos), ProcesadorColas.ItemDe)
      ensures registro.avisos == old(registro.avisos) && registro.heridos == old(registro.heridos)
      ensures registro.desbloqueos == old(registro.desbloqueos)
    {
      var recogidos := ProcesadorColas.ProcesarItemsPendientes(itemsPendientes, itemsYaProcesados);
      registro.recogidos := registro.recogidos + recogidos;
    }

    /** The button events of this frame, applied to the lock of the current room. */
    method ProcesarBotonesPendientes()
      requires Valid()
      modifies eventosBoton, controlPuzzle, registro
      ensures Valid()
      ensures eventosBoton.elementos == []
      ensures controlPuzzle.estados
        == ProcesadorColas.TrasBotones(old(controlPuzzle.estados), salaActual, old(eventosBoton.elementos))
      ensures registro.desbloqueos
        == old(registro.desbloqueos)
           + (if !ResueltaEn(old(controlPuzzle.estados), salaActual) && ResueltaEn(controlPuzzle.estados, salaActual)
              then 1 else 0)
      ensures registro.avisos == old(registro.avisos) && registro.recogidos == old(registro.recogidos)
      ensures registro.heridos == old(registro.heridos)
    {
      var desbloqueos := ProcesadorColas.ProcesarBotonesPendientes(eventosBoton, salaActual, controlPuzzle, []);
      registro.desbloqueos := registro.desbloqueos + desbloqueos;
    }

    /** Each player hit this frame takes at most one hit; `apto(id)` says
        whether player `id` exists, is alive, not dying, not immune and has
        a body. */
    method ProcesarDaniosPendientes(apto: int -> bool)
      modifies daniosPendientes, jugadoresDanioFrame, registro
      ensures daniosPendientes.elementos == []
      ensures registro.heridos
        == old(registro.heridos)
           + ProcesadorColas.Aptos(ProcesadorColas.Primeros(old(daniosPendientes.elementos), ProcesadorColas.IdDe), apto)
      ensures registro.avisos == old(registro.avisos) && registro.recogidos == old(registro.recogidos)
      ensures registro.desbloqueos == old(registro.desbloqueos)
    {
      var heridos := ProcesadorColas.ProcesarDaniosPendientes(daniosPendientes, jugadoresDanioFrame, apto);
      registro.heridos := registro.heridos + heridos;
    }

    /** The logical part of one frame after the physics step: doors, items,
        buttons and hits, in that order, then the door cooldown counts down.
        The room and the cooldown follow `TransicionSala.Cuadro`, and every
        queue ends empty. Because doors come first, the button events are
        applied to the room the frame ends in, after that room's entry hook,
        and the unlock callback is measured from the table the door half left. */
    method Render(apto: int -> bool)
      requires Valid()
      modifies this, puertasPendientes, itemsPendientes, itemsYaProcesados, eventosBoton,
               daniosPendientes, jugadoresDanioFrame, controlPuzzle, piso, registro
      ensures Valid()
      ensures var c := Cuadro(old(salaActual), old(framesBloqueoPuertas),
                              TransicionSala.Entrada(old(Bloqueada()), old(puertasPendientes.elementos)), piso.destinos);
        salaActual == c.sala && framesBloqueoPuertas == c.cooldown
      ensures listenersCambioSala == old(listenersCambioSala)
      ensures var s := Procesar(old(Bloqueada()), old(salaActual), old(framesBloqueoPuertas),
                                old(puertasPendientes.elementos), piso.destinos);
        && piso.descubiertas == (if s.cambio.Some? then old(piso.descubiertas) + {s.sala} else old(piso.descubiertas))
        && registro.avisos == old(registro.avisos)
             + (if s.cambio.Some? then Avisos(listenersCambioSala, old(salaActual), s.sala) else [])
      ensures var s := Procesar(old(Bloqueada()), old(salaActual), old(framesBloqueoPuertas),
                                old(puertasPendientes.elementos), piso.destinos);
        var tras := if s.cambio.Some? then TrasEntrar(old(controlPuzzle.estados), s.sala) else old(controlPuzzle.estados);
        && controlPuzzle.estados == ProcesadorColas.TrasBotones(tras, s.sala, old(eventosBoton.elementos))
        && registro.desbloqueos
             == old(registro.desbloqueos)
                + (if !ResueltaEn(tras, s.sala) && ResueltaEn(controlPuzzle.estados, s.sala) then 1 else 0)
      ensures puertasPendientes.elementos == [] && itemsPendientes.elementos == []
      ensures eventosBoton.elementos == [] && daniosPendientes.elementos == []
      ensures registro.recogidos
        == old(registro.recogidos) + ProcesadorColas.Primeros(old(itemsPendientes.elementos), ProcesadorColas.ItemDe)
      ensures registro.heridos
        == old(registro.heridos)
           + ProcesadorColas.Aptos(ProcesadorColas.Primeros(old(daniosPendientes.elementos), ProcesadorColas.IdDe), apto)
    {
      ProcesarPuertasPendientes();
      ProcesarItemsPendientes();
      ProcesarBotonesPendientes();
      ProcesarDaniosPendientes(apto);
      if framesBloqueoPuertas > 0 {
        framesBloqueoPuertas := framesBloqueoPuertas - 1;
      }
    }
  }
}
