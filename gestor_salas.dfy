/** Crossing a door: which way the player is going, which room that leads to,
    and where in the new room the player is put down. */
module GestorSalas {
  import opened Habitacion
  import opened Direccion
  import opened Opcion
  import opened Eventos
  import opened Entidades
  import opened Piso

  /** How far inside the room, from the entry door, the player lands, so that
      the door sensor is not touched again on arrival. */
  const DESPLAZAMIENTO: int := 64

  /** The way out of `sala` through `puerta`: the door's own direction from
      its origin, the opposite one from its destination; `None` when the
      door belongs to neither side of `sala`. */
  function DireccionEfectiva(sala: Habitacion, puerta: DatosPuerta): (r: Option<Direccion>)
    ensures r.Some? <==> sala == puerta.origen || sala == puerta.destino
    ensures sala == puerta.origen ==> r == Some(puerta.direccion)
    ensures sala != puerta.origen && sala == puerta.destino ==> r == Some(Opuesta(puerta.direccion))
  {
    if sala == puerta.origen then Some(puerta.direccion)
    else if sala == puerta.destino then Some(Opuesta(puerta.direccion))
    else None
  }

  /** Crossing one door from either side goes opposite ways. */
  lemma {:induction false} SentidosOpuestos(puerta: DatosPuerta)
    requires puerta.origen != puerta.destino
    ensures DireccionEfectiva(puerta.destino, puerta).value
         == Opuesta(DireccionEfectiva(puerta.origen, puerta).value)
    ensures DireccionEfectiva(puerta.origen, puerta).value
         == Opuesta(DireccionEfectiva(puerta.destino, puerta).value)
  {
    OpuestaInvolutiva(puerta.direccion);
  }

  /** The lower-left corner of `sala` in world units. */
  function Base(sala: Habitacion): (int, int) {
    (sala.gridX * sala.ancho, sala.gridY * sala.alto)
  }

  /** One step of `DESPLAZAMIENTO` from a door on side `entrada` towards the
      room's inside. */
  function HaciaDentro(entrada: Direccion): (int, int) {
    match entrada
    case NORTE => (0, -DESPLAZAMIENTO)
    case SUR => (0, DESPLAZAMIENTO)
    case ESTE => (-DESPLAZAMIENTO, 0)
    case OESTE => (DESPLAZAMIENTO, 0)
  }

  /** Where the player lands entering `sala` through side `entrada`: just
      inside that door, or the room's centre when there is no door there. */
  function PosicionLlegada(sala: Habitacion, entrada: Direccion): (r: (int, int))
    ensures !sala.TienePuerta(entrada) ==>
      r == (Base(sala).0 + sala.ancho / 2, Base(sala).1 + sala.alto / 2)
  {
    var b := Base(sala);
    if !sala.TienePuerta(entrada) then (b.0 + sala.ancho / 2, b.1 + sala.alto / 2)
    else
      var ep := sala.puertas[entrada];
      var m := HaciaDentro(entrada);
      (b.0 + ep.localX + m.0, b.1 + ep.localY + m.1)
  }

  /** The landing point is strictly inside the room entered, so it lies in
      that room's grid cell. */
  lemma LlegadaDentro(sala: Habitacion, entrada: Direccion)
    ensures var r := PosicionLlegada(sala, entrada);
      Base(sala).0 < r.0 < Base(sala).0 + sala.ancho && Base(sala).1 < r.1 < Base(sala).1 + sala.alto
    ensures PosicionLlegada(sala, entrada).0 / sala.ancho == sala.gridX
    ensures PosicionLlegada(sala, entrada).1 / sala.alto == sala.gridY
  {
    RectanguloFuente(sala);
    CeldaSegunId(sala);
    PuertasBienFormadas(sala, entrada);
    var r := PosicionLlegada(sala, entrada);
    DivisionEnCelda(r.0, sala.gridX);
    DivisionEnCelda(r.1, sala.gridY);
  }

  lemma DivisionEnCelda(x: int, g: int)
    requires g * 512 < x < g * 512 + 512
    ensures x / 512 == g
  {
  }

  /** Through a door, the player lands on the door's centre line, exactly
      `DESPLAZAMIENTO` away from the door, on the room's side of it. */
  lemma LlegadaFrenteAPuerta(sala: Habitacion, entrada: Direccion)
    requires sala.TienePuerta(entrada)
    ensures var r := PosicionLlegada(sala, entrada);
      var puerta := (Base(sala).0 + OffsetDeLado(entrada).0, Base(sala).1 + OffsetDeLado(entrada).1);
      match entrada
      case NORTE => r == (puerta.0, puerta.1 - DESPLAZAMIENTO)
      case SUR => r == (puerta.0, puerta.1 + DESPLAZAMIENTO)
      case ESTE => r == (puerta.0 - DESPLAZAMIENTO, puerta.1)
      case OESTE => r == (puerta.0 + DESPLAZAMIENTO, puerta.1)
  {
    PuertasBienFormadas(sala, entrada);
  }

  /** The room reached through `puerta` from `sala` on the floor `destinos`,
      with the side it is entered by. */
  function Cruce(destinos: map<(Habitacion, Direccion), Habitacion>, sala: Habitacion, puerta: DatosPuerta)
    : (r: Option<(Habitacion, Direccion)>)
    ensures r.Some? ==> DireccionEfectiva(sala, puerta).Some?
    ensures r.Some? ==> var d := DireccionEfectiva(sala, puerta).value;
      (sala, d) in destinos && r.value == (destinos[(sala, d)], Opuesta(d))
    ensures DireccionEfectiva(sala, puerta).Some? && (sala, DireccionEfectiva(sala, puerta).value) in destinos ==> r.Some?
  {
    match DireccionEfectiva(sala, puerta)
    case None => None
    case Some(d) => if (sala, d) in destinos then Some((destinos[(sala, d)], Opuesta(d))) else None
  }

  /** On a coherent floor the new room always has a door on the side it is
      entered by, so the player never falls back to the room's centre. */
  lemma CruceEntraPorPuerta(destinos: map<(Habitacion, Direccion), Habitacion>, sala: Habitacion, puerta: DatosPuerta)
    requires Coherente(destinos)
    requires Cruce(destinos, sala, puerta).Some?
    ensures var c := Cruce(destinos, sala, puerta).value; c.0.TienePuerta(c.1)
    ensures var c := Cruce(destinos, sala, puerta).value; sala.TienePuerta(Opuesta(c.1))
  {
    var d := DireccionEfectiva(sala, puerta).value;
    assert (sala, d) in destinos;
    OpuestaInvolutiva(d);
  }

  class GestorSalas {
    const piso: Piso
    const jugador: Jugador
    var salaActual: Habitacion

    constructor (piso: Piso, salaInicial: Habitacion, jugador: Jugador)
      ensures this.piso == piso && this.jugador == jugador && salaActual == salaInicial
    {
      this.piso := piso;
      this.jugador := jugador;
      salaActual := salaInicial;
    }

    /** The player touched `puerta` (`None` when the contact carried no door).
        With a body and a door of the current room that leads somewhere, the
        current room becomes the destination, it is discovered, and the
        player is put down inside it. Anything else changes nothing. */
    method IrASalaVecinaPorPuerta(puerta: Option<DatosPuerta>)
      requires jugador.Valid()
      modifies this, piso, jugador
      ensures jugador.Valid()
      ensures jugador.Salud() == old(jugador.Salud()) && jugador.objetos == old(jugador.objetos)
      ensures jugador.genero == old(jugador.genero) && jugador.estilo == old(jugador.estilo)
      ensures var c := if puerta.Some? && old(jugador.cuerpo).Some?
                       then Cruce(piso.destinos, old(salaActual), puerta.value) else None;
        if c.Some? then
          && salaActual == c.value.0
          && piso.descubiertas == old(piso.descubiertas) + {c.value.0}
          && jugador.cuerpo == Some(PosicionLlegada(c.value.0, c.value.1))
        else
          && salaActual == old(salaActual)
          && piso.descubiertas == old(piso.descubiertas)
          && jugador.cuerpo == old(jugador.cuerpo)
    {
      if puerta.None? {
        return;
      }
      if jugador.cuerpo.None? {
        return;
      }
      var p := puerta.value;
      var dirEfectiva: Direccion;
      if salaActual == p.origen {
        dirEfectiva := p.direccion;
      } else if salaActual == p.destino {
        dirEfectiva := Opuesta(p.direccion);
      } else {
        return;
      }
      var nuevaSala := piso.DestinoEnPiso(salaActual, dirEfectiva);
      if nuevaSala.None? {
        return;
      }
      var dirEntrada := Opuesta(dirEfectiva);
      salaActual := nuevaSala.value;
      ColocarJugadorEnSalaPorPuerta(nuevaSala.value, dirEntrada);
      piso.Descubrir(nuevaSala.value);
    }

    /** Moves the player's body, if it has one, to the landing point of
        `sala` entered by side `entrada`. */
    method ColocarJugadorEnSalaPorPuerta(sala: Habitacion, entrada: Direccion)
      requires jugador.Valid()
      modifies jugador
      ensures jugador.Valid()
      ensures jugador.cuerpo == if old(jugador.cuerpo).None? then None else Some(PosicionLlegada(sala, entrada))
      ensures jugador.Salud() == old(jugador.Salud()) && jugador.objetos == old(jugador.objetos)
      ensures jugador.genero == old(jugador.genero) && jugador.estilo == old(jugador.estilo)
    {
      if jugador.cuerpo.None? {
        return;
      }
      jugador.cuerpo := Some(PosicionLlegada(sala, entrada));
    }
  }
}
