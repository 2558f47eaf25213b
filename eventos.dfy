/** The records the physics contacts enqueue and the frame loop drains, and the
    mutable containers they travel in. */
module Eventos {
  import opened Habitacion
  import opened Direccion
  import opened Entidades

  /** A door sensor between two rooms; `direccion` is the way out of `origen`. */
  datatype DatosPuerta = DatosPuerta(origen: Habitacion, destino: Habitacion, direccion: Direccion)

  /** Player `jugadorId` touched door `puerta`. */
  datatype EventoPuerta = EventoPuerta(puerta: DatosPuerta, jugadorId: int)

  /** Player `jugadorId` touched item `item`. */
  datatype EventoPickup = EventoPickup(item: Item, jugadorId: int)

  /** A floor button of room `sala`, owned by player `jugadorId`. */
  datatype DatosBoton = DatosBoton(sala: Habitacion, jugadorId: int)

  /** Player `jugadorId` stepped on (`down`) or off a button. */
  datatype EventoBoton = EventoBoton(boton: DatosBoton, jugadorId: int, down: bool)

  /** Player `jugadorId` was hit; the position of the hit only steers the
      knock-back. */
  datatype EventoDanio = EventoDanio(jugadorId: int)

  /** A list the contact callbacks append to and the frame loop clears. */
  class Cola<T> {
    var elementos: seq<T>

    constructor ()
      ensures elementos == []
    {
      elementos := [];
    }
  }

  /** A set reused from frame to frame for de-duplication. */
  class Conjunto<T(==)> {
    var elementos: set<T>

    constructor ()
      ensures elementos == {}
    {
      elementos := {};
    }
  }

  /** The drawn state of one button: lit while `presionado`. */
  class BotonVisual {
    const sala: Habitacion
    const jugadorId: int
    var presionado: bool

    constructor (sala: Habitacion, jugadorId: int)
      ensures this.sala == sala && this.jugadorId == jugadorId && !presionado
    {
      this.sala := sala;
      this.jugadorId := jugadorId;
      presionado := false;
    }
  }

  /** A listener told of every room change. */
  class ListenerCambioSala {
    constructor ()
    {
    }
  }
}
