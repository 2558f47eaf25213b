/** What the room manager and the game consult about the generated floor:
    where each door of each room leads, the room the floor starts in, and the
    rooms discovered so far. */
module Piso {
  import opened Habitacion
  import opened Direccion
  import opened Opcion

  /** Every connection leaves through a door of its room and arrives at a
      room with a door on the opposite side. */
  ghost predicate Coherente(destinos: map<(Habitacion, Direccion), Habitacion>) {
    forall k :: k in destinos ==> k.0.TienePuerta(k.1) && destinos[k].TienePuerta(Opuesta(k.1))
  }

  class Piso {
    const destinos: map<(Habitacion, Direccion), Habitacion>
    const salaInicio: Habitacion
    var descubiertas: set<Habitacion>

    constructor (destinos: map<(Habitacion, Direccion), Habitacion>, salaInicio: Habitacion)
      ensures this.destinos == destinos && this.salaInicio == salaInicio && descubiertas == {}
    {
      this.destinos := destinos;
      this.salaInicio := salaInicio;
      descubiertas := {};
    }

    /** The room reached from `sala` through its door on side `dir`, if any;
        what the answer means on a coherent floor is `DestinoCoherente`. */
    function DestinoEnPiso(sala: Habitacion, dir: Direccion): (r: Option<Habitacion>)
      ensures r.Some? <==> (sala, dir) in destinos
      ensures r.Some? ==> r.value == destinos[(sala, dir)]
    {
      if (sala, dir) in destinos then Some(destinos[(sala, dir)]) else None
    }

    /** On a coherent floor a lookup only answers for a door of the room, and
        the room it gives has a door on the opposite side. */
    lemma DestinoCoherente(sala: Habitacion, dir: Direccion)
      requires Coherente(destinos)
      ensures DestinoEnPiso(sala, dir).Some? ==>
        sala.TienePuerta(dir) && DestinoEnPiso(sala, dir).value.TienePuerta(Opuesta(dir))
    {
    }

    method Descubrir(h: Habitacion)
      modifies this
      ensures descubiertas == old(descubiertas) + {h}
    {
      descubiertas := descubiertas + {h};
    }
  }
}
