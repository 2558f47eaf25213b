/** Collision categories and masks of the physics fixtures, as 16-bit
    filters, and the physics engine's rule for which pairs touch. */
module BitsColision {
  /** A `short` filter word. */
  type Bits = bv16

  const CATEGORIA_JUGADOR: Bits := 0x0001
  const CATEGORIA_PARED: Bits := 0x0002
  /** Door sensors. */
  const CATEGORIA_PUERTA: Bits := 0x0004

  /** What each category collides with. */
  const MASCARA_JUGADOR: Bits := CATEGORIA_PARED | CATEGORIA_PUERTA
  const MASCARA_PARED: Bits := CATEGORIA_JUGADOR
  const MASCARA_PUERTA: Bits := CATEGORIA_JUGADOR

  /** The three kinds of fixture the game creates. */
  datatype Clase = JUGADOR | PARED | PUERTA
  {
    const categoria: Bits :=
      match this
      case JUGADOR => CATEGORIA_JUGADOR
      case PARED => CATEGORIA_PARED
      case PUERTA => CATEGORIA_PUERTA

    const mascara: Bits :=
      match this
      case JUGADOR => MASCARA_JUGADOR
      case PARED => MASCARA_PARED
      case PUERTA => MASCARA_PUERTA
  }

  /** The physics engine's filter rule (group index zero): two fixtures
      touch when each one's mask has a bit of the other's category. */
  predicate Colisionan(catA: Bits, mascA: Bits, catB: Bits, mascB: Bits) {
    mascA & catB != 0 && mascB & catA != 0
  }

  /** The contact listener's tests on a fixture's category. */
  predicate EsJugador(categoria: Bits) {
    categoria & CATEGORIA_JUGADOR != 0
  }

  predicate EsPuerta(categoria: Bits) {
    categoria & CATEGORIA_PUERTA != 0
  }

  /** Each category is a single bit, and no two share one. */
  lemma CategoriasDisjuntas(a: Clase, b: Clase)
    ensures a.categoria != 0 && a.categoria & (a.categoria - 1) == 0
    ensures a != b ==> a.categoria & b.categoria == 0
  {
  }

  /** The filter rule does not depend on which fixture comes first. */
  lemma ColisionSimetrica(catA: Bits, mascA: Bits, catB: Bits, mascB: Bits)
    ensures Colisionan(catA, mascA, catB, mascB) <==> Colisionan(catB, mascB, catA, mascA)
  {
  }

  /** The masks give exactly this contact table: the player touches walls and
      door sensors, and nothing else touches anything. */
  lemma TablaDeContactos(a: Clase, b: Clase)
    ensures Colisionan(a.categoria, a.mascara, b.categoria, b.mascara)
        <==> (a == JUGADOR && b != JUGADOR) || (b == JUGADOR && a != JUGADOR)
  {
  }

  /** A fixture is seen as the player, or as a door, exactly when it is one. */
  lemma ClasificacionExacta(c: Clase)
    ensures EsJugador(c.categoria) <==> c == JUGADOR
    ensures EsPuerta(c.categoria) <==> c == PUERTA
  {
  }

  /** The filter words fit a signed 16-bit `short`. */
  lemma CabenEnShort(c: Clase)
    ensures c.categoria as int < 0x8000 && c.mascara as int < 0x8000
  {
  }
}
