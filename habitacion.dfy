/** The fixed catalogue of the 25 rooms drawn in the room sheet: each room's
    type, id, source rectangle, cell in the 5x5 level grid and doors. */
module Habitacion {
  import opened Direccion

  datatype TipoSala = INICIO | ACERTIJO | COMBATE | BOTIN | JEFE

  /** Where a door opening is centred, in the room's local coordinates, and the side it faces. */
  datatype EspecificacionPuerta = EspecificacionPuerta(direccion: Direccion, localX: int, localY: int)

  /** The constant data of one room. */
  datatype Datos = Datos(
    id: int, nombreVisible: string, tipo: TipoSala,
    srcX: int, srcY: int, ancho: int, alto: int,
    gridX: int, gridY: int,
    puertas: map<Direccion, EspecificacionPuerta>)

  datatype Habitacion =
    | INICIO_1
    | ACERTIJO_1
    | ACERTIJO_2
    | ACERTIJO_3
    | ACERTIJO_4
    | ACERTIJO_5
    | ACERTIJO_6
    | ACERTIJO_7
    | ACERTIJO_8
    | ACERTIJO_9
    | ACERTIJO_10
    | COMBATE_1
    | COMBATE_2
    | COMBATE_3
    | COMBATE_4
    | COMBATE_5
    | COMBATE_6
    | COMBATE_7
    | COMBATE_8
    | COMBATE_9
    | COMBATE_10
    | BOTIN_1
    | BOTIN_2
    | JEFE_1
    | JEFE_2
  {
    const datos: Datos :=
      match this
      case INICIO_1 => Datos(1, "Inicio", INICIO, 0, 0, 512, 512, 0, 4, map[ESTE := EspecificacionPuerta(ESTE, 512, 256), NORTE := EspecificacionPuerta(NORTE, 256, 512)])
      case ACERTIJO_1 => Datos(2, "Acertijo 1", ACERTIJO, 512, 0, 512, 512, 1, 4, map[OESTE := EspecificacionPuerta(OESTE, 0, 256), ESTE := EspecificacionPuerta(ESTE, 512, 256)])
      case ACERTIJO_2 => Datos(3, "Acertijo 2", ACERTIJO, 1024, 0, 512, 512, 2, 4, map[NORTE := EspecificacionPuerta(NORTE, 256, 512), SUR := EspecificacionPuerta(SUR, 256, 0)])
      case ACERTIJO_3 => Datos(4, "Acertijo 3", ACERTIJO, 1536, 0, 512, 512, 3, 4, map[OESTE := EspecificacionPuerta(OESTE, 0, 256), NORTE := EspecificacionPuerta(NORTE, 256, 512)])
      case ACERTIJO_4 => Datos(5, "Acertijo 4", ACERTIJO, 2048, 0, 512, 512, 4, 4, map[SUR := EspecificacionPuerta(SUR, 256, 0)])
      case ACERTIJO_5 => Datos(6, "Acertijo 5", ACERTIJO, 2560, 0, 512, 512, 0, 3, map[NORTE := EspecificacionPuerta(NORTE, 256, 512), ESTE := EspecificacionPuerta(ESTE, 512, 256)])
      case ACERTIJO_6 => Datos(7, "Acertijo 6", ACERTIJO, 3072, 0, 512, 512, 1, 3, map[OESTE := EspecificacionPuerta(OESTE, 0, 256), SUR := EspecificacionPuerta(SUR, 256, 0)])
      case ACERTIJO_7 => Datos(8, "Acertijo 7", ACERTIJO, 3584, 0, 512, 512, 2, 3, map[ESTE := EspecificacionPuerta(ESTE, 512, 256)])
      case ACERTIJO_8 => Datos(9, "Acertijo 8", ACERTIJO, 4096, 0, 512, 512, 3, 3, map[NORTE := EspecificacionPuerta(NORTE, 256, 512), OESTE := EspecificacionPuerta(OESTE, 0, 256)])
      case ACERTIJO_9 => Datos(10, "Acertijo 9", ACERTIJO, 4608, 0, 512, 512, 4, 3, map[NORTE := EspecificacionPuerta(NORTE, 256, 512)])
      case ACERTIJO_10 => Datos(11, "Acertijo 10", ACERTIJO, 5120, 0, 512, 512, 0, 2, map[OESTE := EspecificacionPuerta(OESTE, 0, 256)])
      case COMBATE_1 => Datos(12, "Combate 1", COMBATE, 5632, 0, 512, 512, 1, 2, map[OESTE := EspecificacionPuerta(OESTE, 0, 256)])
      case COMBATE_2 => Datos(13, "Combate 2", COMBATE, 6144, 0, 512, 512, 2, 2, map[NORTE := EspecificacionPuerta(NORTE, 256, 512)])
      case COMBATE_3 => Datos(14, "Combate 3", COMBATE, 6656, 0, 512, 512, 3, 2, map[NORTE := EspecificacionPuerta(NORTE, 256, 512), OESTE := EspecificacionPuerta(OESTE, 0, 256)])
      case COMBATE_4 => Datos(15, "Combate 4", COMBATE, 7168, 0, 512, 512, 4, 2, map[ESTE := EspecificacionPuerta(ESTE, 512, 256), SUR := EspecificacionPuerta(SUR, 256, 0)])
      case COMBATE_5 => Datos(16, "Combate 5", COMBATE, 7680, 0, 512, 512, 0, 1, map[NORTE := EspecificacionPuerta(NORTE, 256, 512), ESTE := EspecificacionPuerta(ESTE, 512, 256)])
      case COMBATE_6 => Datos(17, "Combate 6", COMBATE, 8192, 0, 512, 512, 1, 1, map[OESTE := EspecificacionPuerta(OESTE, 0, 256), SUR := EspecificacionPuerta(SUR, 256, 0)])
      case COMBATE_7 => Datos(18, "Combate 7", COMBATE, 8704, 0, 512, 512, 2, 1, map[SUR := EspecificacionPuerta(SUR, 256, 0)])
      case COMBATE_8 => Datos(19, "Combate 8", COMBATE, 9216, 0, 512, 512, 3, 1, map[NORTE := EspecificacionPuerta(NORTE, 256, 512), OESTE := EspecificacionPuerta(OESTE, 0, 256)])
      case COMBATE_9 => Datos(20, "Combate 9", COMBATE, 9728, 0, 512, 512, 4, 1, map[ESTE := EspecificacionPuerta(ESTE, 512, 256)])
      case COMBATE_10 => Datos(21, "Combate 10", COMBATE, 10240, 0, 512, 512, 0, 0, map[OESTE := EspecificacionPuerta(OESTE, 0, 256), SUR := EspecificacionPuerta(SUR, 256, 0)])
      case BOTIN_1 => Datos(22, "Botín 1", BOTIN, 10752, 0, 512, 512, 1, 0, map[ESTE := EspecificacionPuerta(ESTE, 512, 256), OESTE := EspecificacionPuerta(OESTE, 0, 256)])
      case BOTIN_2 => Datos(23, "Botín 2", BOTIN, 11264, 0, 512, 512, 2, 0, map[NORTE := EspecificacionPuerta(NORTE, 256, 512), SUR := EspecificacionPuerta(SUR, 256, 0)])
      case JEFE_1 => Datos(24, "Jefe 1", JEFE, 11776, 0, 512, 512, 3, 0, map[OESTE := EspecificacionPuerta(OESTE, 0, 256)])
      case JEFE_2 => Datos(25, "Jefe 2", JEFE, 12288, 0, 512, 512, 4, 0, map[NORTE := EspecificacionPuerta(NORTE, 256, 512)])

    const id: int := datos.id
    const tipo: TipoSala := datos.tipo
    const srcX: int := datos.srcX
    const srcY: int := datos.srcY
    const ancho: int := datos.ancho
    const alto: int := datos.alto
    const gridX: int := datos.gridX
    const gridY: int := datos.gridY
    const puertas: map<Direccion, EspecificacionPuerta> := datos.puertas

    predicate TienePuerta(d: Direccion) {
      d in puertas
    }
  }

  /** `Habitacion.values()`: every room in declaration order. */
  const Catalogo: seq<Habitacion> := [
    INICIO_1, ACERTIJO_1, ACERTIJO_2, ACERTIJO_3, ACERTIJO_4,
    ACERTIJO_5, ACERTIJO_6, ACERTIJO_7, ACERTIJO_8, ACERTIJO_9,
    ACERTIJO_10, COMBATE_1, COMBATE_2, COMBATE_3, COMBATE_4,
    COMBATE_5, COMBATE_6, COMBATE_7, COMBATE_8, COMBATE_9,
    COMBATE_10, BOTIN_1, BOTIN_2, JEFE_1, JEFE_2]

  /** Where a door on side `d` is centred in a 512x512 room: the middle of that side. */
  function OffsetDeLado(d: Direccion): (int, int) {
    match d
    case NORTE => (256, 512)
    case SUR => (256, 0)
    case ESTE => (512, 256)
    case OESTE => (0, 256)
  }

  /** How many rooms of a list have type `t`. Counted from the end, so that a
      loop walking the list forward keeps it as an invariant of each prefix. */
  function CuentaTipo(hs: seq<Habitacion>, t: TipoSala): (n: nat)
    ensures n <= |hs|
  {
    if hs == [] then 0
    else CuentaTipo(hs[..|hs| - 1], t) + (if hs[|hs| - 1].tipo == t then 1 else 0)
  }

  /** The catalogue lists each room once, at position `id - 1`: ids run over
      1..25 and no two rooms share one. */
  lemma CatalogoPorId(h: Habitacion)
    ensures |Catalogo| == 25
    ensures 1 <= h.id <= 25 && Catalogo[h.id - 1] == h
  {
  }

  /** The source rectangle of each room is the id-th 512x512 tile of the top row of the sheet,
      and every room has at least one door. */
  lemma RectanguloFuente(h: Habitacion)
    ensures h.srcX == 512 * (h.id - 1) && h.srcY == 0
    ensures h.ancho == 512 && h.alto == 512
    ensures |h.puertas| >= 1
  {
  }

  /** Grid cells run row by row from the top row (y = 4), so a room's cell is
      fixed by its id and lies in the 5x5 grid; no two rooms share a cell. */
  lemma CeldaSegunId(h: Habitacion)
    ensures 0 <= h.gridX <= 4 && 0 <= h.gridY <= 4
    ensures h.id == (4 - h.gridY) * 5 + h.gridX + 1
  {
  }

  lemma CeldasDistintas(h1: Habitacion, h2: Habitacion)
    ensures h1.gridX == h2.gridX && h1.gridY == h2.gridY ==> h1 == h2
  {
    CeldaSegunId(h1);
    CeldaSegunId(h2);
    CatalogoPorId(h1);
    CatalogoPorId(h2);
  }

  /** Every door is keyed by its own direction and is centred on the side it names. */
  lemma PuertasBienFormadas(h: Habitacion, d: Direccion)
    ensures h.TienePuerta(d) ==> h.puertas[d].direccion == d
    ensures h.TienePuerta(d) ==> (h.puertas[d].localX, h.puertas[d].localY) == OffsetDeLado(d)
  {
  }

  /** A room has a door on a side exactly when one of its declared door
      specifications lies on that side. */
  lemma TienePuertaSegunEspecificaciones(h: Habitacion, d: Direccion)
    ensures h.TienePuerta(d) <==> exists e :: e in h.puertas.Values && e.direccion == d
  {
    forall e | e in h.puertas.Values ensures h.TienePuerta(e.direccion) {
      var k :| k in h.puertas && h.puertas[k] == e;
      PuertasBienFormadas(h, k);
    }
    if h.TienePuerta(d) {
      PuertasBienFormadas(h, d);
      assert h.puertas[d] in h.puertas.Values;
    }
  }

  /** The start room is the only INICIO room; JEFE_1 and JEFE_2 are the only JEFE rooms. */
  lemma TiposUnicos(h: Habitacion)
    ensures h.tipo == INICIO <==> h == INICIO_1
    ensures h.tipo == JEFE <==> h == JEFE_1 || h == JEFE_2
  {
  }

  /** Counting distributes over concatenation. */
  lemma {:induction false} CuentaConcat(a: seq<Habitacion>, b: seq<Habitacion>, t: TipoSala)
    ensures CuentaTipo(a + b, t) == CuentaTipo(a, t) + CuentaTipo(b, t)
    decreases |b|
  {
    if b == [] {
      assert a + b == a;
    } else {
      assert (a + b)[..|a + b| - 1] == a + b[..|b| - 1];
      CuentaConcat(a, b[..|b| - 1], t);
    }
  }

  /** A list with no room of type `t` counts zero of them. */
  lemma {:induction false} CuentaAusente(hs: seq<Habitacion>, t: TipoSala)
    requires forall i :: 0 <= i < |hs| ==> hs[i].tipo != t
    ensures CuentaTipo(hs, t) == 0
  {
    if hs != [] {
      CuentaAusente(hs[..|hs| - 1], t);
    }
  }

  /** Exactly one room of the catalogue has type INICIO. */
  lemma CatalogoUnInicio()
    ensures CuentaTipo(Catalogo, INICIO) == 1
  {
    forall i | 0 <= i < |Catalogo| ensures (Catalogo[i].tipo == INICIO) == (i == 0) {
      TiposUnicos(Catalogo[i]);
    }
    var cabeza, cola := Catalogo[..1], Catalogo[1..];
    assert Catalogo == cabeza + cola;
    CuentaConcat(cabeza, cola, INICIO);
    CuentaAusente(cola, INICIO);
    assert CuentaTipo(cabeza, INICIO) == 1 by {
      assert cabeza[..0] == [];
    }
  }

  /** Exactly two rooms of the catalogue have type JEFE. */
  lemma CatalogoDosJefes()
    ensures CuentaTipo(Catalogo, JEFE) == 2
  {
    forall i | 0 <= i < |Catalogo| ensures (Catalogo[i].tipo == JEFE) == (i >= 23) {
      TiposUnicos(Catalogo[i]);
    }
    var sinJefes, jefes := Catalogo[..23], Catalogo[23..];
    assert Catalogo == sinJefes + jefes;
    CuentaConcat(sinJefes, jefes, JEFE);
    CuentaAusente(sinJefes, JEFE);
    assert CuentaTipo(jefes, JEFE) == 2 by {
      assert jefes[..1][..0] == [];
      assert jefes[..1] == [JEFE_1];
      assert jefes[..|jefes| - 1] == [JEFE_1];
    }
  }
}
