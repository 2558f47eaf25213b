/** The door-compatibility graph: every door of every room is connected to one
    other room that has a door on the opposite side. Rooms need not be grid
    neighbours, and the connection need not be returned the other way. */
module GrafoPuertas {
  import opened Direccion
  import opened Habitacion
  import opened Opcion
  import Azar

  /** The rooms of `hs` other than `origen` with a door facing `Opuesta(dir)`, in list order. */
  function Candidatos(hs: seq<Habitacion>, origen: Habitacion, dir: Direccion): seq<Habitacion> {
    if hs == [] then []
    else
      var ultima := hs[|hs| - 1];
      Candidatos(hs[..|hs| - 1], origen, dir)
        + (if ultima != origen && ultima.TienePuerta(Opuesta(dir)) then [ultima] else [])
  }

  /** The candidates are exactly the other listed rooms with a door facing `Opuesta(dir)`. */
  lemma {:induction false} CandidatosExactos(hs: seq<Habitacion>, origen: Habitacion, dir: Direccion, x: Habitacion)
    ensures x in Candidatos(hs, origen, dir) <==> x in hs && x != origen && x.TienePuerta(Opuesta(dir))
  {
    if hs != [] {
      var previos := hs[..|hs| - 1];
      CandidatosExactos(previos, origen, dir, x);
      assert hs == previos + [hs[|hs| - 1]];
    }
  }

  /** One more listed room adds itself to the candidates when it qualifies. */
  lemma CandidatosPaso(hs: seq<Habitacion>, k: nat, origen: Habitacion, dir: Direccion)
    requires k < |hs|
    ensures Candidatos(hs[..k + 1], origen, dir)
      == Candidatos(hs[..k], origen, dir) + SiCandidata(hs[k], origen, dir)
  {
    assert hs[..k + 1][..k] == hs[..k];
  }

  /** The connections of one origin room: exactly the doors that have a
      candidate are connected, each to one of its candidates. */
  ghost predicate MapaDirsValido(hs: seq<Habitacion>, origen: Habitacion, m: map<Direccion, Habitacion>) {
    forall d :: PuertaValida(hs, origen, m, d)
  }

  /** Door `d` of `origen` is connected exactly when it exists and has a
      candidate, and then to one of its candidates. */
  ghost predicate PuertaValida(hs: seq<Habitacion>, origen: Habitacion, m: map<Direccion, Habitacion>, d: Direccion) {
    && (d in m <==> origen.TienePuerta(d) && Candidatos(hs, origen, d) != [])
    && (d in m ==> m[d] in Candidatos(hs, origen, d))
  }

  /** Connecting door `dir` leaves what every other door says unchanged. */
  lemma OtraPuertaIntacta(hs: seq<Habitacion>, origen: Habitacion, m: map<Direccion, Habitacion>,
                          dir: Direccion, x: Habitacion, d: Direccion)
    requires d != dir
    ensures PuertaValida(hs, origen, m[dir := x], d) == PuertaValida(hs, origen, m, d)
  {
  }

  /** What building the graph over `hs` establishes: one entry per listed room. */
  ghost predicate ConexionesValidas(hs: seq<Habitacion>, cx: map<Habitacion, map<Direccion, Habitacion>>) {
    && (forall o :: o in cx ==> o in hs)
    && (forall o :: o in hs ==> o in cx && MapaDirsValido(hs, o, cx[o]))
  }

  /** The rooms `m` leads to, in direction order, first occurrence kept. */
  function Destinos(m: map<Direccion, Habitacion>, ds: seq<Direccion>): (r: seq<Habitacion>)
    ensures forall x :: x in r <==> exists d :: d in ds && d in m && m[d] == x
    ensures forall i, j :: 0 <= i < j < |r| ==> r[i] != r[j]
  {
    if ds == [] then []
    else
      var previos := Destinos(m, ds[..|ds| - 1]);
      var d := ds[|ds| - 1];
      assert forall e :: e in ds <==> e in ds[..|ds| - 1] || e == d;
      if d in m && m[d] !in previos then previos + [m[d]] else previos
  }

  class GrafoPuertas {
    const habitaciones: seq<Habitacion>
    const rng: Azar.Random

    /** `conexiones[origen][dir]` is the room door `dir` of `origen` leads to;
        built once by the constructor and never changed afterwards. */
    const conexiones: map<Habitacion, map<Direccion, Habitacion>>

    ghost predicate Valid() {
      ConexionesValidas(habitaciones, conexiones)
    }

    constructor (habitaciones: seq<Habitacion>, rng: Azar.Random)
      modifies rng
      ensures this.habitaciones == habitaciones && this.rng == rng
      ensures Valid()
    {
      this.habitaciones := habitaciones;
      this.rng := rng;
      var conexiones := ConstruirConexiones(habitaciones, rng);
      this.conexiones := conexiones;
    }

    /** For each door of each listed room, draws one candidate as its destination;
        a door without candidates stays unconnected. */
    static method ConstruirConexiones(habitaciones: seq<Habitacion>, rng: Azar.Random)
      returns (conexiones: map<Habitacion, map<Direccion, Habitacion>>)
      modifies rng
      ensures ConexionesValidas(habitaciones, conexiones)
    {
      conexiones := map[];
      var i := 0;
      while i < |habitaciones|
        invariant 0 <= i <= |habitaciones|
        invariant forall o :: o in conexiones <==> o in habitaciones[..i]
        invariant forall o :: o in conexiones ==> MapaDirsValido(habitaciones, o, conexiones[o])
      {
        var origen := habitaciones[i];
        var mapaDirs := ConectarPuertas(habitaciones, origen, rng);
        assert habitaciones[..i + 1] == habitaciones[..i] + [origen];
        conexiones := conexiones[origen := mapaDirs];
        i := i + 1;
      }
      assert habitaciones[..i] == habitaciones;
    }

    /** The connections of one origin room, door by door in direction order. */
    static method ConectarPuertas(habitaciones: seq<Habitacion>, origen: Habitacion, rng: Azar.Random)
      returns (mapaDirs: map<Direccion, Habitacion>)
      modifies rng
      ensures MapaDirsValido(habitaciones, origen, mapaDirs)
    {
      mapaDirs := map[];
      var j := 0;
      while j < |EnOrden|
        invariant 0 <= j <= |EnOrden|
        invariant forall d :: d in mapaDirs ==> d in EnOrden[..j]
        invariant forall d :: d in EnOrden[..j] ==> PuertaValida(habitaciones, origen, mapaDirs, d)
      {
        var dir := EnOrden[j];
        var antes := mapaDirs;
        if origen.TienePuerta(dir) {
          var candidatos := BuscarCandidatos(habitaciones, origen, dir);
          if candidatos != [] {
            var elegido := rng.NextInt(|candidatos|);
            mapaDirs := mapaDirs[dir := candidatos[elegido]];
            forall d | d != dir ensures PuertaValida(habitaciones, origen, mapaDirs, d) == PuertaValida(habitaciones, origen, antes, d) {
              OtraPuertaIntacta(habitaciones, origen, antes, dir, candidatos[elegido], d);
            }
          }
        }
        assert PuertaValida(habitaciones, origen, mapaDirs, dir);
        assert EnOrden[..j + 1] == EnOrden[..j] + [dir];
        j := j + 1;
      }
      forall d ensures d in EnOrden[..j] {
        EnOrdenEnumera(d);
        assert EnOrden[..j] == EnOrden;
      }
    }

    /** The scan over the listed rooms for those with a door facing the opposite side. */
    static method BuscarCandidatos(habitaciones: seq<Habitacion>, origen: Habitacion, dir: Direccion)
      returns (candidatos: seq<Habitacion>)
      ensures candidatos == Candidatos(habitaciones, origen, dir)
    {
      var opuesta := Opuesta(dir);
      candidatos := [];
      var k := 0;
      while k < |habitaciones|
        invariant 0 <= k <= |habitaciones|
        invariant candidatos == Candidatos(habitaciones[..k], origen, dir)
      {
        var candidata := habitaciones[k];
        CandidatosPaso(habitaciones, k, origen, dir);
        if candidata != origen && candidata.TienePuerta(opuesta) {
          candidatos := candidatos + [candidata];
        }
        k := k + 1;
      }
      assert habitaciones[..k] == habitaciones;
    }

    /** The room the door `dir` of `origen` leads to; `None` for a room the
        graph was not built over or a door without connection. */
    function DestinoDe(origen: Habitacion, dir: Direccion): Option<Habitacion> {
      if origen in conexiones && dir in conexiones[origen] then Some(conexiones[origen][dir]) else None
    }

    /** A connected door leads to another room with a door on the opposite
        side, drawn from the candidates; a door has a connection whenever such
        a room exists among the listed ones; rooms not listed have none. */
    lemma DestinoDeValido(origen: Habitacion, dir: Direccion)
      requires Valid()
      ensures DestinoDe(origen, dir).Some? ==>
        var r := DestinoDe(origen, dir).value;
        origen.TienePuerta(dir) && r != origen && r.TienePuerta(Opuesta(dir))
        && r in habitaciones && r in Candidatos(habitaciones, origen, dir)
      ensures origen !in habitaciones ==> DestinoDe(origen, dir) == None
      ensures origen in habitaciones && origen.TienePuerta(dir)
              && (exists x :: x in habitaciones && x != origen && x.TienePuerta(Opuesta(dir)))
              ==> DestinoDe(origen, dir).Some?
    {
      if origen in conexiones {
        var mapaDirs := conexiones[origen];
        assert origen in habitaciones;
        assert PuertaValida(habitaciones, origen, mapaDirs, dir);
        if dir in mapaDirs {
          CandidatosExactos(habitaciones, origen, dir, mapaDirs[dir]);
        } else {
          forall x | x in habitaciones && x != origen && x.TienePuerta(Opuesta(dir))
            ensures x in Candidatos(habitaciones, origen, dir)
          {
            CandidatosExactos(habitaciones, origen, dir, x);
          }
        }
      }
    }

    /** Some door of `h` leads to `x`. */
    ghost predicate Conectadas(h: Habitacion, x: Habitacion) {
      h in conexiones && x in conexiones[h].Values
    }

    /** The logical neighbours of `h`: the destinations of its doors in
        direction order, each once; none for a room without connections. */
    function Vecinas(h: Habitacion): (r: seq<Habitacion>)
      ensures forall i, j :: 0 <= i < j < |r| ==> r[i] != r[j]
      ensures forall x :: x in r <==> Conectadas(h, x)
      ensures h !in conexiones ==> r == []
    {
      if h !in conexiones then []
      else
        var m := conexiones[h];
        var r := Destinos(m, EnOrden);
        assert forall x :: x in r <==> Conectadas(h, x) by {
          forall x ensures x in r <==> Conectadas(h, x) {
            if x in m.Values {
              var d :| d in m && m[d] == x;
              EnOrdenEnumera(d);
            }
          }
        }
        r
    }

    /** The neighbours of `h` are exactly the rooms its doors lead to. */
    lemma VecinasSonDestinos(h: Habitacion, x: Habitacion)
      ensures x in Vecinas(h) <==> exists d :: DestinoDe(h, d) == Some(x)
    {
      if x in Vecinas(h) {
        var m := conexiones[h];
        var d :| d in m && m[d] == x;
        assert DestinoDe(h, d) == Some(x);
      }
    }

    /** A room the graph was not built over has no neighbours. */
    lemma VecinasFueraDelGrafo(h: Habitacion)
      requires Valid()
      requires h !in habitaciones
      ensures Vecinas(h) == []
    {
    }

    /** A neighbour of `h` passing `filtro` (any neighbour when there is no
        filter), drawn at random; `None` when no neighbour passes. */
    method VecinaAleatoria(h: Habitacion, filtro: Option<Habitacion -> bool>) returns (r: Option<Habitacion>)
      modifies rng
      ensures r == None <==> forall x :: x in Vecinas(h) ==> !Pasa(filtro, x)
      ensures r.Some? ==> r.value in Vecinas(h) && Pasa(filtro, r.value)
    {
      var vecinas := Vecinas(h);
      var candidatas: seq<Habitacion> := [];
      var i := 0;
      while i < |vecinas|
        invariant 0 <= i <= |vecinas|
        invariant forall x :: x in candidatas <==> x in vecinas[..i] && Pasa(filtro, x)
      {
        var x := vecinas[i];
        assert vecinas[..i + 1] == vecinas[..i] + [x];
        if filtro.None? || filtro.value(x) {
          candidatas := candidatas + [x];
        }
        i := i + 1;
      }
      assert vecinas[..i] == vecinas;
      if candidatas == [] {
        return None;
      }
      var k := rng.NextInt(|candidatas|);
      assert candidatas[k] in candidatas;
      r := Some(candidatas[k]);
    }
  }

  /** Whether `x` passes the optional filter; everything passes the absent one. */
  predicate Pasa(filtro: Option<Habitacion -> bool>, x: Habitacion) {
    filtro.None? || filtro.value(x)
  }

  /** `[x]` when `x` is a candidate for door `dir` of `origen`, `[]` otherwise. */
  function SiCandidata(x: Habitacion, origen: Habitacion, dir: Direccion): seq<Habitacion> {
    if x != origen && x.TienePuerta(Opuesta(dir)) then [x] else []
  }

  /** Over a three-room list the candidates are found room by room. */
  lemma CandidatosDeTres(hs: seq<Habitacion>, origen: Habitacion, dir: Direccion)
    requires |hs| == 3
    ensures Candidatos(hs, origen, dir)
      == SiCandidata(hs[0], origen, dir) + SiCandidata(hs[1], origen, dir) + SiCandidata(hs[2], origen, dir)
  {
    assert hs[..2][..1][..0] == [];
    assert hs[..2][..1] == [hs[0]];
    assert hs[..2] == [hs[0], hs[1]];
    assert Candidatos([hs[0]], origen, dir) == SiCandidata(hs[0], origen, dir);
    assert Candidatos(hs[..2], origen, dir)
      == Candidatos([hs[0]], origen, dir) + SiCandidata(hs[1], origen, dir);
  }

  /** The doors of the three rooms used in the examples below. */
  lemma PuertasDeEjemplo(d: Direccion)
    ensures INICIO_1.TienePuerta(d) <==> d == ESTE || d == NORTE
    ensures ACERTIJO_1.TienePuerta(d) <==> d == OESTE || d == ESTE
    ensures ACERTIJO_5.TienePuerta(d) <==> d == NORTE || d == ESTE
  {
  }

  lemma ValidoEjemploInicio1()
    ensures MapaDirsValido([INICIO_1, ACERTIJO_1, ACERTIJO_5], INICIO_1, map[ESTE := ACERTIJO_1])
  {
    var hs := [INICIO_1, ACERTIJO_1, ACERTIJO_5];
    forall d ensures PuertaValida(hs, INICIO_1, map[ESTE := ACERTIJO_1], d) {
      match d
      case NORTE =>
        CandidatosDeTres(hs, INICIO_1, NORTE);
        assert Candidatos(hs, INICIO_1, NORTE) == [];
      case SUR =>
        CandidatosDeTres(hs, INICIO_1, SUR);
        assert Candidatos(hs, INICIO_1, SUR) == [ACERTIJO_5];
      case ESTE =>
        CandidatosDeTres(hs, INICIO_1, ESTE);
        assert Candidatos(hs, INICIO_1, ESTE) == [ACERTIJO_1];
      case OESTE =>
        CandidatosDeTres(hs, INICIO_1, OESTE);
        assert Candidatos(hs, INICIO_1, OESTE) == [ACERTIJO_1, ACERTIJO_5];
    }
  }

  lemma ValidoEjemploAcertijo1()
    ensures MapaDirsValido([INICIO_1, ACERTIJO_1, ACERTIJO_5], ACERTIJO_1, map[OESTE := ACERTIJO_5])
  {
    var hs := [INICIO_1, ACERTIJO_1, ACERTIJO_5];
    forall d ensures PuertaValida(hs, ACERTIJO_1, map[OESTE := ACERTIJO_5], d) {
      match d
      case NORTE =>
        CandidatosDeTres(hs, ACERTIJO_1, NORTE);
        assert Candidatos(hs, ACERTIJO_1, NORTE) == [];
      case SUR =>
        CandidatosDeTres(hs, ACERTIJO_1, SUR);
        assert Candidatos(hs, ACERTIJO_1, SUR) == [INICIO_1, ACERTIJO_5];
      case ESTE =>
        CandidatosDeTres(hs, ACERTIJO_1, ESTE);
        assert Candidatos(hs, ACERTIJO_1, ESTE) == [];
      case OESTE =>
        CandidatosDeTres(hs, ACERTIJO_1, OESTE);
        assert Candidatos(hs, ACERTIJO_1, OESTE) == [INICIO_1, ACERTIJO_5];
    }
  }

  lemma ValidoEjemploAcertijo5()
    ensures MapaDirsValido([INICIO_1, ACERTIJO_1, ACERTIJO_5], ACERTIJO_5, map[ESTE := ACERTIJO_1])
  {
    var hs := [INICIO_1, ACERTIJO_1, ACERTIJO_5];
    forall d ensures PuertaValida(hs, ACERTIJO_5, map[ESTE := ACERTIJO_1], d) {
      match d
      case NORTE =>
        CandidatosDeTres(hs, ACERTIJO_5, NORTE);
        assert Candidatos(hs, ACERTIJO_5, NORTE) == [];
      case SUR =>
        CandidatosDeTres(hs, ACERTIJO_5, SUR);
        assert Candidatos(hs, ACERTIJO_5, SUR) == [INICIO_1];
      case ESTE =>
        CandidatosDeTres(hs, ACERTIJO_5, ESTE);
        assert Candidatos(hs, ACERTIJO_5, ESTE) == [ACERTIJO_1];
      case OESTE =>
        CandidatosDeTres(hs, ACERTIJO_5, OESTE);
        assert Candidatos(hs, ACERTIJO_5, OESTE) == [INICIO_1, ACERTIJO_1];
    }
  }

  /** Connections are not symmetric: over the rooms INICIO_1, ACERTIJO_1 and
      ACERTIJO_5 the draws may send the east door of INICIO_1 to ACERTIJO_1
      while the west door of ACERTIJO_1 leads to ACERTIJO_5. */
  lemma ConexionesAsimetricas()
    ensures exists cx :: (ConexionesValidas([INICIO_1, ACERTIJO_1, ACERTIJO_5], cx)
      && INICIO_1 in cx && ESTE in cx[INICIO_1] && cx[INICIO_1][ESTE] == ACERTIJO_1
      && ACERTIJO_1 in cx && OESTE in cx[ACERTIJO_1] && cx[ACERTIJO_1][OESTE] != INICIO_1)
  {
    var cx := map[
      INICIO_1 := map[ESTE := ACERTIJO_1],
      ACERTIJO_1 := map[OESTE := ACERTIJO_5],
      ACERTIJO_5 := map[ESTE := ACERTIJO_1]];
    ValidoEjemploInicio1();
    ValidoEjemploAcertijo1();
    ValidoEjemploAcertijo5();
    assert ConexionesValidas([INICIO_1, ACERTIJO_1, ACERTIJO_5], cx);
  }
}
