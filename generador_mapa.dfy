/** The path generator: a backtracking depth-first search from INICIO_1 over
    the door graph that records every path ending in a boss room and meeting
    the quotas of the level, then draws one of the longest. */
module GeneradorMapa {
  import opened Habitacion
  import opened Opcion
  import Azar
  import GrafoPuertas
  import DisposicionMapa

  /** The quotas of one level. */
  datatype NivelCfg = NivelCfg(
    minSalas: int, maxSalas: int,
    minAcertijos: int, minCombates: int,
    requiereBotin: bool, terminaEnJefe: bool)

  /** The quotas of a level; levels other than 2 and 3 use those of level 1.
      Every level requires a loot room and a final boss, and its longest path
      has room for exactly the start, the loot room, the boss and the puzzle
      and combat quotas. */
  function ElegirCfgNivel(nivel: int): (c: NivelCfg)
    ensures 5 <= c.minSalas && c.maxSalas == c.minSalas + 2
    ensures c.minAcertijos == c.minCombates
    ensures c.maxSalas == 3 + c.minAcertijos + c.minCombates
    ensures c.requiereBotin && c.terminaEnJefe
  {
    match nivel
    case 1 => NivelCfg(5, 7, 2, 2, true, true)
    case 2 => NivelCfg(7, 9, 3, 3, true, true)
    case 3 => NivelCfg(9, 11, 4, 4, true, true)
    case _ => NivelCfg(5, 7, 2, 2, true, true)
  }

  /** The three configured levels, and the fallback to level 1 for any other. */
  lemma TablaDeNiveles(nivel: int)
    ensures ElegirCfgNivel(1) == NivelCfg(5, 7, 2, 2, true, true)
    ensures ElegirCfgNivel(2) == NivelCfg(7, 9, 3, 3, true, true)
    ensures ElegirCfgNivel(3) == NivelCfg(9, 11, 4, 4, true, true)
    ensures nivel != 2 && nivel != 3 ==> ElegirCfgNivel(nivel) == ElegirCfgNivel(1)
  {
  }

  /** The quotas a finished path must meet. */
  predicate Restricciones(path: seq<Habitacion>, cfg: NivelCfg)
    requires |path| > 0 || cfg.minSalas > 0
  {
    && cfg.minSalas <= |path| <= cfg.maxSalas
    && (cfg.terminaEnJefe ==> path[|path| - 1].tipo == JEFE)
    && CuentaTipo(path, ACERTIJO) >= cfg.minAcertijos
    && CuentaTipo(path, COMBATE) >= cfg.minCombates
    && (cfg.requiereBotin ==> CuentaTipo(path, BOTIN) > 0)
  }

  /** Every room of `hs` is counted under exactly one type. */
  lemma {:induction false} CuentaParticion(hs: seq<Habitacion>)
    ensures CuentaTipo(hs, INICIO) + CuentaTipo(hs, ACERTIJO) + CuentaTipo(hs, COMBATE)
      + CuentaTipo(hs, BOTIN) + CuentaTipo(hs, JEFE) == |hs|
    decreases |hs|
  {
    if hs != [] {
      CuentaParticion(hs[..|hs| - 1]);
    }
  }

  /** A type that occurs in `hs` is counted at least once. */
  lemma {:induction false} CuentaPresente(hs: seq<Habitacion>, i: int)
    requires 0 <= i < |hs|
    ensures CuentaTipo(hs, hs[i].tipo) >= 1
    decreases |hs|
  {
    if i < |hs| - 1 {
      CuentaPresente(hs[..|hs| - 1], i);
    }
  }

  /** A path from a start room that meets the quotas of a level is exactly as
      long as the level allows: the start, the loot room, the boss and the two
      quotas already fill `maxSalas`. So every recorded path has the maximum
      length, and the choice of "the longest" is a choice among all of them. */
  lemma CandidatoDeLongitudMaxima(path: seq<Habitacion>, nivel: int)
    requires |path| > 0 && path[0].tipo == INICIO
    requires Restricciones(path, ElegirCfgNivel(nivel))
    ensures |path| == ElegirCfgNivel(nivel).maxSalas
  {
    CuentaParticion(path);
    CuentaPresente(path, 0);
    CuentaPresente(path, |path| - 1);
  }

  /** No room occurs twice. */
  ghost predicate SinRepetidos(s: seq<Habitacion>) {
    forall i, j :: 0 <= i < j < |s| ==> s[i] != s[j]
  }

  /** Each room of `c` after the first is a neighbour of the one before it. */
  ghost predicate Encadenado(g: GrafoPuertas.GrafoPuertas, c: seq<Habitacion>)
  {
    forall i :: 0 < i < |c| ==> g.Conectadas(c[i - 1], c[i])
  }

  /** No boss room before the last position. */
  ghost predicate JefeSoloAlFinal(c: seq<Habitacion>) {
    forall i :: 0 <= i < |c| - 1 ==> c[i].tipo != JEFE
  }

  /** `c` starts with `p`. */
  ghost predicate Extiende(c: seq<Habitacion>, p: seq<Habitacion>) {
    |p| <= |c| && c[..|p|] == p
  }

  /** A path the search records: simple, following the graph, never going past
      a boss room, ending in one, and meeting the quotas. */
  ghost predicate CaminoCompleto(g: GrafoPuertas.GrafoPuertas, cfg: NivelCfg, c: seq<Habitacion>)
  {
    && |c| > 0 && SinRepetidos(c) && Encadenado(g, c) && JefeSoloAlFinal(c)
    && c[|c| - 1].tipo == JEFE && cfg.terminaEnJefe && Restricciones(c, cfg)
  }

  /** Some complete path leaves the start room. */
  ghost predicate HayCompleto(g: GrafoPuertas.GrafoPuertas, cfg: NivelCfg) {
    exists c :: Extiende(c, [INICIO_1]) && CaminoCompleto(g, cfg, c)
  }

  /** `m` is a complete path from the start room and none is longer. */
  ghost predicate ElMasLargo(g: GrafoPuertas.GrafoPuertas, cfg: NivelCfg, m: seq<Habitacion>) {
    && Extiende(m, [INICIO_1]) && CaminoCompleto(g, cfg, m)
    && forall c :: Extiende(c, [INICIO_1]) && CaminoCompleto(g, cfg, c) ==> |c| <= |m|
  }

  /** A longest entry of a list that holds only complete paths from the start
      room, and every such path, is a longest complete path. */
  lemma ElMasLargoDeCandidatos(g: GrafoPuertas.GrafoPuertas, cfg: NivelCfg, cs: seq<seq<Habitacion>>, m: seq<Habitacion>)
    requires SoloCompletos(g, cfg, [INICIO_1], cs, 0)
    requires forall c :: Extiende(c, [INICIO_1]) && CaminoCompleto(g, cfg, c) ==> c in cs
    requires m in cs && forall c :: c in cs ==> |c| <= |m|
    ensures ElMasLargo(g, cfg, m)
  {
    var k :| 0 <= k < |cs| && cs[k] == m;
  }

  /** The search state the source passes around as three mutable collections:
      the current path, the set of rooms on it, and the paths recorded so far. */
  class Busqueda {
    var path: seq<Habitacion>
    var visitados: set<Habitacion>
    var candidatos: seq<seq<Habitacion>>

    constructor (inicio: Habitacion)
      ensures path == [inicio] && visitados == {inicio} && candidatos == []
    {
      path := [inicio];
      visitados := {inicio};
      candidatos := [];
    }

    /** The current path is a non-empty simple walk through `g` with a boss
        room at most at its end, and the visited set holds exactly its rooms. */
    ghost predicate Sana(g: GrafoPuertas.GrafoPuertas)
      reads this
    {
      && |path| > 0 && (forall x :: x in visitados <==> x in path)
      && SinRepetidos(path) && Encadenado(g, path) && JefeSoloAlFinal(path)
    }
  }

  class GeneradorMapa {
    const nivel: int
    const grafo: GrafoPuertas.GrafoPuertas
    /** The generator's own random source, seeded from the configuration. */
    const rng: Azar.Random

    constructor (nivel: int, grafo: GrafoPuertas.GrafoPuertas, rng: Azar.Random)
      ensures this.nivel == nivel && this.grafo == grafo && this.rng == rng
    {
      this.nivel := nivel;
      this.grafo := grafo;
      this.rng := rng;
    }

    /** Whether `path` meets the quotas, counting the rooms of each type. */
    method CumpleRestricciones(path: seq<Habitacion>, nivelCfg: NivelCfg) returns (ok: bool)
      requires |path| > 0 || nivelCfg.minSalas > 0
      ensures ok == Restricciones(path, nivelCfg)
    {
      var n := |path|;
      if n < nivelCfg.minSalas || n > nivelCfg.maxSalas {
        return false;
      }
      var ultima := path[n - 1];
      if nivelCfg.terminaEnJefe && ultima.tipo != JEFE {
        return false;
      }
      var cAcertijo, cCombate, cBotin := 0, 0, 0;
      var i := 0;
      while i < n
        invariant 0 <= i <= n
        invariant cAcertijo == CuentaTipo(path[..i], ACERTIJO)
        invariant cCombate == CuentaTipo(path[..i], COMBATE)
        invariant cBotin == CuentaTipo(path[..i], BOTIN)
      {
        assert path[..i + 1][..i] == path[..i];
        match path[i].tipo {
          case ACERTIJO => cAcertijo := cAcertijo + 1;
          case COMBATE => cCombate := cCombate + 1;
          case BOTIN => cBotin := cBotin + 1;
          case _ =>
        }
        i := i + 1;
      }
      assert path[..n] == path;
      if cAcertijo < nivelCfg.minAcertijos {
        return false;
      }
      if cCombate < nivelCfg.minCombates {
        return false;
      }
      if nivelCfg.requiereBotin && cBotin == 0 {
        return false;
      }
      return true;
    }

    /** Extends the current path through every unvisited neighbour of `actual`,
        in shuffled order, and records each complete path it reaches; on return
        the path and the visited set are as they were. The recorded paths are
        exactly the complete paths that start with the current one. */
    method DfsTodos(actual: Habitacion, nivelCfg: NivelCfg, b: Busqueda)
      requires b.Sana(grafo) && b.path[|b.path| - 1] == actual
      modifies b, rng
      decreases nivelCfg.maxSalas + 1 - |b.path|, 2
      ensures b.path == old(b.path) && b.visitados == old(b.visitados)
      ensures Prefijo(old(b.candidatos), b.candidatos)
      ensures SoloCompletos(grafo, nivelCfg, b.path, b.candidatos, |old(b.candidatos)|)
      ensures forall c :: Extiende(c, b.path) && CaminoCompleto(grafo, nivelCfg, c) ==> c in b.candidatos
    {
      if |b.path| > nivelCfg.maxSalas {
        return;
      }
      if actual.tipo == JEFE {
        RegistrarSiCompleto(nivelCfg, b);
      } else {
        RecorrerVecinos(actual, nivelCfg, b);
      }
    }

    /** At a boss room the search stops: the current path is recorded exactly
        when it is complete, and it is the only complete path starting with itself. */
    method RegistrarSiCompleto(nivelCfg: NivelCfg, b: Busqueda)
      requires b.Sana(grafo) && b.path[|b.path| - 1].tipo == JEFE
      modifies b
      ensures b.path == old(b.path) && b.visitados == old(b.visitados)
      ensures b.candidatos == if CaminoCompleto(grafo, nivelCfg, b.path) then old(b.candidatos) + [b.path]
                              else old(b.candidatos)
      ensures Prefijo(old(b.candidatos), b.candidatos)
      ensures SoloCompletos(grafo, nivelCfg, b.path, b.candidatos, |old(b.candidatos)|)
      ensures forall c :: Extiende(c, b.path) && CaminoCompleto(grafo, nivelCfg, c) ==> c in b.candidatos
    {
      if nivelCfg.terminaEnJefe {
        var ok := CumpleRestricciones(b.path, nivelCfg);
        if ok {
          b.candidatos := b.candidatos + [b.path];
        }
      }
      CompletoTrasJefe(grafo, nivelCfg, b.path, b.candidatos);
    }

    /** The loop over the shuffled neighbours of a room that is not a boss. */
    method RecorrerVecinos(actual: Habitacion, nivelCfg: NivelCfg, b: Busqueda)
      requires b.Sana(grafo) && b.path[|b.path| - 1] == actual
      requires |b.path| <= nivelCfg.maxSalas && actual.tipo != JEFE
      modifies b, rng
      decreases nivelCfg.maxSalas + 1 - |b.path|, 1
      ensures b.path == old(b.path) && b.visitados == old(b.visitados)
      ensures Prefijo(old(b.candidatos), b.candidatos)
      ensures SoloCompletos(grafo, nivelCfg, b.path, b.candidatos, |old(b.candidatos)|)
      ensures forall c :: Extiende(c, b.path) && CaminoCompleto(grafo, nivelCfg, c) ==> c in b.candidatos
    {
      ghost var p := b.path;
      var vecinos := VecinosBarajados(actual);
      var i := 0;
      while i < |vecinos|
        invariant 0 <= i <= |vecinos|
        invariant b.path == old(b.path) && b.visitados == old(b.visitados)
        invariant Prefijo(old(b.candidatos), b.candidatos)
        invariant SoloCompletos(grafo, nivelCfg, p, b.candidatos, |old(b.candidatos)|)
        invariant RecogidosPor(grafo, nivelCfg, p, vecinos[..i], b.candidatos)
      {
        var sig := vecinos[i];
        TomarUno(vecinos, i);
        ghost var antes := b.candidatos;
        if sig !in b.visitados {
          ExplorarRama(sig, nivelCfg, b);
          SoloCompletosUnir(grafo, nivelCfg, p, old(b.candidatos), antes, b.candidatos);
          RecogidosTrasRama(grafo, nivelCfg, p, vecinos[..i], sig, antes, b.candidatos);
        } else {
          RecogidosVisitado(grafo, nivelCfg, p, vecinos[..i], sig, b.candidatos);
        }
        i := i + 1;
      }
      assert vecinos[..i] == vecinos;
      CompletoTrasVecinos(grafo, nivelCfg, p, vecinos, b.candidatos);
    }

    /** One step of the search: pushes `sig`, searches on from it and pops it
        again; what was recorded meanwhile are the complete paths through it. */
    method ExplorarRama(sig: Habitacion, nivelCfg: NivelCfg, b: Busqueda)
      requires b.Sana(grafo) && |b.path| <= nivelCfg.maxSalas && b.path[|b.path| - 1].tipo != JEFE
      requires sig !in b.visitados && grafo.Conectadas(b.path[|b.path| - 1], sig)
      modifies b, rng
      decreases nivelCfg.maxSalas + 1 - |b.path|, 0
      ensures b.path == old(b.path) && b.visitados == old(b.visitados)
      ensures Prefijo(old(b.candidatos), b.candidatos)
      ensures SoloCompletos(grafo, nivelCfg, b.path, b.candidatos, |old(b.candidatos)|)
      ensures forall c :: Extiende(c, b.path + [sig]) && CaminoCompleto(grafo, nivelCfg, c) ==> c in b.candidatos
    {
      var n := |b.path|;
      PasoValido(grafo, b.path, sig);
      b.path := b.path + [sig];
      b.visitados := b.visitados + {sig};
      DfsTodos(sig, nivelCfg, b);
      assert b.path[..n] == old(b.path);
      b.path := b.path[..n];
      b.visitados := b.visitados - {sig};
      SanosTrasRama(grafo, nivelCfg, b.path, sig, old(b.candidatos), old(b.candidatos), b.candidatos);
    }

    /** The neighbours of `actual` in the graph, shuffled with the generator's
        random source. */
    method VecinosBarajados(actual: Habitacion) returns (vecinos: seq<Habitacion>)
      modifies rng
      ensures forall x :: x in vecinos <==> grafo.Conectadas(actual, x)
      ensures rng.tiradas == Azar.Saltar(old(rng.tiradas), if |vecinos| == 0 then 0 else |vecinos| - 1)
    {
      var vecinas := grafo.Vecinas(actual);
      vecinos := Azar.Barajar(vecinas, rng);
      MismosElementos(vecinas, vecinos);
    }

    /** Draws one boss room of the catalogue, consuming one draw; `None`, and
        no draw, where the source throws because the catalogue has no boss room. */
    method ElegirJefeAleatorio() returns (r: Option<Habitacion>)
      modifies rng
      ensures r.None? <==> forall h :: h in Catalogo ==> h.tipo != JEFE
      ensures r.Some? ==> r.value in Catalogo && r.value.tipo == JEFE
      ensures rng.tiradas == if r.None? then old(rng.tiradas) else Azar.Resto(old(rng.tiradas))
    {
      var jefes: seq<Habitacion> := [];
      var i := 0;
      while i < |Catalogo|
        invariant 0 <= i <= |Catalogo|
        invariant forall h :: h in jefes <==> h in Catalogo[..i] && h.tipo == JEFE
      {
        var h := Catalogo[i];
        assert Catalogo[..i + 1] == Catalogo[..i] + [h];
        if h.tipo == JEFE {
          jefes := jefes + [h];
        }
        i := i + 1;
      }
      assert Catalogo[..i] == Catalogo;
      if jefes == [] {
        return None;
      }
      var k := rng.NextInt(|jefes|);
      assert jefes[k] in jefes;
      return Some(jefes[k]);
    }

    /** The boss drawn for the fallback path; the catalogue always has one. */
    method JefeDeRespaldo() returns (jefe: Habitacion)
      modifies rng
      ensures jefe in Catalogo && jefe.tipo == JEFE
      ensures rng.tiradas == Azar.Resto(old(rng.tiradas))
    {
      var r := ElegirJefeAleatorio();
      assert JEFE_1 in Catalogo by { assert Catalogo[23] == JEFE_1; }
      jefe := r.value;
    }

    /** One of the longest paths of `candidatos`, drawn at random among those
        of maximal length with a single draw. */
    method ElegirMasLargo(candidatos: seq<seq<Habitacion>>) returns (mejor: seq<Habitacion>)
      requires candidatos != []
      modifies rng
      ensures mejor in candidatos
      ensures forall c :: c in candidatos ==> |c| <= |mejor|
      ensures rng.tiradas == Azar.Resto(old(rng.tiradas))
    {
      var maxLen := 0;
      var i := 0;
      while i < |candidatos|
        invariant 0 <= i <= |candidatos|
        invariant forall k :: 0 <= k < i ==> |candidatos[k]| <= maxLen
        invariant i == 0 ==> maxLen == 0
        invariant i > 0 ==> exists k :: 0 <= k < i && |candidatos[k]| == maxLen
        invariant unchanged(rng)
      {
        if |candidatos[i]| > maxLen {
          maxLen := |candidatos[i]|;
        }
        i := i + 1;
      }
      var masLargos: seq<seq<Habitacion>> := [];
      var j := 0;
      while j < |candidatos|
        invariant 0 <= j <= |candidatos|
        invariant forall c :: c in masLargos <==> c in candidatos[..j] && |c| == maxLen
        invariant unchanged(rng)
      {
        TomarUno(candidatos, j);
        if |candidatos[j]| == maxLen {
          masLargos := masLargos + [candidatos[j]];
        }
        j := j + 1;
      }
      assert candidatos[..j] == candidatos;
      var k0 :| 0 <= k0 < |candidatos| && |candidatos[k0]| == maxLen;
      assert candidatos[k0] in masLargos;
      var k := rng.NextInt(|masLargos|);
      mejor := masLargos[k];
      assert mejor in masLargos;
      forall c | c in candidatos ensures |c| <= |mejor| {
        var m :| 0 <= m < |candidatos| && candidatos[m] == c;
      }
    }

    /** Searches every complete path from INICIO_1 and draws one of the longest,
        or falls back to INICIO_1 followed by a random boss room when there is
        none. The chosen path, which the source only logs, is returned beside
        the layout; the layout itself is a new, empty one. */
    method Generar() returns (disposicion: DisposicionMapa.DisposicionMapa, mejor: seq<Habitacion>)
      modifies rng
      ensures fresh(disposicion) && disposicion.Valid() && disposicion.colocaciones == []
      ensures HayCompleto(grafo, ElegirCfgNivel(nivel)) ==> ElMasLargo(grafo, ElegirCfgNivel(nivel), mejor)
      ensures !HayCompleto(grafo, ElegirCfgNivel(nivel)) ==>
        |mejor| == 2 && mejor[0] == INICIO_1 && mejor[1].tipo == JEFE
    {
      var nivelCfg := ElegirCfgNivel(nivel);
      var inicio := INICIO_1;
      var b := new Busqueda(inicio);
      DfsTodos(inicio, nivelCfg, b);
      var candidatos := b.candidatos;
      if candidatos == [] {
        var jefe := JefeDeRespaldo();
        mejor := [inicio, jefe];
      } else {
        mejor := ElegirMasLargo(candidatos);
        ElMasLargoDeCandidatos(grafo, nivelCfg, candidatos, mejor);
      }
      disposicion := new DisposicionMapa.DisposicionMapa();
    }
  }

  /** Appending an unvisited neighbour of a non-boss last room keeps a search
      path simple, chained and free of inner boss rooms. */
  lemma PasoValido(g: GrafoPuertas.GrafoPuertas, path: seq<Habitacion>, sig: Habitacion)
    requires |path| > 0 && SinRepetidos(path) && Encadenado(g, path) && JefeSoloAlFinal(path)
    requires path[|path| - 1].tipo != JEFE
    requires sig !in path && g.Conectadas(path[|path| - 1], sig)
    ensures SinRepetidos(path + [sig]) && Encadenado(g, path + [sig]) && JefeSoloAlFinal(path + [sig])
  {
    var p := path + [sig];
    forall i, j | 0 <= i < j < |p| ensures p[i] != p[j] {
      if j == |path| {
        assert p[i] == path[i];
      }
    }
    forall i | 0 < i < |p| ensures g.Conectadas(p[i - 1], p[i]) {
      if i < |path| {
        assert p[i] == path[i] && p[i - 1] == path[i - 1];
      }
    }
  }

  /** Growing a list by appending keeps every earlier prefix and element. */
  lemma PrefijoTransitivo(a: seq<seq<Habitacion>>, b: seq<seq<Habitacion>>, c: seq<seq<Habitacion>>)
    requires |a| <= |b| <= |c| && b[..|a|] == a && c[..|b|] == b
    ensures c[..|a|] == a
    ensures forall x :: x in b ==> x in c
  {
    assert c[..|a|] == c[..|b|][..|a|];
    forall x | x in b ensures x in c {
      var k :| 0 <= k < |b| && b[k] == x;
      assert c[k] == c[..|b|][k];
    }
  }

  /** A path that starts with `p + [x]` starts with `p`. */
  lemma ExtiendeSiguiente(c: seq<Habitacion>, p: seq<Habitacion>, x: Habitacion)
    requires Extiende(c, p + [x])
    ensures Extiende(c, p) && |c| > |p| && c[|p|] == x
  {
    assert c[..|p|] == c[..|p| + 1][..|p|];
    assert c[|p|] == c[..|p| + 1][|p|];
  }

  /** `o` is a prefix of `cs`. */
  ghost predicate Prefijo(o: seq<seq<Habitacion>>, cs: seq<seq<Habitacion>>) {
    |o| <= |cs| && cs[..|o|] == o
  }

  /** Every path recorded at or after position `desde` is complete and starts with `p`. */
  ghost predicate SoloCompletos(g: GrafoPuertas.GrafoPuertas, cfg: NivelCfg, p: seq<Habitacion>,
                                cs: seq<seq<Habitacion>>, desde: nat)
  {
    forall k :: desde <= k < |cs| ==> Extiende(cs[k], p) && CaminoCompleto(g, cfg, cs[k])
  }

  /** Every complete path that continues `p` through a room of `vs` is recorded in `cs`. */
  ghost predicate RecogidosPor(g: GrafoPuertas.GrafoPuertas, cfg: NivelCfg, p: seq<Habitacion>,
                               vs: seq<Habitacion>, cs: seq<seq<Habitacion>>)
  {
    forall c :: Extiende(c, p) && |c| > |p| && c[|p|] in vs && CaminoCompleto(g, cfg, c) ==> c in cs
  }

  /** After the branch through `x`: the paths recorded before it stay sound,
      and the new ones, which start with `p + [x]`, start with `p`. */
  lemma SanosTrasRama(g: GrafoPuertas.GrafoPuertas, cfg: NivelCfg, p: seq<Habitacion>, x: Habitacion,
                      o: seq<seq<Habitacion>>, antes: seq<seq<Habitacion>>, ahora: seq<seq<Habitacion>>)
    requires Prefijo(o, antes) && Prefijo(antes, ahora)
    requires SoloCompletos(g, cfg, p, antes, |o|)
    requires SoloCompletos(g, cfg, p + [x], ahora, |antes|)
    ensures Prefijo(o, ahora)
    ensures SoloCompletos(g, cfg, p, ahora, |o|)
  {
    PrefijoTransitivo(o, antes, ahora);
    forall k | |o| <= k < |ahora| ensures Extiende(ahora[k], p) && CaminoCompleto(g, cfg, ahora[k]) {
      if k < |antes| {
        assert ahora[k] == antes[k];
      } else {
        ExtiendeSiguiente(ahora[k], p, x);
      }
    }
  }

  /** Two consecutive stretches of recorded complete paths make one. */
  lemma SoloCompletosUnir(g: GrafoPuertas.GrafoPuertas, cfg: NivelCfg, p: seq<Habitacion>,
                          o: seq<seq<Habitacion>>, antes: seq<seq<Habitacion>>, ahora: seq<seq<Habitacion>>)
    requires Prefijo(o, antes) && Prefijo(antes, ahora)
    requires SoloCompletos(g, cfg, p, antes, |o|)
    requires SoloCompletos(g, cfg, p, ahora, |antes|)
    ensures Prefijo(o, ahora)
    ensures SoloCompletos(g, cfg, p, ahora, |o|)
  {
    PrefijoTransitivo(o, antes, ahora);
    forall k | |o| <= k < |ahora| ensures Extiende(ahora[k], p) && CaminoCompleto(g, cfg, ahora[k]) {
      if k < |antes| {
        assert ahora[k] == antes[k];
      }
    }
  }

  /** After the branch through `x`, every complete continuation of `p` through
      `vs + [x]` is recorded. */
  lemma RecogidosTrasRama(g: GrafoPuertas.GrafoPuertas, cfg: NivelCfg, p: seq<Habitacion>, vs: seq<Habitacion>,
                          x: Habitacion, antes: seq<seq<Habitacion>>, ahora: seq<seq<Habitacion>>)
    requires Prefijo(antes, ahora)
    requires RecogidosPor(g, cfg, p, vs, antes)
    requires forall c :: Extiende(c, p + [x]) && CaminoCompleto(g, cfg, c) ==> c in ahora
    ensures RecogidosPor(g, cfg, p, vs + [x], ahora)
  {
    PrefijoTransitivo(antes, antes, ahora);
    forall c | Extiende(c, p) && |c| > |p| && c[|p|] in vs + [x] && CaminoCompleto(g, cfg, c)
      ensures c in ahora
    {
      if c[|p|] !in vs {
        ExtiendeUno(c, p);
      }
    }
  }

  /** A room already on `p` cannot continue a simple path, so skipping it loses nothing. */
  lemma RecogidosVisitado(g: GrafoPuertas.GrafoPuertas, cfg: NivelCfg, p: seq<Habitacion>, vs: seq<Habitacion>,
                          x: Habitacion, cs: seq<seq<Habitacion>>)
    requires x in p
    requires RecogidosPor(g, cfg, p, vs, cs)
    ensures RecogidosPor(g, cfg, p, vs + [x], cs)
  {
    forall c | Extiende(c, p) && |c| > |p| && c[|p|] in vs + [x] && CaminoCompleto(g, cfg, c)
      ensures c in cs
    {
      if c[|p|] !in vs {
        assert false;
      }
    }
  }

  /** A path longer than `p` that starts with `p` starts with `p` and its next room. */
  lemma ExtiendeUno(c: seq<Habitacion>, p: seq<Habitacion>)
    requires Extiende(c, p) && |c| > |p|
    ensures Extiende(c, p + [c[|p|]])
  {
    assert c[..|p| + 1] == c[..|p|] + [c[|p|]];
  }

  lemma TomarUno<T>(s: seq<T>, i: nat)
    requires i < |s|
    ensures s[..i + 1] == s[..i] + [s[i]]
  {
  }

  /** A shuffled list holds the same elements. */
  lemma MismosElementos(a: seq<Habitacion>, b: seq<Habitacion>)
    requires multiset(a) == multiset(b)
    ensures forall x :: x in a <==> x in b
  {
    forall x ensures x in a <==> x in b {
      assert x in a <==> x in multiset(a);
      assert x in b <==> x in multiset(b);
    }
  }

  /** At a boss room the only complete path starting with `p` is `p` itself. */
  lemma CompletoTrasJefe(g: GrafoPuertas.GrafoPuertas, cfg: NivelCfg, p: seq<Habitacion>, cs: seq<seq<Habitacion>>)
    requires |p| > 0 && p[|p| - 1].tipo == JEFE
    requires CaminoCompleto(g, cfg, p) ==> p in cs
    ensures forall c :: Extiende(c, p) && CaminoCompleto(g, cfg, c) ==> c in cs
  {
    forall c | Extiende(c, p) && CaminoCompleto(g, cfg, c) ensures c in cs {
      var n := |p|;
      assert |c| == n;
      assert c == c[..n];
    }
  }

  /** From a room that is not a boss, a complete path starting with `p` goes on
      to a neighbour of the last room; when the branches through all neighbours
      are recorded, so is every complete path starting with `p`. */
  lemma CompletoTrasVecinos(g: GrafoPuertas.GrafoPuertas, cfg: NivelCfg, p: seq<Habitacion>,
                            vs: seq<Habitacion>, cs: seq<seq<Habitacion>>)
    requires |p| > 0 && p[|p| - 1].tipo != JEFE
    requires forall x :: g.Conectadas(p[|p| - 1], x) ==> x in vs
    requires RecogidosPor(g, cfg, p, vs, cs)
    ensures forall c :: Extiende(c, p) && CaminoCompleto(g, cfg, c) ==> c in cs
  {
    forall c | Extiende(c, p) && CaminoCompleto(g, cfg, c) ensures c in cs {
      var n := |p|;
      if |c| == n {
        assert false;
      }
      assert c[n - 1] == p[n - 1];
      assert g.Conectadas(c[n - 1], c[n]);
    }
  }
}
