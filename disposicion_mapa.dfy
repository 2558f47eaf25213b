/** The generated layout: placements on a logical grid, in insertion order,
    plus a lookup from the cell key `"gx:gy"` to the newest placement there. */
module DisposicionMapa {
  import opened Habitacion
  import opened Opcion

  /** A room placed at grid cell (gx, gy). */
  datatype Colocacion = Colocacion(habitacion: Habitacion, gx: int, gy: int)

  // ----- cell keys: the decimal text of gx, a colon, the decimal text of gy -----

  predicate EsDigito(c: char) {
    '0' <= c <= '9'
  }

  function Digito(d: nat): (c: char)
    requires d < 10
    ensures EsDigito(c)
  {
    ('0' as int + d) as char
  }

  function ValorDigito(c: char): (d: nat)
    requires EsDigito(c)
    ensures d < 10
  {
    c as int - '0' as int
  }

  /** The decimal digits of `n`, most significant first, without leading zeros. */
  function Digitos(n: nat): (s: string)
    ensures |s| >= 1
    ensures forall i :: 0 <= i < |s| ==> EsDigito(s[i])
    decreases n
  {
    if n < 10 then [Digito(n)] else Digitos(n / 10) + [Digito(n % 10)]
  }

  /** The decimal text of an integer, with a leading `-` when it is negative. */
  function Decimal(n: int): (s: string)
    ensures |s| >= 1 && ':' !in s
  {
    if n < 0 then "-" + Digitos(-n) else Digitos(n)
  }

  /** The lookup key of cell (gx, gy). */
  function Clave(gx: int, gy: int): string {
    Decimal(gx) + ":" + Decimal(gy)
  }

  // ----- reading keys back: the inverse of Clave -----

  predicate SoloDigitos(s: string) {
    forall i :: 0 <= i < |s| ==> EsDigito(s[i])
  }

  function LeerNatural(s: string): nat
    requires SoloDigitos(s)
  {
    if s == [] then 0 else LeerNatural(s[..|s| - 1]) * 10 + ValorDigito(s[|s| - 1])
  }

  function LeerEntero(s: string): Option<int> {
    if |s| >= 2 && s[0] == '-' && SoloDigitos(s[1..]) then
      Some(0 - LeerNatural(s[1..]) as int)
    else if |s| >= 1 && SoloDigitos(s) then Some(LeerNatural(s))
    else None
  }

  /** The index of the first `c` in `s`, if any. */
  function PrimeraPosicion(s: string, c: char): (r: Option<nat>)
    ensures r.Some? ==> r.value < |s| && s[r.value] == c && c !in s[..r.value]
    ensures r.None? ==> c !in s
  {
    if s == [] then None
    else if s[0] == c then Some(0)
    else
      match PrimeraPosicion(s[1..], c)
      case None => None
      case Some(p) => assert s[..p + 1] == [s[0]] + s[1..][..p]; Some(p + 1)
  }

  function LeerClave(k: string): Option<(int, int)> {
    match PrimeraPosicion(k, ':')
    case None => None
    case Some(p) =>
      match (LeerEntero(k[..p]), LeerEntero(k[p + 1..]))
      case (Some(gx), Some(gy)) => Some((gx, gy))
      case _ => None
  }

  lemma {:induction false} LeerDigitos(n: nat)
    ensures LeerNatural(Digitos(n)) == n
    decreases n
  {
    var s := Digitos(n);
    if n >= 10 {
      LeerDigitos(n / 10);
      assert s[..|s| - 1] == Digitos(n / 10);
    }
  }

  lemma LeerDecimal(n: int)
    ensures LeerEntero(Decimal(n)) == Some(n)
  {
    if n < 0 {
      LeerNegativo(-n);
    } else {
      var s := Digitos(n);
      LeerDigitos(n);
      assert SoloDigitos(s);
      assert s[0] != '-' by { assert EsDigito(s[0]); }
    }
  }

  lemma LeerNegativo(m: nat)
    requires m > 0
    ensures LeerEntero("-" + Digitos(m)) == Some(0 - m)
  {
    var s := Digitos(m);
    LeerDigitos(m);
    assert SoloDigitos(s);
    assert ("-" + s)[1..] == s;
  }

  /** The first colon of `a + ":" + b` is the one after `a` when `a` has none. */
  lemma {:induction false} PrimerSeparador(a: string, b: string)
    requires ':' !in a
    ensures PrimeraPosicion(a + ":" + b, ':') == Some(|a|)
  {
    var k := a + ":" + b;
    if a == [] {
      assert k[0] == ':';
    } else {
      assert k[0] == a[0] && a[0] in a;
      assert k[1..] == a[1..] + ":" + b;
      assert forall x :: x in a[1..] ==> x in a;
      PrimerSeparador(a[1..], b);
    }
  }

  /** Reading a key back gives the cell it was built from. */
  lemma ClaveIdaYVuelta(gx: int, gy: int)
    ensures LeerClave(Clave(gx, gy)) == Some((gx, gy))
  {
    var a := Decimal(gx);
    var b := Decimal(gy);
    var k := Clave(gx, gy);
    PrimerSeparador(a, b);
    assert k[..|a|] == a;
    assert k[|a| + 1..] == b;
    LeerDecimal(gx);
    LeerDecimal(gy);
  }

  /** Distinct cells never share a key. */
  lemma ClaveInyectiva(gx1: int, gy1: int, gx2: int, gy2: int)
    ensures Clave(gx1, gy1) == Clave(gx2, gy2) <==> gx1 == gx2 && gy1 == gy2
  {
    ClaveIdaYVuelta(gx1, gy1);
    ClaveIdaYVuelta(gx2, gy2);
  }

  /** No two cells share a key. */
  ghost predicate Inyectiva(clave: (int, int) -> string) {
    forall gx1, gy1, gx2, gy2 :: clave(gx1, gy1) == clave(gx2, gy2) ==> gx1 == gx2 && gy1 == gy2
  }

  lemma ClaveEsInyectiva()
    ensures Inyectiva(Clave)
  {
    forall gx1, gy1, gx2, gy2 | Clave(gx1, gy1) == Clave(gx2, gy2) ensures gx1 == gx2 && gy1 == gy2 {
      ClaveInyectiva(gx1, gy1, gx2, gy2);
    }
  }

  // ----- the layout -----

  /** The cell lookup built by adding `cs` in order under the key function
      `clave`: a later placement at a cell replaces an earlier one. */
  function Indice(cs: seq<Colocacion>, clave: (int, int) -> string): map<string, Colocacion> {
    if cs == [] then map[]
    else
      var c := cs[|cs| - 1];
      Indice(cs[..|cs| - 1], clave)[clave(c.gx, c.gy) := c]
  }

  predicate EnCelda(c: Colocacion, gx: int, gy: int) {
    c.gx == gx && c.gy == gy
  }

  /** The cell (gx, gy) is in the lookup iff some placement is there. */
  lemma {:induction false} IndiceOcupada(cs: seq<Colocacion>, clave: (int, int) -> string, gx: int, gy: int)
    requires Inyectiva(clave)
    ensures clave(gx, gy) in Indice(cs, clave) <==> exists i :: 0 <= i < |cs| && EnCelda(cs[i], gx, gy)
  {
    if cs != [] {
      var previas := cs[..|cs| - 1];
      IndiceOcupada(previas, clave, gx, gy);
      if exists i :: 0 <= i < |cs| && EnCelda(cs[i], gx, gy) {
        var i :| 0 <= i < |cs| && EnCelda(cs[i], gx, gy);
        if i < |previas| {
          assert EnCelda(previas[i], gx, gy);
        }
      }
      if exists i :: 0 <= i < |previas| && EnCelda(previas[i], gx, gy) {
        var i :| 0 <= i < |previas| && EnCelda(previas[i], gx, gy);
        assert EnCelda(cs[i], gx, gy);
      }
    }
  }

  /** `cs[i]` is the newest placement at (gx, gy). */
  predicate UltimaEn(cs: seq<Colocacion>, i: int, gx: int, gy: int) {
    && 0 <= i < |cs| && EnCelda(cs[i], gx, gy)
    && forall j :: i < j < |cs| ==> !EnCelda(cs[j], gx, gy)
  }

  /** An occupied cell maps to its newest placement. */
  lemma {:induction false} IndiceUltima(cs: seq<Colocacion>, clave: (int, int) -> string, gx: int, gy: int)
    requires Inyectiva(clave)
    requires clave(gx, gy) in Indice(cs, clave)
    ensures exists i :: UltimaEn(cs, i, gx, gy) && cs[i] == Indice(cs, clave)[clave(gx, gy)]
  {
    var previas := cs[..|cs| - 1];
    if EnCelda(cs[|cs| - 1], gx, gy) {
      assert UltimaEn(cs, |cs| - 1, gx, gy);
    } else {
      IndiceUltima(previas, clave, gx, gy);
      var i :| UltimaEn(previas, i, gx, gy) && previas[i] == Indice(previas, clave)[clave(gx, gy)];
      forall j | i < j < |cs| ensures !EnCelda(cs[j], gx, gy) {
        if j < |previas| {
          assert cs[j] == previas[j];
        }
      }
      assert UltimaEn(cs, i, gx, gy);
    }
  }

  class DisposicionMapa {
    /** The placements in the order they were added. */
    var colocaciones: seq<Colocacion>
    /** The newest placement of each occupied cell, by cell key. */
    var porCelda: map<string, Colocacion>

    ghost predicate Valid()
      reads this
    {
      porCelda == Indice(colocaciones, Clave)
    }

    constructor ()
      ensures Valid() && colocaciones == [] && porCelda == map[]
    {
      colocaciones := [];
      porCelda := map[];
    }

    /** Appends `c` and makes it the placement found at its cell; an occupied
        cell is not checked, so the earlier entry stays in the list. */
    method Agregar(c: Colocacion)
      requires Valid()
      modifies this
      ensures Valid()
      ensures colocaciones == old(colocaciones) + [c]
      ensures porCelda == old(porCelda)[Clave(c.gx, c.gy) := c]
      ensures Ocupada(c.gx, c.gy) && En(c.gx, c.gy) == Some(c)
    {
      colocaciones := colocaciones + [c];
      porCelda := porCelda[Clave(c.gx, c.gy) := c];
      assert colocaciones[..|colocaciones| - 1] == old(colocaciones);
    }

    /** Whether some placement sits at (gx, gy). */
    function Ocupada(gx: int, gy: int): (r: bool)
      reads this
      requires Valid()
      ensures r <==> exists i :: 0 <= i < |colocaciones| && EnCelda(colocaciones[i], gx, gy)
    {
      ClaveEsInyectiva();
      IndiceOcupada(colocaciones, Clave, gx, gy);
      Clave(gx, gy) in porCelda
    }

    /** The newest placement at (gx, gy), `None` for an empty cell. */
    function En(gx: int, gy: int): (r: Option<Colocacion>)
      reads this
      requires Valid()
      ensures r.Some? <==> Ocupada(gx, gy)
      ensures r.Some? ==> exists i :: UltimaEn(colocaciones, i, gx, gy) && colocaciones[i] == r.value
    {
      var k := Clave(gx, gy);
      if k in porCelda then
        ClaveEsInyectiva();
        IndiceUltima(colocaciones, Clave, gx, gy);
        Some(porCelda[k])
      else None
    }

    /** The placements in insertion order, as a read-only view. */
    function Todas(): seq<Colocacion>
      reads this
    {
      colocaciones
    }

    /** The read-only list and the cell lookup agree: every listed
        placement's cell is occupied, and what a cell holds is listed. */
    lemma TodasEnElIndice(gx: int, gy: int)
      requires Valid()
      ensures forall c :: c in Todas() ==> Ocupada(c.gx, c.gy)
      ensures Ocupada(gx, gy) ==> En(gx, gy).Some? && En(gx, gy).value in Todas()
    {
      forall c | c in Todas() ensures Ocupada(c.gx, c.gy) {
        var i :| 0 <= i < |colocaciones| && colocaciones[i] == c;
        assert EnCelda(colocaciones[i], c.gx, c.gy);
      }
    }

    /** A new array holding the room of each placement, in insertion order. */
    method HabitacionesComoArray() returns (arr: array<Habitacion>)
      ensures fresh(arr)
      ensures arr.Length == |Todas()|
      ensures forall i :: 0 <= i < arr.Length ==> arr[i] == Todas()[i].habitacion
    {
      arr := new Habitacion[|colocaciones|](_ => INICIO_1);
      var i := 0;
      while i < |colocaciones|
        invariant 0 <= i <= |colocaciones| == arr.Length
        invariant forall k :: 0 <= k < i ==> arr[k] == colocaciones[k].habitacion
      {
        arr[i] := colocaciones[i].habitacion;
        i := i + 1;
      }
    }
  }
}
