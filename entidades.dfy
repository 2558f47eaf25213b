/** The player entity (life, cap, look and passive inventory) and the item
    instances it carries. */
module Entidades {
  import opened Vitales
  import opened ItemTipos
  import opened Opcion

  /** An item instance. Its name, description and effect are those of its
      type; two instances of one type are still different objects. */
  class Item {
    const tipo: ItemTipo

    constructor (t: ItemTipo)
      ensures tipo == t
    {
      tipo := t;
    }

    /** Applies the type's effect to `j` through the player's setters. */
    method AplicarModificacion(j: Jugador)
      requires j.Valid()
      modifies j
      ensures j.Valid()
      ensures j.Salud() == Efecto(tipo, old(j.Salud()))
      ensures j.Resto() == old(j.Resto())
    {
      match tipo
      case CORAZON_EXTRA =>
        j.SetVidaMaxima(j.vidaMaxima + 1);
        j.SetVida(j.vidaMaxima);
      case CHOCOLATE_BLANCO =>
        j.SetVida(j.vida + 1);
      case ARMADURA_LIGERA =>
        j.SetVidaMaxima(j.vidaMaxima + 2);
      case BOTA_VELOZ =>
      case RELOJ_ROTO =>
    }
  }

  /** `ItemTipo.crear()`: a new instance showing the type's name and description. */
  method Crear(t: ItemTipo) returns (it: Item)
    ensures fresh(it) && it.tipo == t
  {
    it := new Item(t);
  }

  /** The types of a list of items, in order. */
  function Tipos(os: seq<Item>): (ts: seq<ItemTipo>)
    ensures |ts| == |os|
    ensures forall i :: 0 <= i < |os| ==> ts[i] == os[i].tipo
  {
    if os == [] then [] else [os[0].tipo] + Tipos(os[1..])
  }

  /** Applying the effects of `ts` one after another, in list order. */
  function Aplicados(ts: seq<ItemTipo>, s: Vitales): Vitales
    decreases |ts|
  {
    if ts == [] then s else Aplicados(ts[1..], Efecto(ts[0], s))
  }

  /** The base stats `reaplicarEfectosDeItems` starts from: cap three, life
      lowered to three when it was higher. */
  function Reinicio(s: Vitales): (r: Vitales)
    ensures r.vidaMaxima == 3 && r.vida <= 3
    ensures s.vida <= 3 ==> r.vida == s.vida
    ensures s.Valid() ==> r.Valid()
  {
    Vitales(if s.vida > 3 then 3 else s.vida, 3)
  }

  /** `s` with its first occurrence of `x` taken out; `s` itself when `x` is absent. */
  function SinPrimera<T(==)>(s: seq<T>, x: T): (r: seq<T>)
    ensures x !in s ==> r == s
    ensures x in s ==> |r| == |s| - 1
    ensures multiset(r) == multiset(s) - multiset{x}
    decreases |s|
  {
    if s == [] then []
    else
      assert s == [s[0]] + s[1..];
      if s[0] == x then s[1..] else [s[0]] + SinPrimera(s[1..], x)
  }

  /** Removing the first occurrence cuts out exactly the first index holding `x`
      and keeps every other element in order. */
  lemma {:induction false} SinPrimeraEn<T>(s: seq<T>, x: T, i: nat)
    requires i < |s| && s[i] == x && x !in s[..i]
    ensures SinPrimera(s, x) == s[..i] + s[i + 1..]
    decreases i
  {
    if i > 0 {
      assert s[0] != x by { assert s[0] in s[..i]; }
      assert s[1..][..i - 1] == s[..i][1..];
      SinPrimeraEn(s[1..], x, i - 1);
      Empalme(s, i);
    }
  }

  /** Cutting index `i` out of `s` is keeping `s[0]` and cutting index `i - 1` out of the tail. */
  lemma Empalme<T>(s: seq<T>, i: nat)
    requires 0 < i < |s|
    ensures [s[0]] + (s[1..][..i - 1] + s[1..][i..]) == s[..i] + s[i + 1..]
  {
    assert [s[0]] + s[1..][..i - 1] == s[..i];
    assert s[1..][i..] == s[i + 1..];
  }

  /** How many entries of `ts` are `t`. */
  function Cuantos(ts: seq<ItemTipo>, t: ItemTipo): nat
    decreases |ts|
  {
    if ts == [] then 0 else (if ts[0] == t then 1 else 0) + Cuantos(ts[1..], t)
  }

  /** After applying a list of items, the cap has grown by one per extra heart
      and by two per light armour, whatever the order and whatever the life. */
  lemma {:induction false} MaximaSegunItems(ts: seq<ItemTipo>, s: Vitales)
    requires s.Valid()
    ensures Aplicados(ts, s).vidaMaxima
      == s.vidaMaxima + Cuantos(ts, CORAZON_EXTRA) + 2 * Cuantos(ts, ARMADURA_LIGERA)
    decreases |ts|
  {
    if ts != [] {
      MaximaSegunItems(ts[1..], Efecto(ts[0], s));
    }
  }

  /** Applying items never breaks `0 <= vida <= vidaMaxima` with `vidaMaxima >= 1`. */
  lemma {:induction false} AplicadosValidos(ts: seq<ItemTipo>, s: Vitales)
    requires s.Valid()
    ensures Aplicados(ts, s).Valid()
    decreases |ts|
  {
    if ts != [] {
      AplicadosValidos(ts[1..], Efecto(ts[0], s));
    }
  }

  /** Applying one list after another is applying their concatenation. */
  lemma {:induction false} AplicadosConcat(a: seq<ItemTipo>, b: seq<ItemTipo>, s: Vitales)
    ensures Aplicados(a + b, s) == Aplicados(b, Aplicados(a, s))
    decreases |a|
  {
    if a == [] {
      assert a + b == b;
    } else {
      assert (a + b)[1..] == a[1..] + b;
      AplicadosConcat(a[1..], b, Efecto(a[0], s));
    }
  }

  /** One more item of the list applies its effect after those before it. */
  lemma AplicadosPaso(os: seq<Item>, i: nat, s: Vitales)
    requires i < |os|
    ensures Aplicados(Tipos(os[..i + 1]), s) == Efecto(os[i].tipo, Aplicados(Tipos(os[..i]), s))
  {
    assert os[..i + 1] == os[..i] + [os[i]];
    assert Tipos(os[..i + 1]) == Tipos(os[..i]) + [os[i].tipo];
    AplicadosConcat(Tipos(os[..i]), [os[i].tipo], s);
  }

  /** The order of effects matters: white chocolate then light armour leaves
      a fresh player at three of five, the other order at four of five. */
  lemma OrdenImporta()
    ensures Aplicados([CHOCOLATE_BLANCO, ARMADURA_LIGERA], INICIALES) == Vitales(3, 5)
    ensures Aplicados([ARMADURA_LIGERA, CHOCOLATE_BLANCO], INICIALES) == Vitales(4, 5)
  {
  }

  /** Look used when the player is created without one. */
  const GENERO_POR_DEFECTO: string := "MASCULINO"
  const ESTILO_POR_DEFECTO: string := "CLASICO"

  class Jugador {
    const nombre: string
    var genero: string
    var estilo: string
    var vida: int
    var vidaMaxima: int
    /** Position of the physics body; `None` when the player has none. */
    var cuerpo: Option<(int, int)>
    /** The passive items picked up, in pickup order. */
    var objetos: seq<Item>

    function Salud(): Vitales
      reads this
    {
      Vitales(vida, vidaMaxima)
    }

    /** Everything but life and cap. */
    function Resto(): (string, string, Option<(int, int)>, seq<Item>)
      reads this
    {
      (genero, estilo, cuerpo, objetos)
    }

    ghost predicate Valid()
      reads this
    {
      Salud().Valid()
    }

    /** A new player at three of three, with the default look for a missing
        one, a body at (x, y) and no items. */
    constructor (nombre: string, generoInicial: Option<string>, estiloInicial: Option<string>, x: int, y: int)
      ensures Valid() && Salud() == INICIALES
      ensures this.nombre == nombre
      ensures genero == (if generoInicial.Some? then generoInicial.value else GENERO_POR_DEFECTO)
      ensures estilo == (if estiloInicial.Some? then estiloInicial.value else ESTILO_POR_DEFECTO)
      ensures cuerpo == Some((x, y)) && objetos == []
    {
      this.nombre := nombre;
      genero := if generoInicial.Some? then generoInicial.value else GENERO_POR_DEFECTO;
      estilo := if estiloInicial.Some? then estiloInicial.value else ESTILO_POR_DEFECTO;
      vidaMaxima := 3;
      vida := 3;
      cuerpo := Some((x, y));
      objetos := [];
    }

    /** A missing look leaves the current one. */
    method SetGenero(g: Option<string>)
      modifies this
      ensures genero == (if g.Some? then g.value else old(genero))
      ensures estilo == old(estilo) && Salud() == old(Salud()) && cuerpo == old(cuerpo) && objetos == old(objetos)
    {
      if g.Some? {
        genero := g.value;
      }
    }

    method SetEstilo(e: Option<string>)
      modifies this
      ensures estilo == (if e.Some? then e.value else old(estilo))
      ensures genero == old(genero) && Salud() == old(Salud()) && cuerpo == old(cuerpo) && objetos == old(objetos)
    {
      if e.Some? {
        estilo := e.value;
      }
    }

    method SetVida(v: int)
      modifies this
      ensures Salud() == ConVida(old(Salud()), v)
      ensures Resto() == old(Resto())
      ensures old(Valid()) ==> Valid()
    {
      var w := v;
      if w < 0 {
        w := 0;
      }
      if w > vidaMaxima {
        w := vidaMaxima;
      }
      vida := w;
    }

    method SetVidaMaxima(m: int)
      modifies this
      ensures Salud() == ConVidaMaxima(old(Salud()), m)
      ensures Resto() == old(Resto())
      ensures old(Valid()) ==> Valid()
    {
      var w := m;
      if w < 1 {
        w := 1;
      }
      vidaMaxima := w;
      if vida > vidaMaxima {
        vida := vidaMaxima;
      }
    }

    /** A missing item is ignored; any other goes to the end of the list. */
    method AgregarObjeto(item: Item?)
      modifies this
      ensures objetos == if item == null then old(objetos) else old(objetos) + [item]
      ensures Salud() == old(Salud()) && genero == old(genero) && estilo == old(estilo) && cuerpo == old(cuerpo)
    {
      if item != null {
        objetos := objetos + [item];
      }
    }

    /** Takes out the first occurrence of `item`, if any; the list never holds
        a missing item, so removing one changes nothing. */
    method RemoverObjeto(item: Item?)
      modifies this
      ensures item == null ==> objetos == old(objetos)
      ensures item != null ==> objetos == SinPrimera(old(objetos), item)
      ensures Salud() == old(Salud()) && genero == old(genero) && estilo == old(estilo) && cuerpo == old(cuerpo)
    {
      if item == null {
        return;
      }
      var i := 0;
      while i < |objetos| && objetos[i] != item
        invariant 0 <= i <= |objetos|
        invariant item !in objetos[..i]
      {
        assert objetos[..i + 1] == objetos[..i] + [objetos[i]];
        i := i + 1;
      }
      if i < |objetos| {
        SinPrimeraEn(objetos, item, i);
        objetos := objetos[..i] + objetos[i + 1..];
      } else {
        assert objetos[..i] == objetos;
      }
    }

    /** Resets the cap to three, lowers life to it, then applies every item's
        effect in list order. */
    method ReaplicarEfectosDeItems()
      requires Valid()
      modifies this
      ensures Valid()
      ensures Salud() == Aplicados(Tipos(objetos), Reinicio(old(Salud())))
      ensures Resto() == old(Resto())
    {
      vidaMaxima := 3;
      if vida > vidaMaxima {
        vida := vidaMaxima;
      }
      ghost var base := Salud();
      var i := 0;
      while i < |objetos|
        invariant 0 <= i <= |objetos|
        invariant Valid()
        invariant Resto() == old(Resto())
        invariant Salud() == Aplicados(Tipos(objetos[..i]), base)
      {
        objetos[i].AplicarModificacion(this);
        AplicadosPaso(objetos, i, base);
        i := i + 1;
      }
      assert objetos[..i] == objetos;
    }
  }
}
