/** The five passive item types: their rarity, text and effect on a player's
    life, and the weighted draw of a type by rarity. */
module ItemTipos {
  import opened Vitales
  import opened Opcion
  import Azar

  datatype RarezaItem = COMUN | RARO | EPICO

  datatype ItemTipo = CORAZON_EXTRA | BOTA_VELOZ | CHOCOLATE_BLANCO | RELOJ_ROTO | ARMADURA_LIGERA
  {
    const rareza: RarezaItem :=
      match this
      case CORAZON_EXTRA => RARO
      case BOTA_VELOZ => COMUN
      case CHOCOLATE_BLANCO => COMUN
      case RELOJ_ROTO => RARO
      case ARMADURA_LIGERA => EPICO

    const nombre: string :=
      match this
      case CORAZON_EXTRA => "Corazón Extra"
      case BOTA_VELOZ => "Bota Veloz"
      case CHOCOLATE_BLANCO => "Chocolate Blanco"
      case RELOJ_ROTO => "Reloj Roto"
      case ARMADURA_LIGERA => "Armadura Ligera"

    const descripcion: string :=
      match this
      case CORAZON_EXTRA => "Aumenta la vida máxima en +1 y cura completamente."
      case BOTA_VELOZ => "Aumenta la velocidad en +50."
      case CHOCOLATE_BLANCO => "Restaura 1 punto de vida."
      case RELOJ_ROTO => "Reduce tu velocidad en 40."
      case ARMADURA_LIGERA => "Aumenta la vida máxima en +2 (no cura)."
  }

  /** `ItemTipo.values()`, in declaration order. */
  const TIPOS: seq<ItemTipo> := [CORAZON_EXTRA, BOTA_VELOZ, CHOCOLATE_BLANCO, RELOJ_ROTO, ARMADURA_LIGERA]

  /** What applying an item of type `t` does to life and cap, through the
      player's clamping setters; the speed items leave both alone. */
  function Efecto(t: ItemTipo, s: Vitales): (r: Vitales)
    ensures s.Valid() ==> r.Valid()
    ensures t == CORAZON_EXTRA && s.vidaMaxima >= 0 ==> r.vidaMaxima == s.vidaMaxima + 1 && r.vida == r.vidaMaxima
    ensures t == CHOCOLATE_BLANCO ==> r.vidaMaxima == s.vidaMaxima
    ensures t == CHOCOLATE_BLANCO && s.Valid() ==>
      r.vida == if s.vida < s.vidaMaxima then s.vida + 1 else s.vidaMaxima
    ensures t == ARMADURA_LIGERA && s.vidaMaxima >= 0 && s.vida <= s.vidaMaxima ==>
      r.vidaMaxima == s.vidaMaxima + 2 && r.vida == s.vida
    ensures t == BOTA_VELOZ || t == RELOJ_ROTO ==> r == s
  {
    match t
    case CORAZON_EXTRA =>
      var s1 := ConVidaMaxima(s, s.vidaMaxima + 1);
      ConVida(s1, s1.vidaMaxima)
    case CHOCOLATE_BLANCO => ConVida(s, s.vida + 1)
    case ARMADURA_LIGERA => ConVidaMaxima(s, s.vidaMaxima + 2)
    case BOTA_VELOZ => s
    case RELOJ_ROTO => s
  }

  // ----- weighted draw -----

  /** The sum of the weights of the rarities of `ts`. */
  function Total(ts: seq<ItemTipo>, peso: RarezaItem -> int): int
    decreases |ts|
  {
    if ts == [] then 0 else peso(ts[0].rareza) + Total(ts[1..], peso)
  }

  /** The index the selection loop stops at for draw `r`: the first type whose
      weight, taken from what is left of `r`, makes it negative; `|ts|` when
      none does. */
  function Elegido(ts: seq<ItemTipo>, peso: RarezaItem -> int, r: int): (k: nat)
    ensures k <= |ts|
    decreases |ts|
  {
    if ts == [] then 0
    else if r - peso(ts[0].rareza) < 0 then 0
    else 1 + Elegido(ts[1..], peso, r - peso(ts[0].rareza))
  }

  /** The type drawn for `r`; the source falls back to the first type. */
  function SegunTirada(peso: RarezaItem -> int, r: int): ItemTipo {
    var k := Elegido(TIPOS, peso, r);
    if k < |TIPOS| then TIPOS[k] else TIPOS[0]
  }

  /** Draws a type with probability proportional to its rarity's weight;
      `None` where `nextInt` would throw because the weights add up to at most zero. */
  method AleatorioSegunRareza(rng: Azar.Random, peso: RarezaItem -> int) returns (t: Option<ItemTipo>)
    modifies rng
    ensures Total(TIPOS, peso) <= 0 ==> t == None
    ensures Total(TIPOS, peso) > 0 ==>
      t == Some(SegunTirada(peso, Azar.Sorteo(old(rng.tiradas), Total(TIPOS, peso))))
    ensures rng.tiradas == if Total(TIPOS, peso) > 0 then Azar.Resto(old(rng.tiradas)) else old(rng.tiradas)
  {
    var total := 0;
    var i := 0;
    while i < |TIPOS|
      invariant 0 <= i <= |TIPOS|
      invariant total + Total(TIPOS[i..], peso) == Total(TIPOS, peso)
    {
      assert TIPOS[i..][1..] == TIPOS[i + 1..];
      total := total + peso(TIPOS[i].rareza);
      i := i + 1;
    }
    if total <= 0 {
      return None;
    }
    var r := rng.NextInt(total);
    ghost var r0 := r;
    var j := 0;
    while j < |TIPOS|
      invariant 0 <= j <= |TIPOS|
      invariant Elegido(TIPOS, peso, r0) == j + Elegido(TIPOS[j..], peso, r)
    {
      assert TIPOS[j..][1..] == TIPOS[j + 1..];
      r := r - peso(TIPOS[j].rareza);
      if r < 0 {
        return Some(TIPOS[j]);
      }
      j := j + 1;
    }
    return Some(TIPOS[0]);
  }

  /** A non-negative draw below the total always stops inside the list, so
      the fallback to the first type is never taken. */
  lemma {:induction false} SinRespaldo(ts: seq<ItemTipo>, peso: RarezaItem -> int, r: int)
    requires 0 <= r < Total(ts, peso)
    ensures Elegido(ts, peso, r) < |ts|
    decreases |ts|
  {
    if r - peso(ts[0].rareza) >= 0 {
      SinRespaldo(ts[1..], peso, r - peso(ts[0].rareza));
    }
  }

  /** The weight of the first `k` types. */
  function Acumulado(ts: seq<ItemTipo>, peso: RarezaItem -> int, k: nat): int
    requires k <= |ts|
  {
    Total(ts[..k], peso)
  }

  lemma {:induction false} NoNegativo(ts: seq<ItemTipo>, peso: RarezaItem -> int)
    requires forall x :: peso(x) > 0
    ensures Total(ts, peso) >= 0
    ensures ts != [] ==> Total(ts, peso) > 0
    decreases |ts|
  {
    if ts != [] {
      NoNegativo(ts[1..], peso);
    }
  }

  lemma {:induction false} TotalConcat(a: seq<ItemTipo>, b: seq<ItemTipo>, peso: RarezaItem -> int)
    ensures Total(a + b, peso) == Total(a, peso) + Total(b, peso)
    decreases |a|
  {
    if a != [] {
      assert (a + b)[0] == a[0];
      assert (a + b)[1..] == a[1..] + b;
      TotalConcat(a[1..], b, peso);
    } else {
      assert a + b == b;
    }
  }

  /** The weight of the types before `k + 1` is that before `k` plus the
      weight of type `k`. */
  lemma AcumuladoSiguiente(ts: seq<ItemTipo>, peso: RarezaItem -> int, k: nat)
    requires k < |ts|
    ensures Acumulado(ts, peso, k + 1) == Acumulado(ts, peso, k) + peso(ts[k].rareza)
  {
    assert ts[..k + 1] == ts[..k] + [ts[k]];
    TotalConcat(ts[..k], [ts[k]], peso);
    assert [ts[k]][1..] == [];
  }

  /** With positive weights, the draw `r` selects index `k` exactly when `r`
      lies between the weight of the types before `k` and that weight plus
      the weight of type `k`. */
  lemma {:induction false} Tramo(ts: seq<ItemTipo>, peso: RarezaItem -> int, r: int, k: nat)
    requires forall x :: peso(x) > 0
    requires 0 <= r && k < |ts|
    ensures Elegido(ts, peso, r) == k <==> Acumulado(ts, peso, k) <= r < Acumulado(ts, peso, k + 1)
    decreases |ts|
  {
    var p := peso(ts[0].rareza);
    AcumuladoSiguiente(ts, peso, k);
    if k == 0 {
      assert ts[..0] == [];
    } else {
      var resto := ts[1..];
      assert ts[..k][0] == ts[0];
      assert ts[..k][1..] == resto[..k - 1];
      assert Acumulado(ts, peso, k) == p + Acumulado(resto, peso, k - 1);
      AcumuladoSiguiente(resto, peso, k - 1);
      assert resto[k - 1] == ts[k];
      NoNegativo(resto[..k - 1], peso);
      if r - p >= 0 {
        Tramo(resto, peso, r - p, k - 1);
      }
    }
  }

  /** How many draws in `[0, n)` select index `k`. */
  function Veces(peso: RarezaItem -> int, k: nat, n: nat): nat {
    if n == 0 then 0
    else Veces(peso, k, n - 1) + (if Elegido(TIPOS, peso, n - 1) == k then 1 else 0)
  }

  /** The draws in `[0, n)` that select `k` are those of `[a, b)` below `n`. */
  lemma {:induction false} VecesEnTramo(peso: RarezaItem -> int, k: nat, n: nat)
    requires forall x :: peso(x) > 0
    requires k < |TIPOS|
    ensures var a, b := Acumulado(TIPOS, peso, k), Acumulado(TIPOS, peso, k + 1);
      Veces(peso, k, n) == if n <= a then 0 else if n <= b then n - a else b - a
  {
    AcumuladoSiguiente(TIPOS, peso, k);
    NoNegativo(TIPOS[..k], peso);
    if n > 0 {
      VecesEnTramo(peso, k, n - 1);
      Tramo(TIPOS, peso, n - 1, k);
    }
  }

  /** With positive weights, each type is drawn for exactly as many of the
      `Total` possible draws as its rarity weighs. */
  lemma CadaTipoSegunSuPeso(peso: RarezaItem -> int, k: nat)
    requires forall x :: peso(x) > 0
    requires k < |TIPOS|
    ensures Veces(peso, k, Total(TIPOS, peso)) == peso(TIPOS[k].rareza)
  {
    NoNegativo(TIPOS, peso);
    VecesEnTramo(peso, k, Total(TIPOS, peso));
    AcumuladoSiguiente(TIPOS, peso, k);
    assert TIPOS == TIPOS[..k + 1] + TIPOS[k + 1..];
    TotalConcat(TIPOS[..k + 1], TIPOS[k + 1..], peso);
    NoNegativo(TIPOS[k + 1..], peso);
    NoNegativo(TIPOS[..k], peso);
  }
}
