/** A player's life points and their cap, and what the two clamping setters
    of the player do to them. */
module Vitales {

  datatype Vitales = Vitales(vida: int, vidaMaxima: int)
  {
    /** Life never goes below zero or above the cap, and the cap is at least one. */
    predicate Valid() {
      0 <= vida <= vidaMaxima && vidaMaxima >= 1
    }
  }

  /** A new player starts with three of three. */
  const INICIALES: Vitales := Vitales(3, 3)

  /** `setVida(v)`: `v` clamped to zero from below, then to the cap from above. */
  function ConVida(s: Vitales, v: int): (r: Vitales)
    ensures r.vidaMaxima == s.vidaMaxima
    ensures s.vidaMaxima >= 0 ==> 0 <= r.vida <= s.vidaMaxima
    ensures 0 <= v <= s.vidaMaxima ==> r.vida == v
    ensures v < 0 && s.vidaMaxima >= 0 ==> r.vida == 0
    ensures v > s.vidaMaxima ==> r.vida == s.vidaMaxima
    ensures s.Valid() ==> r.Valid()
  {
    var v1 := if v < 0 then 0 else v;
    var v2 := if v1 > s.vidaMaxima then s.vidaMaxima else v1;
    Vitales(v2, s.vidaMaxima)
  }

  /** `setVidaMaxima(m)`: the cap becomes `m`, but at least one, and life
      above the new cap is lowered to it. */
  function ConVidaMaxima(s: Vitales, m: int): (r: Vitales)
    ensures r.vidaMaxima >= 1
    ensures m >= 1 ==> r.vidaMaxima == m
    ensures m < 1 ==> r.vidaMaxima == 1
    ensures s.vida <= r.vidaMaxima ==> r.vida == s.vida
    ensures s.vida > r.vidaMaxima ==> r.vida == r.vidaMaxima
    ensures s.Valid() ==> r.Valid()
  {
    var m1 := if m < 1 then 1 else m;
    Vitales(if s.vida > m1 then m1 else s.vida, m1)
  }

  /** One call of either setter. */
  datatype Ajuste = FijarVida(v: int) | FijarMaxima(m: int)

  function Ajustar(s: Vitales, a: Ajuste): Vitales {
    match a
    case FijarVida(v) => ConVida(s, v)
    case FijarMaxima(m) => ConVidaMaxima(s, m)
  }

  function Ajustes(s: Vitales, as_: seq<Ajuste>): Vitales
    decreases |as_|
  {
    if as_ == [] then s else Ajustes(Ajustar(s, as_[0]), as_[1..])
  }

  /** From the starting three of three, no sequence of setter calls breaks
      `0 <= vida <= vidaMaxima` with `vidaMaxima >= 1`. */
  lemma {:induction false} AjustesConservanValidez(s: Vitales, as_: seq<Ajuste>)
    requires s.Valid()
    ensures Ajustes(s, as_).Valid()
    decreases |as_|
  {
    if as_ != [] {
      AjustesConservanValidez(Ajustar(s, as_[0]), as_[1..]);
    }
  }

  lemma DesdeIniciales(as_: seq<Ajuste>)
    ensures Ajustes(INICIALES, as_).Valid()
  {
    AjustesConservanValidez(INICIALES, as_);
  }
}
