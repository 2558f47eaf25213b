/** The pseudo-random source of the generator (`java.util.Random`) as an oracle,
    and the list shuffle the library performs with it. */
module Azar {

  /** The value `nextInt(cota)` yields for a stream of raw draws: the head of the
      stream reduced below the bound, or 0 once the stream is exhausted. */
  function Sorteo(tiradas: seq<nat>, cota: nat): (k: nat)
    requires cota > 0
    ensures k < cota
  {
    if tiradas == [] then 0 else tiradas[0] % cota
  }

  function Resto(tiradas: seq<nat>): seq<nat> {
    if tiradas == [] then [] else tiradas[1..]
  }

  /** The stream left after `k` calls of `nextInt`. */
  function Saltar(tiradas: seq<nat>, k: nat): seq<nat>
    decreases k
  {
    if k == 0 then tiradas else Resto(Saltar(tiradas, k - 1))
  }

  /** `k` calls consume the first `k` draws, or the whole stream when it is shorter. */
  lemma {:induction false} SaltarEsSufijo(tiradas: seq<nat>, k: nat)
    ensures Saltar(tiradas, k) == if k <= |tiradas| then tiradas[k..] else []
    decreases k
  {
    if k > 0 {
      SaltarEsSufijo(tiradas, k - 1);
      if k <= |tiradas| {
        assert tiradas[k - 1..][1..] == tiradas[k..];
      }
    }
  }

  /** A random source: the stream of draws it has still to give out. The
      concrete linear congruential generator of the library is not modelled;
      any stream of draws is allowed. */
  class Random {
    var tiradas: seq<nat>

    constructor (tiradas: seq<nat>)
      ensures this.tiradas == tiradas
    {
      this.tiradas := tiradas;
    }

    /** `nextInt(cota)`: a value in `[0, cota)`, consuming one draw. */
    method NextInt(cota: nat) returns (k: nat)
      requires cota > 0
      modifies this
      ensures k < cota
      ensures k == Sorteo(old(tiradas), cota)
      ensures tiradas == Resto(old(tiradas))
    {
      k := Sorteo(tiradas, cota);
      tiradas := Resto(tiradas);
    }
  }

  /** `Collections.shuffle(lista, rng)` on a random-access list: walking from the
      end, each position swaps with one drawn at or before it. The result holds
      the same elements with the same multiplicities. */
  method Barajar<T>(lista: seq<T>, rng: Random) returns (r: seq<T>)
    modifies rng
    ensures multiset(r) == multiset(lista)
    ensures |r| == |lista|
    ensures rng.tiradas == Saltar(old(rng.tiradas), if |lista| == 0 then 0 else |lista| - 1)
  {
    r := lista;
    var i := |r|;
    while i > 1
      invariant 0 <= i <= |r| == |lista|
      invariant |lista| > 0 ==> i >= 1
      invariant multiset(r) == multiset(lista)
      invariant rng.tiradas == Saltar(old(rng.tiradas), |lista| - i)
    {
      var j := rng.NextInt(i);
      r := Intercambiar(r, i - 1, j);
      i := i - 1;
    }
  }

  /** The list with the elements at `i` and `j` exchanged. */
  function Intercambiar<T>(s: seq<T>, i: nat, j: nat): (r: seq<T>)
    requires i < |s| && j < |s|
    ensures |r| == |s| && r[i] == s[j] && r[j] == s[i]
    ensures forall k :: 0 <= k < |s| && k != i && k != j ==> r[k] == s[k]
    ensures multiset(r) == multiset(s)
  {
    s[i := s[j]][j := s[i]]
  }
}
