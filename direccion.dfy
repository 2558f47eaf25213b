/** The four door directions of a room and their opposites. */
module Direccion {

  datatype Direccion = NORTE | SUR | ESTE | OESTE

  /** The directions in declaration order, the iteration order of an `EnumMap` keyed by them. */
  const EnOrden: seq<Direccion> := [NORTE, SUR, ESTE, OESTE]

  /** The direction a door on the other side of a crossing faces. */
  function Opuesta(d: Direccion): (r: Direccion)
    ensures r != d
    ensures (d == NORTE || d == SUR) <==> (r == NORTE || r == SUR)
  {
    match d
    case NORTE => SUR
    case SUR => NORTE
    case ESTE => OESTE
    case OESTE => ESTE
  }

  /** Taking the opposite twice gives the direction back. */
  lemma OpuestaInvolutiva(d: Direccion)
    ensures Opuesta(Opuesta(d)) == d
  {
  }

  /** `Opuesta` pairs NORTE with SUR and ESTE with OESTE. */
  lemma OpuestaEmparejamiento()
    ensures Opuesta(NORTE) == SUR && Opuesta(SUR) == NORTE
    ensures Opuesta(ESTE) == OESTE && Opuesta(OESTE) == ESTE
  {
  }

  /** `Opuesta` is a bijection: injective, and every direction is the opposite of one. */
  lemma OpuestaBiyectiva(d1: Direccion, d2: Direccion)
    ensures Opuesta(d1) == Opuesta(d2) ==> d1 == d2
    ensures exists d :: Opuesta(d) == d1
  {
    OpuestaInvolutiva(d1);
    OpuestaInvolutiva(d2);
  }

  lemma EnOrdenEnumera(d: Direccion)
    ensures d in EnOrden
    ensures |EnOrden| == 4 && forall i, j :: 0 <= i < j < |EnOrden| ==> EnOrden[i] != EnOrden[j]
  {
  }
}
