/** Draining the per-frame queues of item pickups, button presses and hits:
    one pickup per item, one hit per player, and button events routed to the
    room locks in order. */
module ProcesadorColas {
  import opened Habitacion
  import opened Eventos
  import opened Entidades
  import opened ControlPuzzle

  // ----- the first event of each key -----

  /** The keys of the elements of `s`. */
  function Claves<T, K(==)>(s: seq<T>, clave: T -> K): set<K>
    decreases |s|
  {
    if s == [] then {}
    else Claves(s[..|s| - 1], clave) + {clave(s[|s| - 1])}
  }

  /** A key is among the keys of `s` exactly when some element of `s` has it. */
  lemma {:induction false} ClavesExactas<T, K>(s: seq<T>, clave: T -> K, k: K)
    ensures k in Claves(s, clave) <==> exists i :: 0 <= i < |s| && clave(s[i]) == k
    decreases |s|
  {
    if s != [] {
      var p := s[..|s| - 1];
      ClavesExactas(p, clave, k);
      if k in Claves(p, clave) {
        var i :| 0 <= i < |p| && clave(p[i]) == k;
        assert s[i] == p[i];
      } else if exists i :: 0 <= i < |s| && clave(s[i]) == k {
        var i :| 0 <= i < |s| && clave(s[i]) == k;
        if i < |p| {
          assert p[i] == s[i];
        }
      }
    }
  }

  /** The elements of `s` whose key has not appeared earlier in `s`, in order:
      what a loop that skips an element when adding its key to a set fails keeps. */
  function Primeros<T, K(==)>(s: seq<T>, clave: T -> K): seq<T>
    decreases |s|
  {
    if s == [] then []
    else
      var p := s[..|s| - 1];
      if clave(s[|s| - 1]) in Claves(p, clave) then Primeros(p, clave)
      else Primeros(p, clave) + [s[|s| - 1]]
  }

  /** One more element: its key joins the keys, and it is kept when the key is new. */
  lemma PasoPrefijo<T, K>(s: seq<T>, clave: T -> K, i: nat)
    requires i < |s|
    ensures Claves(s[..i + 1], clave) == Claves(s[..i], clave) + {clave(s[i])}
    ensures Primeros(s[..i + 1], clave)
      == if clave(s[i]) in Claves(s[..i], clave) then Primeros(s[..i], clave)
         else Primeros(s[..i], clave) + [s[i]]
  {
    assert s[..i + 1][..i] == s[..i];
  }

  /** The kept elements carry every key of `s`. */
  lemma {:induction false} ClavesDePrimeros<T, K>(s: seq<T>, clave: T -> K)
    ensures Claves(Primeros(s, clave), clave) == Claves(s, clave)
    decreases |s|
  {
    if s != [] {
      var p := s[..|s| - 1];
      var x := s[|s| - 1];
      ClavesDePrimeros(p, clave);
      var rp := Primeros(p, clave);
      if clave(x) !in Claves(p, clave) {
        PasoPrefijo(rp + [x], clave, |rp|);
        assert (rp + [x])[..|rp| + 1] == rp + [x];
        assert (rp + [x])[..|rp|] == rp;
      }
    }
  }

  /** No key is kept twice. */
  lemma {:induction false} PrimerosSinRepetir<T, K>(s: seq<T>, clave: T -> K)
    ensures var r := Primeros(s, clave);
      forall i, j :: 0 <= i < j < |r| ==> clave(r[i]) != clave(r[j])
    decreases |s|
  {
    if s != [] {
      var p := s[..|s| - 1];
      var x := s[|s| - 1];
      PrimerosSinRepetir(p, clave);
      var rp := Primeros(p, clave);
      if clave(x) !in Claves(p, clave) {
        ClavesDePrimeros(p, clave);
        var r := rp + [x];
        forall i, j | 0 <= i < j < |r| ensures clave(r[i]) != clave(r[j]) {
          assert r[i] == rp[i];
          if j == |rp| {
            ClavesExactas(rp, clave, clave(rp[i]));
          } else {
            assert r[j] == rp[j];
          }
        }
      }
    }
  }

  /** Whether `s[i]` is the first element of `s` with its key. */
  predicate Primero<T, K(==)>(s: seq<T>, clave: T -> K, i: nat)
    requires i < |s|
  {
    clave(s[i]) !in Claves(s[..i], clave)
  }

  /** Every kept element is the first of its key somewhere in `s`. */
  lemma {:induction false} PrimerosSonLosPrimeros<T, K>(s: seq<T>, clave: T -> K, x: T)
    requires x in Primeros(s, clave)
    ensures exists i :: 0 <= i < |s| && s[i] == x && Primero(s, clave, i)
    decreases |s|
  {
    var n := |s| - 1;
    var p := s[..n];
    if x in Primeros(p, clave) {
      PrimerosSonLosPrimeros(p, clave, x);
      var i :| 0 <= i < |p| && p[i] == x && Primero(p, clave, i);
      assert p[..i] == s[..i];
      assert Primero(s, clave, i);
    } else {
      assert Primero(s, clave, n);
    }
  }

  /** Every element that is the first of its key is kept. */
  lemma {:induction false} LosPrimerosSeQuedan<T, K>(s: seq<T>, clave: T -> K, i: nat)
    requires i < |s| && Primero(s, clave, i)
    ensures s[i] in Primeros(s, clave)
    decreases |s|
  {
    var n := |s| - 1;
    var p := s[..n];
    if i < n {
      assert p[..i] == s[..i];
      assert Primero(p, clave, i);
      LosPrimerosSeQuedan(p, clave, i);
    }
  }

  function ItemDe(ev: EventoPickup): Item {
    ev.item
  }

  function IdDe(ev: EventoDanio): int {
    ev.jugadorId
  }

  // ----- items -----

  /** Hands each item touched this frame to the pickup routine once, for the
      first event that touched it, and empties the queue; `recogidos` lists
      the pickups made, in order. An empty queue leaves the set untouched. */
  method ProcesarItemsPendientes(cola: Cola<EventoPickup>, yaProcesados: Conjunto<Item>)
    returns (recogidos: seq<EventoPickup>)
    modifies cola, yaProcesados
    ensures cola.elementos == []
    ensures recogidos == Primeros(old(cola.elementos), ItemDe)
    ensures yaProcesados.elementos == if old(cola.elementos) == [] then old(yaProcesados.elementos)
                                      else Claves(old(cola.elementos), ItemDe)
  {
    recogidos := [];
    if |cola.elementos| == 0 {
      return;
    }
    yaProcesados.elementos := {};
    var evs := cola.elementos;
    var i := 0;
    while i < |evs|
      invariant 0 <= i <= |evs| && cola.elementos == evs
      invariant yaProcesados.elementos == Claves(evs[..i], ItemDe)
      invariant recogidos == Primeros(evs[..i], ItemDe)
    {
      var ev := evs[i];
      PasoPrefijo(evs, ItemDe, i);
      if ev.item in yaProcesados.elementos {
        i := i + 1;
        continue;
      }
      yaProcesados.elementos := yaProcesados.elementos + {ev.item};
      recogidos := recogidos + [ev];
      i := i + 1;
    }
    assert evs[..i] == evs;
    cola.elementos := [];
  }

  // ----- hits -----

  /** No value appears twice in `s`. */
  predicate Distintos(s: seq<int>) {
    forall i, j :: 0 <= i < j < |s| ==> s[i] != s[j]
  }

  /** The ids of the events of `evs` whose player can take a hit, in order. */
  function Aptos(evs: seq<EventoDanio>, apto: int -> bool): (ids: seq<int>)
    ensures forall k :: 0 <= k < |ids| ==> apto(ids[k])
    ensures forall k :: 0 <= k < |ids| ==> exists i :: 0 <= i < |evs| && evs[i].jugadorId == ids[k]
    decreases |evs|
  {
    if evs == [] then []
    else
      var p := evs[..|evs| - 1];
      var ev := evs[|evs| - 1];
      assert forall i :: 0 <= i < |p| ==> p[i] == evs[i];
      if apto(ev.jugadorId) then Aptos(p, apto) + [ev.jugadorId] else Aptos(p, apto)
  }

  /** Gives each player hit this frame at most one hit. `apto(id)` says
      whether player `id` exists, is alive, is not dying, is not immune and
      has a body; `heridos` lists the ids hit, in order. */
  method ProcesarDaniosPendientes(cola: Cola<EventoDanio>, jugadoresDanioFrame: Conjunto<int>, apto: int -> bool)
    returns (heridos: seq<int>)
    modifies cola, jugadoresDanioFrame
    ensures cola.elementos == []
    ensures heridos == Aptos(Primeros(old(cola.elementos), IdDe), apto)
    ensures jugadoresDanioFrame.elementos == if old(cola.elementos) == [] then old(jugadoresDanioFrame.elementos)
                                             else Claves(old(cola.elementos), IdDe)
  {
    heridos := [];
    if |cola.elementos| == 0 {
      return;
    }
    jugadoresDanioFrame.elementos := {};
    var evs := cola.elementos;
    var i := 0;
    while i < |evs|
      invariant 0 <= i <= |evs| && cola.elementos == evs
      invariant jugadoresDanioFrame.elementos == Claves(evs[..i], IdDe)
      invariant heridos == Aptos(Primeros(evs[..i], IdDe), apto)
    {
      var id := evs[i].jugadorId;
      PasoPrefijo(evs, IdDe, i);
      if id in jugadoresDanioFrame.elementos {
        i := i + 1;
        continue;
      }
      jugadoresDanioFrame.elementos := jugadoresDanioFrame.elementos + {id};
      ghost var kept := Primeros(evs[..i], IdDe);
      assert (kept + [evs[i]])[..|kept|] == kept;
      if apto(id) {
        heridos := heridos + [id];
      }
      i := i + 1;
    }
    assert evs[..i] == evs;
    cola.elementos := [];
  }

  /** Within one frame no player is hit twice, and only players able to take a
      hit who were queued are hit. */
  lemma UnGolpePorJugador(evs: seq<EventoDanio>, apto: int -> bool)
    ensures Distintos(Aptos(Primeros(evs, IdDe), apto))
    ensures var h := Aptos(Primeros(evs, IdDe), apto);
      (forall k :: 0 <= k < |h| ==> apto(h[k]) && exists i :: 0 <= i < |evs| && evs[i].jugadorId == h[k])
  {
    var r := Primeros(evs, IdDe);
    PrimerosSinRepetir(evs, IdDe);
    AptosSinRepetir(r, apto);
    var h := Aptos(r, apto);
    forall k | 0 <= k < |h| ensures exists i :: 0 <= i < |evs| && evs[i].jugadorId == h[k] {
      var j :| 0 <= j < |r| && r[j].jugadorId == h[k];
      PrimerosSonLosPrimeros(evs, IdDe, r[j]);
    }
  }

  lemma {:induction false} AptosSinRepetir(evs: seq<EventoDanio>, apto: int -> bool)
    requires forall i, j :: 0 <= i < j < |evs| ==> evs[i].jugadorId != evs[j].jugadorId
    ensures Distintos(Aptos(evs, apto))
    decreases |evs|
  {
    if evs != [] {
      var n := |evs| - 1;
      var p := evs[..n];
      assert forall i :: 0 <= i < n ==> p[i] == evs[i];
      AptosSinRepetir(p, apto);
      var hp := Aptos(p, apto);
      var x := evs[n].jugadorId;
      forall k | 0 <= k < |hp| ensures hp[k] != x {
        var i :| 0 <= i < |p| && p[i].jugadorId == hp[k];
        assert p[i] == evs[i];
      }
      if apto(x) {
        var h := hp + [x];
        assert Aptos(evs, apto) == h;
        assert Distintos(hp);
        forall i, j | 0 <= i < j < |h| ensures h[i] != h[j] {
          assert h[i] == hp[i];
          if j < |hp| {
            assert h[j] == hp[j];
          } else {
            assert h[j] == x;
          }
        }
      } else {
        assert Aptos(evs, apto) == hp;
      }
    }
  }

  // ----- buttons -----

  /** A button event counts only in the current room and only from the
      button's owner. */
  predicate Acepta(ev: EventoBoton, sala: Habitacion) {
    ev.boton.sala == sala && ev.jugadorId == ev.boton.jugadorId
  }

  /** The lock table after one button event in room `sala`. */
  function TrasBoton(m: map<Habitacion, Estado>, sala: Habitacion, ev: EventoBoton): (r: map<Habitacion, Estado>)
    requires EstadosValidos(m)
    ensures EstadosValidos(r)
    ensures ResueltaEn(m, sala) ==> ResueltaEn(r, sala)
  {
    if !Acepta(ev, sala) then m
    else if ev.down then TrasPulsar(m, sala, ev.boton.jugadorId)
    else TrasSoltar(m, sala, ev.boton.jugadorId)
  }

  /** The lock table after the button events `evs`, in order; a solved room
      stays solved. */
  function TrasBotones(m: map<Habitacion, Estado>, sala: Habitacion, evs: seq<EventoBoton>): (r: map<Habitacion, Estado>)
    requires EstadosValidos(m)
    ensures EstadosValidos(r)
    ensures ResueltaEn(m, sala) ==> ResueltaEn(r, sala)
    decreases |evs|
  {
    if evs == [] then m
    else TrasBoton(TrasBotones(m, sala, evs[..|evs| - 1]), sala, evs[|evs| - 1])
  }

  /** Button events of the current room leave every other room's entry as it was. */
  lemma {:induction false} OtrasSalasIntactas(m: map<Habitacion, Estado>, sala: Habitacion,
                                              evs: seq<EventoBoton>, otra: Habitacion)
    requires EstadosValidos(m) && otra != sala
    ensures var r := TrasBotones(m, sala, evs);
      (otra in r <==> otra in m) && (otra in m ==> r[otra] == m[otra])
    decreases |evs|
  {
    if evs != [] {
      var p := TrasBotones(m, sala, evs[..|evs| - 1]);
      OtrasSalasIntactas(m, sala, evs[..|evs| - 1], otra);
      OtraSalaIntacta(p, sala, evs[|evs| - 1], otra);
    }
  }

  lemma OtraSalaIntacta(m: map<Habitacion, Estado>, sala: Habitacion, ev: EventoBoton, otra: Habitacion)
    requires EstadosValidos(m) && otra != sala
    ensures var r := TrasBoton(m, sala, ev);
      (otra in r <==> otra in m) && (otra in m ==> r[otra] == m[otra])
  {
    var id := ev.boton.jugadorId;
    if Acepta(ev, sala) && Aplica(sala) && JugadorValido(id) {
      var e := if ev.down then Presionar(EstadoEn(m, sala), id) else Soltar(EstadoEn(m, sala), id);
      assert TrasBoton(m, sala, ev) == m[sala := e];
    } else {
      assert TrasBoton(m, sala, ev) == m;
    }
  }

  /** How many of the events `evs` solve room `sala`: each one that finds
      it unsolved and leaves it solved fires the unlock callback. */
  function Desbloqueos(m: map<Habitacion, Estado>, sala: Habitacion, evs: seq<EventoBoton>): nat
    requires EstadosValidos(m)
    decreases |evs|
  {
    if evs == [] then 0
    else
      var p := TrasBotones(m, sala, evs[..|evs| - 1]);
      Desbloqueos(m, sala, evs[..|evs| - 1])
        + (if !ResueltaEn(p, sala) && ResueltaEn(TrasBoton(p, sala, evs[|evs| - 1]), sala) then 1 else 0)
  }

  /** However many button events a frame holds, the unlock callback fires at
      most once: exactly when the frame takes the room from unsolved to solved. */
  lemma {:induction false} UnSoloDesbloqueo(m: map<Habitacion, Estado>, sala: Habitacion, evs: seq<EventoBoton>)
    requires EstadosValidos(m)
    ensures Desbloqueos(m, sala, evs)
         == if !ResueltaEn(m, sala) && ResueltaEn(TrasBotones(m, sala, evs), sala) then 1 else 0
    decreases |evs|
  {
    if evs != [] {
      UnSoloDesbloqueo(m, sala, evs[..|evs| - 1]);
    }
  }

  /** The lit state of `b` after the events `evs`, starting from `inicial`:
      the direction of the last accepted event of `b`'s room and owner. */
  function Presionado(b: BotonVisual, inicial: bool, sala: Habitacion, evs: seq<EventoBoton>): bool
    decreases |evs|
  {
    if evs == [] then inicial
    else
      var ev := evs[|evs| - 1];
      if Acepta(ev, sala) && b.sala == sala && b.jugadorId == ev.jugadorId then ev.down
      else Presionado(b, inicial, sala, evs[..|evs| - 1])
  }

  /** Applies the accepted button events of this frame to the locks in order,
      lights or dims every drawn button of the current room and that player,
      and empties the queue. `desbloqueos` counts the unlock callbacks: one
      exactly when the frame solved the room. */
  method ProcesarBotonesPendientes(cola: Cola<EventoBoton>, salaActual: Habitacion,
                                   controlPuzzle: ControlPuzzlePorSala, botonesVisuales: seq<BotonVisual>)
    returns (desbloqueos: nat)
    requires controlPuzzle.Valid()
    modifies cola, controlPuzzle, set b | b in botonesVisuales
    ensures controlPuzzle.Valid()
    ensures controlPuzzle.estados == TrasBotones(old(controlPuzzle.estados), salaActual, old(cola.elementos))
    ensures forall b :: b in botonesVisuales ==>
      b.presionado == Presionado(b, old(b.presionado), salaActual, old(cola.elementos))
    ensures cola.elementos == []
    ensures desbloqueos == if !ResueltaEn(old(controlPuzzle.estados), salaActual)
                              && ResueltaEn(controlPuzzle.estados, salaActual) then 1 else 0
  {
    desbloqueos := 0;
    if |cola.elementos| == 0 {
      return;
    }
    desbloqueos := AplicarBotones(cola.elementos, salaActual, controlPuzzle, botonesVisuales);
    UnSoloDesbloqueo(old(controlPuzzle.estados), salaActual, old(cola.elementos));
    cola.elementos := [];
  }

  /** The loop over one frame's button events. */
  method AplicarBotones(evs: seq<EventoBoton>, salaActual: Habitacion,
                        controlPuzzle: ControlPuzzlePorSala, botonesVisuales: seq<BotonVisual>)
    returns (desbloqueos: nat)
    requires controlPuzzle.Valid()
    modifies controlPuzzle, set b | b in botonesVisuales
    ensures controlPuzzle.Valid()
    ensures controlPuzzle.estados == TrasBotones(old(controlPuzzle.estados), salaActual, evs)
    ensures forall b :: b in botonesVisuales ==>
      b.presionado == Presionado(b, old(b.presionado), salaActual, evs)
    ensures desbloqueos == Desbloqueos(old(controlPuzzle.estados), salaActual, evs)
  {
    desbloqueos := 0;
    ghost var inicial := controlPuzzle.estados;
    ghost var luces: map<BotonVisual, bool> := map b: BotonVisual | b in botonesVisuales :: b.presionado;
    var i := 0;
    while i < |evs|
      invariant 0 <= i <= |evs|
      invariant controlPuzzle.Valid()
      invariant controlPuzzle.estados == TrasBotones(inicial, salaActual, evs[..i])
      invariant Iluminados(botonesVisuales, luces, salaActual, evs[..i])
      invariant desbloqueos == Desbloqueos(inicial, salaActual, evs[..i])
    {
      var desbloqueo := PasoBotones(evs, i, salaActual, controlPuzzle, botonesVisuales, inicial, luces);
      if desbloqueo {
        desbloqueos := desbloqueos + 1;
      }
      i := i + 1;
    }
    assert evs[..i] == evs;
    forall b | b in botonesVisuales
      ensures b.presionado == Presionado(b, old(b.presionado), salaActual, evs)
    {
      assert luces[b] == old(b.presionado);
    }
  }

  /** Every drawn button shows the state the events `evs` leave it in,
      starting from the state `luces` records for it. */
  ghost predicate Iluminados(botones: seq<BotonVisual>, luces: map<BotonVisual, bool>,
                             sala: Habitacion, evs: seq<EventoBoton>)
    reads set b | b in botones
  {
    forall b :: b in botones ==> b in luces && b.presionado == Presionado(b, luces[b], sala, evs)
  }

  /** One pass of the loop above: the event `evs[i]` on top of the first `i`. */
  method PasoBotones(evs: seq<EventoBoton>, i: nat, salaActual: Habitacion,
                     controlPuzzle: ControlPuzzlePorSala, botonesVisuales: seq<BotonVisual>,
                     ghost inicial: map<Habitacion, Estado>, ghost luces: map<BotonVisual, bool>)
    returns (desbloqueo: bool)
    requires i < |evs| && EstadosValidos(inicial) && controlPuzzle.Valid()
    requires controlPuzzle.estados == TrasBotones(inicial, salaActual, evs[..i])
    requires Iluminados(botonesVisuales, luces, salaActual, evs[..i])
    modifies controlPuzzle, set b | b in botonesVisuales
    ensures controlPuzzle.Valid()
    ensures controlPuzzle.estados == TrasBotones(inicial, salaActual, evs[..i + 1])
    ensures Iluminados(botonesVisuales, luces, salaActual, evs[..i + 1])
    ensures Desbloqueos(inicial, salaActual, evs[..i + 1])
         == Desbloqueos(inicial, salaActual, evs[..i]) + if desbloqueo then 1 else 0
  {
    Siguiente(inicial, salaActual, evs, i);
    desbloqueo := ProcesarBoton(evs[i], salaActual, controlPuzzle, botonesVisuales);
    forall b | b in botonesVisuales
      ensures b in luces && b.presionado == Presionado(b, luces[b], salaActual, evs[..i + 1])
    {
      PresionadoPaso(b, luces[b], old(b.presionado), salaActual, evs, i);
    }
  }

  /** One more event: how the table and the count after `evs[..i + 1]`
      follow from those after `evs[..i]`. */
  lemma Siguiente(m: map<Habitacion, Estado>, sala: Habitacion, evs: seq<EventoBoton>, i: nat)
    requires EstadosValidos(m) && i < |evs|
    ensures TrasBotones(m, sala, evs[..i + 1]) == TrasBoton(TrasBotones(m, sala, evs[..i]), sala, evs[i])
    ensures var p := TrasBotones(m, sala, evs[..i]);
      Desbloqueos(m, sala, evs[..i + 1]) == Desbloqueos(m, sala, evs[..i])
        + (if !ResueltaEn(p, sala) && ResueltaEn(TrasBoton(p, sala, evs[i]), sala) then 1 else 0)
  {
    assert evs[..i + 1][..i] == evs[..i];
  }

  /** One more event: a button's lit state after `evs[..i + 1]` is the
      event's direction when the event is its room's and its player's, and
      its state `y` after `evs[..i]` otherwise. */
  lemma PresionadoPaso(b: BotonVisual, x: bool, y: bool, sala: Habitacion, evs: seq<EventoBoton>, i: nat)
    requires i < |evs| && y == Presionado(b, x, sala, evs[..i])
    ensures Presionado(b, x, sala, evs[..i + 1])
      == if Acepta(evs[i], sala) && b.sala == sala && b.jugadorId == evs[i].jugadorId then evs[i].down else y
  {
    assert evs[..i + 1][..i] == evs[..i];
  }

  /** One button event: when accepted, the drawn buttons first, then the
      lock; otherwise nothing. True when this event solved the room. */
  method ProcesarBoton(ev: EventoBoton, salaActual: Habitacion,
                       controlPuzzle: ControlPuzzlePorSala, botonesVisuales: seq<BotonVisual>)
    returns (desbloqueo: bool)
    requires controlPuzzle.Valid()
    modifies controlPuzzle, set b | b in botonesVisuales
    ensures controlPuzzle.Valid()
    ensures controlPuzzle.estados == TrasBoton(old(controlPuzzle.estados), salaActual, ev)
    ensures forall b :: b in botonesVisuales ==>
      b.presionado == if Acepta(ev, salaActual) && b.sala == salaActual && b.jugadorId == ev.jugadorId
                      then ev.down else old(b.presionado)
    ensures desbloqueo <==> !ResueltaEn(old(controlPuzzle.estados), salaActual)
                            && ResueltaEn(controlPuzzle.estados, salaActual)
  {
    if !Acepta(ev, salaActual) {
      return false;
    }
    MarcarBotones(botonesVisuales, salaActual, ev.jugadorId, ev.down);
    if ev.down {
      desbloqueo := controlPuzzle.BotonDown(salaActual, ev.boton.jugadorId);
    } else {
      controlPuzzle.BotonUp(salaActual, ev.boton.jugadorId);
      desbloqueo := false;
    }
  }

  /** The drawing half of one accepted event: every drawn button of room
      `sala` and player `jugadorId` takes the event's direction, the others
      keep theirs. */
  method MarcarBotones(botones: seq<BotonVisual>, sala: Habitacion, jugadorId: int, down: bool)
    modifies set b | b in botones
    ensures forall b :: b in botones ==>
      b.presionado == if b.sala == sala && b.jugadorId == jugadorId then down else old(b.presionado)
  {
    var j := 0;
    while j < |botones|
      invariant 0 <= j <= |botones|
      invariant forall b :: b in botones ==>
        b.presionado == if b in botones[..j] && b.sala == sala && b.jugadorId == jugadorId then down
                        else old(b.presionado)
    {
      var bv := botones[j];
      assert botones[..j + 1] == botones[..j] + [bv];
      if bv.sala == sala && bv.jugadorId == jugadorId {
        bv.presionado := down;
      }
      j := j + 1;
    }
    assert botones[..j] == botones;
  }
}
