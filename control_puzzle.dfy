/** The button lock of puzzle and combat rooms: two players each hold their own
    button; the room opens for good once both are held at the same time, and
    until then releasing a button keeps it locked. */
module ControlPuzzle {
  import opened Habitacion

  const MAX_JUGADORES: nat := 2

  /** All slots released; slot 0 is never used, player ids are 1 and 2. */
  const SIN_PULSAR: seq<bool> := [false, false, false]

  /** The lock state of one room; `pressed[i]` is whether player `i` holds
      their button. */
  datatype Estado = Estado(resuelta: bool, locked: bool, pressed: seq<bool>)
  {
    /** One slot per player id plus the unused slot 0, and the doors are
        locked exactly while the room is unresolved. */
    predicate Valid() {
      |pressed| == MAX_JUGADORES + 1 && !pressed[0] && (locked <==> !resuelta)
    }
  }

  /** The state a room gets the first time it is looked up. */
  const NUEVO: Estado := Estado(false, true, SIN_PULSAR)

  /** Only puzzle and combat rooms have a lock. */
  predicate Aplica(sala: Habitacion) {
    sala.tipo == ACERTIJO || sala.tipo == COMBATE
  }

  /** The rooms with a lock are exactly the catalogue's puzzle and combat
      rooms, ids 2 to 21; the start, loot and boss rooms have none. */
  lemma SalasConCandado(h: Habitacion)
    ensures Aplica(h) <==> 2 <= h.id <= 21
  {
  }

  predicate JugadorValido(jugadorId: int) {
    1 <= jugadorId <= MAX_JUGADORES
  }

  // ----- the transitions of one room's state -----

  /** Entering a room: a resolved room opens, any other closes with every
      button released. */
  function Entrar(e: Estado): (r: Estado)
    requires e.Valid()
    ensures r.Valid() && r.resuelta == e.resuelta
    ensures r.locked <==> !e.resuelta
    ensures r.pressed == if e.resuelta then e.pressed else SIN_PULSAR
  {
    if e.resuelta then e.(locked := false) else Estado(false, true, SIN_PULSAR)
  }

  /** Player `id` presses their button; an unresolved room becomes resolved
      and unlocked when both buttons are then held. */
  function Presionar(e: Estado, id: int): (r: Estado)
    requires e.Valid() && JugadorValido(id)
    ensures r.Valid()
    ensures e.resuelta ==> r == e
    ensures !e.resuelta ==> r.pressed == e.pressed[id := true]
    ensures r.resuelta <==> e.resuelta || (r.pressed[1] && r.pressed[2])
  {
    if e.resuelta then e
    else
      var p := e.pressed[id := true];
      if p[1] && p[2] then Estado(true, false, p) else e.(pressed := p)
  }

  /** Player `id` releases their button; an unresolved room stays locked. */
  function Soltar(e: Estado, id: int): (r: Estado)
    requires e.Valid() && JugadorValido(id)
    ensures r.Valid()
    ensures e.resuelta ==> r == e
    ensures !e.resuelta ==> !r.resuelta && r.locked && r.pressed == e.pressed[id := false]
  {
    if e.resuelta then e else e.(pressed := e.pressed[id := false], locked := true)
  }

  /** Marking a room solved from outside: resolved, open, buttons released. */
  function Resolver(e: Estado): (r: Estado)
    ensures r.Valid() && r.resuelta && !r.locked && r.pressed == SIN_PULSAR
  {
    Estado(true, false, SIN_PULSAR)
  }

  /** Whether pressing `id` is the press that resolves the room. */
  function Desbloquea(e: Estado, id: int): (r: bool)
    requires e.Valid() && JugadorValido(id)
    ensures r <==> !e.resuelta && Presionar(e, id).pressed[1] && Presionar(e, id).pressed[2]
    ensures r ==> Presionar(e, id).resuelta && !Presionar(e, id).locked
  {
    !e.resuelta && Presionar(e, id).resuelta
  }

  // ----- sequences of calls on one applicable room -----

  /** A call on the lock of one room, in the order the game makes them. */
  datatype Suceso = Entrada | Pulsa(id: int) | Suelta(id: int) | Resolucion

  /** One call; a player id outside 1..2 changes nothing. */
  function Paso(e: Estado, s: Suceso): (r: Estado)
    requires e.Valid()
    ensures r.Valid()
  {
    match s
    case Entrada => Entrar(e)
    case Pulsa(id) => if JugadorValido(id) then Presionar(e, id) else e
    case Suelta(id) => if JugadorValido(id) then Soltar(e, id) else e
    case Resolucion => Resolver(e)
  }

  /** The calls of `ss` applied in order. */
  function Pasos(e: Estado, ss: seq<Suceso>): (r: Estado)
    requires e.Valid()
    ensures r.Valid()
    decreases |ss|
  {
    if ss == [] then e else Pasos(Paso(e, ss[0]), ss[1..])
  }

  /** Once resolved, a room stays resolved and open whatever happens next. */
  lemma {:induction false} ResueltaEsPermanente(e: Estado, ss: seq<Suceso>)
    requires e.Valid() && e.resuelta
    ensures Pasos(e, ss).resuelta && !Pasos(e, ss).locked
    decreases |ss|
  {
    if ss != [] {
      ResueltaEsPermanente(Paso(e, ss[0]), ss[1..]);
    }
  }

  /** An unresolved room becomes resolved only through an explicit resolution
      or through a press after which both buttons are held. */
  lemma {:induction false} SoloConAmbosBotones(e: Estado, ss: seq<Suceso>)
    requires e.Valid() && !e.resuelta && Pasos(e, ss).resuelta
    ensures exists k :: 0 <= k < |ss| && (ss[k] == Resolucion || (ss[k].Pulsa? && AmbosTrasPulsar(Pasos(e, ss[..k]), ss[k])))
    decreases |ss|
  {
    var e1 := Paso(e, ss[0]);
    assert Pasos(e, ss[..0]) == e;
    if e1.resuelta {
      assert ss[0] == Resolucion || (ss[0].Pulsa? && AmbosTrasPulsar(Pasos(e, ss[..0]), ss[0]));
    } else {
      SoloConAmbosBotones(e1, ss[1..]);
      var k :| 0 <= k < |ss[1..]| && (ss[1..][k] == Resolucion
        || (ss[1..][k].Pulsa? && AmbosTrasPulsar(Pasos(e1, ss[1..][..k]), ss[1..][k])));
      PasosPrefijo(e, ss, k + 1);
      assert ss[k + 1] == Resolucion || (ss[k + 1].Pulsa? && AmbosTrasPulsar(Pasos(e, ss[..k + 1]), ss[k + 1]));
    }
  }

  /** Pressing a valid button in state `e` leaves both buttons held. */
  predicate AmbosTrasPulsar(e: Estado, s: Suceso)
    requires e.Valid() && s.Pulsa?
  {
    JugadorValido(s.id) && Presionar(e, s.id).pressed[1] && Presionar(e, s.id).pressed[2]
  }

  /** Running the first `k` calls is running the first one, then the next `k - 1`. */
  lemma PasosPrefijo(e: Estado, ss: seq<Suceso>, k: nat)
    requires e.Valid() && 0 < k <= |ss|
    ensures Pasos(e, ss[..k]) == Pasos(Paso(e, ss[0]), ss[1..][..k - 1])
  {
    assert ss[..k][1..] == ss[1..][..k - 1];
  }

  /** Only player `id`'s button: presses and releases by the same player, and
      room entries. */
  predicate SoloJugador(ss: seq<Suceso>, id: int) {
    forall k :: 0 <= k < |ss| ==> match ss[k]
      case Entrada => true
      case Pulsa(j) => j == id
      case Suelta(j) => j == id
      case Resolucion => false
  }

  /** One player alone never opens the room: with the other button released,
      any presses, releases and entries by one player leave it unresolved and
      the other button released. */
  lemma {:induction false} UnSoloJugadorNoResuelve(e: Estado, ss: seq<Suceso>, id: int)
    requires e.Valid() && !e.resuelta && JugadorValido(id) && !e.pressed[3 - id]
    requires SoloJugador(ss, id)
    ensures !Pasos(e, ss).resuelta && Pasos(e, ss).locked && !Pasos(e, ss).pressed[3 - id]
    decreases |ss|
  {
    if ss != [] {
      var e1 := Paso(e, ss[0]);
      assert SoloJugador(ss[1..], id) by {
        forall k | 0 <= k < |ss[1..]| ensures ss[1..][k] == ss[k + 1] { }
      }
      match ss[0] {
        case Entrada =>
        case Pulsa(j) => assert !e1.pressed[3 - id];
        case Suelta(j) =>
      }
      UnSoloJugadorNoResuelve(e1, ss[1..], id);
    }
  }

  // ----- the per-room table -----

  /** Every state in the table is well formed. */
  ghost predicate EstadosValidos(m: map<Habitacion, Estado>) {
    forall s :: s in m ==> m[s].Valid()
  }

  /** The state of `sala` in `m`, or the fresh one the lookup would create. */
  function EstadoEn(m: map<Habitacion, Estado>, sala: Habitacion): (e: Estado)
    requires EstadosValidos(m)
    ensures e.Valid()
    ensures sala !in m ==> e == NUEVO
  {
    if sala in m then m[sala] else NUEVO
  }

  /** The table after `alEntrarASala(sala)`. */
  function TrasEntrar(m: map<Habitacion, Estado>, sala: Habitacion): (r: map<Habitacion, Estado>)
    requires EstadosValidos(m)
    ensures EstadosValidos(r)
  {
    if Aplica(sala) then m[sala := Entrar(EstadoEn(m, sala))] else m
  }

  /** The table after `botonDown(sala, id)`. */
  function TrasPulsar(m: map<Habitacion, Estado>, sala: Habitacion, id: int): (r: map<Habitacion, Estado>)
    requires EstadosValidos(m)
    ensures EstadosValidos(r)
  {
    if Aplica(sala) && JugadorValido(id) then m[sala := Presionar(EstadoEn(m, sala), id)] else m
  }

  /** The table after `botonUp(sala, id)`. */
  function TrasSoltar(m: map<Habitacion, Estado>, sala: Habitacion, id: int): (r: map<Habitacion, Estado>)
    requires EstadosValidos(m)
    ensures EstadosValidos(r)
  {
    if Aplica(sala) && JugadorValido(id) then m[sala := Soltar(EstadoEn(m, sala), id)] else m
  }

  /** Whether `sala` counts as solved in table `m`; rooms without a lock always do. */
  predicate ResueltaEn(m: map<Habitacion, Estado>, sala: Habitacion) {
    !Aplica(sala) || (sala in m && m[sala].resuelta)
  }

  class ControlPuzzlePorSala {
    var estados: map<Habitacion, Estado>

    ghost predicate Valid()
      reads this
    {
      EstadosValidos(estados)
    }

    constructor ()
      ensures Valid() && estados == map[]
    {
      estados := map[];
    }

    /** The state of `sala`, or the fresh one the lookup would create. */
    function EstadoDe(sala: Habitacion): (e: Estado)
      reads this
      requires Valid()
      ensures e.Valid()
      ensures sala !in estados ==> e == NUEVO
    {
      EstadoEn(estados, sala)
    }

    /** Called on entering a room; other rooms are ignored. */
    method AlEntrarASala(sala: Habitacion)
      requires Valid()
      modifies this
      ensures Valid()
      ensures estados == TrasEntrar(old(estados), sala)
    {
      if !Aplica(sala) {
        return;
      }
      var e := EstadoDe(sala);
      if e.resuelta {
        estados := estados[sala := e.(locked := false)];
        return;
      }
      var pressed := e.pressed;
      for i := 1 to MAX_JUGADORES + 1
        invariant |pressed| == MAX_JUGADORES + 1 && !pressed[0]
        invariant forall j :: 1 <= j < i ==> !pressed[j]
      {
        pressed := pressed[i := false];
      }
      assert pressed == SIN_PULSAR;
      estados := estados[sala := Estado(e.resuelta, true, pressed)];
    }

    /** Whether the doors of `sala` are shut; an applicable room never entered counts as shut. */
    function EstaBloqueada(sala: Habitacion): (r: bool)
      reads this
      ensures !Aplica(sala) ==> !r
      ensures Aplica(sala) && sala !in estados ==> r
      ensures sala in estados && Aplica(sala) ==> (r <==> estados[sala].locked)
    {
      Aplica(sala) && (sala !in estados || estados[sala].locked)
    }

    /** Player `id` presses their button in `sala`; true when this press
        resolves the room. */
    method BotonDown(sala: Habitacion, id: int) returns (desbloqueo: bool)
      requires Valid()
      modifies this
      ensures Valid()
      ensures estados == TrasPulsar(old(estados), sala, id)
      ensures desbloqueo <==> Aplica(sala) && JugadorValido(id) && Desbloquea(old(EstadoDe(sala)), id)
    {
      if !Aplica(sala) {
        return false;
      }
      if !JugadorValido(id) {
        return false;
      }
      var e := EstadoDe(sala);
      if e.resuelta {
        estados := estados[sala := e];
        return false;
      }
      var pressed := e.pressed[id := true];
      if pressed[1] && pressed[2] {
        estados := estados[sala := Estado(true, false, pressed)];
        return true;
      }
      estados := estados[sala := e.(pressed := pressed)];
      return false;
    }

    /** Player `id` releases their button in `sala`. */
    method BotonUp(sala: Habitacion, id: int)
      requires Valid()
      modifies this
      ensures Valid()
      ensures estados == TrasSoltar(old(estados), sala, id)
    {
      if !Aplica(sala) {
        return;
      }
      if !JugadorValido(id) {
        return;
      }
      var e := EstadoDe(sala);
      estados := estados[sala := e];
      if e.resuelta {
        return;
      }
      estados := estados[sala := e.(pressed := e.pressed[id := false], locked := true)];
      assert estados[sala] == Soltar(e, id);
    }

    /** Resolves `sala` from outside, releasing both buttons. */
    method MarcarResuelta(sala: Habitacion)
      requires Valid()
      modifies this
      ensures Valid()
      ensures estados == if Aplica(sala) then old(estados)[sala := Resolver(old(EstadoDe(sala)))] else old(estados)
    {
      if !Aplica(sala) {
        return;
      }
      var e := EstadoDe(sala);
      var pressed := e.pressed;
      for i := 1 to MAX_JUGADORES + 1
        invariant |pressed| == MAX_JUGADORES + 1 && !pressed[0]
        invariant forall j :: 1 <= j < i ==> !pressed[j]
      {
        pressed := pressed[i := false];
      }
      assert pressed == SIN_PULSAR;
      estados := estados[sala := Estado(true, false, pressed)];
    }

    /** Whether `sala` has been solved; rooms without a lock always are. */
    function EstaResuelta(sala: Habitacion): (r: bool)
      reads this
      ensures !Aplica(sala) ==> r
      ensures Aplica(sala) && sala !in estados ==> !r
      ensures sala in estados && Aplica(sala) ==> (r <==> estados[sala].resuelta)
    {
      ResueltaEn(estados, sala)
    }

    /** In a valid controller a room's doors are shut exactly while it is unresolved. */
    lemma BloqueadaSiNoResuelta(sala: Habitacion)
      requires Valid()
      ensures EstaBloqueada(sala) <==> !EstaResuelta(sala)
    {
      if sala in estados {
        assert estados[sala].Valid();
      }
    }
  }
}
