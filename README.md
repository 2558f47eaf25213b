# EscapeRoomguelike — a verified model of the game core

EscapeRoomguelike is a two-player co-operative dungeon game. Each floor
is drawn from a fixed catalog of 25 hand-made rooms (`Habitacion`):

- Every room has a type (start, puzzle, combat, loot, boss), a fixed
  cell in a 5x5 grid, and doors on some of its four sides.
- A **door graph** (`GrafoPuertas`) connects each door to a randomly drawn
  room that has a door on the opposite side.
- A **map generator** (`GeneradorMapa`) searches that graph depth-first
  for every path from the start room to a boss room that satisfies the
  level's constraints, and keeps one of the longest.
- A **layout** (`DisposicionMapa`) records where rooms are placed, keyed by
  the text `"gx:gy"`.

During play:

- **Puzzle locks** (`ControlPuzzlePorSala`) keep the doors of puzzle and
  combat rooms shut until both players hold their own buttons at the same
  time. A solved room stays open for good.
- Physics contacts do not act directly. They are put in **event queues**
  (doors, item pickups, buttons, hits) that the frame loop drains after
  the physics step:
  - The first door event crosses into the neighbouring room, unless the
    room is locked or the 15-frame **door cooldown** runs.
  - Each item is picked up once per frame.
  - Button events drive the locks.
  - Each player takes at most one hit per frame.
- **Players** (`Jugador`) have life points capped by a maximum and an
  inventory of passive items whose **types** (`ItemTipo`) change those
  values. Item types are drawn with weights that follow their rarity.
- Physics fixtures carry 16-bit **collision filters** (`BitsColision`).

The model has one Dafny module per source file. Code that only computes
(the room catalog, the direction arithmetic, the lock transitions, the
layout key) is written as datatypes, functions and lemmas. Code that
updates objects in place is written as classes whose methods are proved
against specification functions. These include the layout, the door
graph, the DFS search state, the lock table, the player, the queue
processors and the game container. Loops become `while` loops with
invariants.

| module | file |
|---|---|
| `Opcion` | `Option` (null where the source checks for null) |
| `Direccion` | `mapa/Direccion.java` |
| `Azar` | the random source: `java.util.Random.nextInt` as a stream of draws, `Collections.shuffle` |
| `Habitacion` | `mapa/Habitacion.java` |
| `GrafoPuertas` | `mapa/GrafoPuertas.java` |
| `GeneradorMapa` | `mapa/GeneradorMapa.java` |
| `DisposicionMapa` | `mapa/DisposicionMapa.java` |
| `Piso` | the floor-level door lookup, discovery set and start room used by the room manager and the game |
| `ControlPuzzle` | `control/ControlPuzzlePorSala.java` |
| `GestorSalas` | `control/GestorSalas.java` |
| `Eventos` | the queued event records, queues and sets, drawn buttons, listeners |
| `TransicionSala` | `juego/sistemas/SistemaTransicionSala.java` |
| `ProcesadorColas` | `juego/sistemas/ProcesadorColasEventos.java` |
| `Partida` | `juego/Partida.java` |
| `Vitales`, `ItemTipos`, `Entidades` | `entidades/items/ItemTipo.java`, `entidades/Item.java`, `entidades/Jugador.java` |
| `BitsColision` | `fisica/BitsColision.java` and the fixture tests of `fisica/ContactosJuego.java` |

## Model

| member | source | states |
|---|---|---|
| Direccion.Opuesta | core/src/main/java/mapa/Direccion.java:6-13 | the opposite side is never the side itself, and it stays on the same axis (north/south or east/west) |
| Direccion.OpuestaInvolutiva | core/src/main/java/mapa/Direccion.java:6-13 | taking the opposite twice gives back the original side |
| Direccion.OpuestaEmparejamiento | core/src/main/java/mapa/Direccion.java:7-12 | north pairs with south and east pairs with west, both ways |
| Direccion.OpuestaBiyectiva | core/src/main/java/mapa/Direccion.java:6-13 | `opuesta` is one-to-one and onto |
| Direccion.EnOrdenEnumera | core/src/main/java/mapa/Direccion.java:4 | the declaration order lists every side exactly once |
| Azar.Sorteo | core/src/main/java/mapa/GrafoPuertas.java:65-67 | a draw for `nextInt(n)` is always below `n` |
| Azar.Random.NextInt | core/src/main/java/mapa/GrafoPuertas.java:65-67 | `nextInt(n)` yields a value below `n` and consumes exactly one draw of the stream |
| Azar.Barajar | core/src/main/java/mapa/GeneradorMapa.java:123-124 | `Collections.shuffle` returns a permutation of its input (same multiset, same length) and takes one draw per position but the first, so the stream loses exactly max(n - 1, 0) draws |
| Azar.SaltarEsSufijo | core/src/main/java/mapa/GrafoPuertas.java:65-67 | `k` successive `nextInt` calls leave the stream without its first `k` draws (empty once it is shorter) |
| Azar.Intercambiar | core/src/main/java/mapa/GeneradorMapa.java:124 | a swap exchanges two positions, leaves the others alone and keeps the multiset |
| Habitacion.CatalogoPorId | core/src/main/java/mapa/Habitacion.java:16-258 | there are 25 rooms, and a room's id is its 1-based position in `values()` |
| Habitacion.RectanguloFuente | core/src/main/java/mapa/Habitacion.java:16-258 | every room is 512x512, cut from the sprite sheet at `512 * (id - 1)`, and has at least one door |
| Habitacion.CeldaSegunId | core/src/main/java/mapa/Habitacion.java:11-16 | every room lies in the 5x5 grid, filled row by row from the top left in id order |
| Habitacion.CeldasDistintas | core/src/main/java/mapa/Habitacion.java:11-258 | no two rooms share a grid cell |
| Habitacion.PuertasBienFormadas | core/src/main/java/mapa/Habitacion.java:16-258 | a door on side `d` is declared with direction `d` and is centred on that side |
| Habitacion.TienePuertaSegunEspecificaciones | core/src/main/java/mapa/Habitacion.java:292-294 | a room has a door on a side exactly when one of its declared door specifications lies on that side |
| Habitacion.TiposUnicos | core/src/main/java/mapa/Habitacion.java:16-258 | `INICIO_1` is the only start room, and `JEFE_1` and `JEFE_2` are the only boss rooms |
| Habitacion.CatalogoUnInicio | core/src/main/java/mapa/Habitacion.java:16-258 | the catalog counts exactly one start room |
| Habitacion.CatalogoDosJefes | core/src/main/java/mapa/Habitacion.java:242-258 | the catalog counts exactly two boss rooms |
| Habitacion.CuentaConcat | core/src/main/java/mapa/GeneradorMapa.java:150-161 | counting rooms of a type distributes over concatenation |
| GrafoPuertas.CandidatosExactos | core/src/main/java/mapa/GrafoPuertas.java:50-58 | the candidates for door `dir` are exactly the other listed rooms with a door on the opposite side |
| GrafoPuertas.GrafoPuertas.constructor | core/src/main/java/mapa/GrafoPuertas.java:30-34 | after construction, each listed room has exactly its doors that have candidates connected, each to one of those candidates |
| GrafoPuertas.GrafoPuertas.ConstruirConexiones | core/src/main/java/mapa/GrafoPuertas.java:41-73 | the loop over the listed rooms builds a connection table with that property for every listed room |
| GrafoPuertas.GrafoPuertas.ConectarPuertas | core/src/main/java/mapa/GrafoPuertas.java:44-70 | the loop over one room's doors connects exactly the doors that have a candidate, each to one of its candidates |
| GrafoPuertas.GrafoPuertas.BuscarCandidatos | core/src/main/java/mapa/GrafoPuertas.java:52-58 | the scan collects the candidates in list order |
| GrafoPuertas.GrafoPuertas.DestinoDeValido | core/src/main/java/mapa/GrafoPuertas.java:95-99 | a connected door leads to a different listed room with the opposite door; a door with any candidate is connected; unlisted rooms lead nowhere |
| GrafoPuertas.Destinos | core/src/main/java/mapa/GrafoPuertas.java:112-114 | the values of a door map in direction order, first occurrence kept: no repeats, and exactly the reachable rooms |
| GrafoPuertas.GrafoPuertas.Vecinas | core/src/main/java/mapa/GrafoPuertas.java:106-115 | the neighbours have no repeats, are exactly the rooms some door leads to, and are empty for an unknown room |
| GrafoPuertas.GrafoPuertas.VecinasSonDestinos | core/src/main/java/mapa/GrafoPuertas.java:95-115 | a room is a neighbour iff `destinoDe` returns it for some direction |
| GrafoPuertas.GrafoPuertas.VecinasFueraDelGrafo | core/src/main/java/mapa/GrafoPuertas.java:106-110 | a room outside the graph has no neighbours |
| GrafoPuertas.GrafoPuertas.VecinaAleatoria | core/src/main/java/mapa/GrafoPuertas.java:120-130 | the result is `null` exactly when no neighbour passes the filter; otherwise it is a neighbour that passes it |
| GrafoPuertas.CandidatosDeTres | core/src/main/java/mapa/GrafoPuertas.java:50-58 | over a three-room list, the candidates are computed room by room |
| GrafoPuertas.PuertasDeEjemplo | core/src/main/java/mapa/Habitacion.java:16-34 | the doors of `INICIO_1`, `ACERTIJO_1` and `ACERTIJO_5`, as declared |
| GrafoPuertas.ValidoEjemploInicio1 | core/src/main/java/mapa/GrafoPuertas.java:41-73 | in a three-room graph, connecting the start room's east door to `ACERTIJO_1` is a valid outcome |
| GrafoPuertas.ValidoEjemploAcertijo1 | core/src/main/java/mapa/GrafoPuertas.java:41-73 | connecting `ACERTIJO_1`'s west door to `ACERTIJO_5` is a valid outcome |
| GrafoPuertas.ValidoEjemploAcertijo5 | core/src/main/java/mapa/GrafoPuertas.java:41-73 | connecting `ACERTIJO_5`'s east door to `ACERTIJO_1` is a valid outcome |
| GrafoPuertas.ConexionesAsimetricas | core/src/main/java/mapa/GrafoPuertas.java:41-73 | a valid graph can lead from A to B through a door while B's opposite door leads elsewhere, so connections are not symmetric |
| GeneradorMapa.ElegirCfgNivel | core/src/main/java/mapa/GeneradorMapa.java:172-179 | every level requires at least 5 rooms, allows 2 more, asks equal puzzle and combat minimums, and requires loot and a final boss |
| GeneradorMapa.TablaDeNiveles | core/src/main/java/mapa/GeneradorMapa.java:172-179 | the configurations of levels 1, 2 and 3, with any other level falling back to level 1 |
| GeneradorMapa.CuentaParticion | core/src/main/java/mapa/GeneradorMapa.java:150-161 | the five per-type counts of a path add up to its length |
| GeneradorMapa.CuentaPresente | core/src/main/java/mapa/GeneradorMapa.java:154-160 | the type of a room on the path is counted at least once |
| GeneradorMapa.CandidatoDeLongitudMaxima | core/src/main/java/mapa/GeneradorMapa.java:140-168 | a path that starts at the start room and meets the constraints has exactly the maximum length |
| GeneradorMapa.Busqueda.constructor | core/src/main/java/mapa/GeneradorMapa.java:60-65 | the search starts with the path and visited set holding the start room, and no candidates |
| GeneradorMapa.GeneradorMapa.constructor | core/src/main/java/mapa/GeneradorMapa.java:46-50 | keeps the level, the graph and the random source |
| GeneradorMapa.GeneradorMapa.CumpleRestricciones | core/src/main/java/mapa/GeneradorMapa.java:140-168 | the loop's answer equals the constraint predicate: length in bounds, ending in a boss, and minimum puzzle, combat and loot counts |
| GeneradorMapa.GeneradorMapa.DfsTodos | core/src/main/java/mapa/GeneradorMapa.java:104-138 | path and visited set are restored; candidates only grow; every new candidate is a complete path extending the current one; every complete extension is found |
| GeneradorMapa.GeneradorMapa.RegistrarSiCompleto | core/src/main/java/mapa/GeneradorMapa.java:114-120 | at a boss room the path is recorded exactly when it is complete, and the search goes no further |
| GeneradorMapa.GeneradorMapa.RecorrerVecinos | core/src/main/java/mapa/GeneradorMapa.java:122-137 | after the loop over the shuffled neighbours, every complete extension through any neighbour has been collected |
| GeneradorMapa.GeneradorMapa.ExplorarRama | core/src/main/java/mapa/GeneradorMapa.java:127-136 | push, recurse and backtrack: the state is restored and every complete extension through `sig` is collected |
| GeneradorMapa.GeneradorMapa.VecinosBarajados | core/src/main/java/mapa/GeneradorMapa.java:123-124 | the shuffled list holds exactly the neighbours of the room; the shuffle consumes one draw per neighbour but the first |
| GeneradorMapa.GeneradorMapa.ElegirJefeAleatorio | core/src/main/java/mapa/GeneradorMapa.java:181-192 | the result is a boss room of the catalog, and it is missing exactly when the catalog has none (where the source throws); one draw is consumed, none when it is missing |
| GeneradorMapa.GeneradorMapa.JefeDeRespaldo | core/src/main/java/mapa/GeneradorMapa.java:70-75 | the fallback boss is a boss room of the catalog, drawn with exactly one draw |
| GeneradorMapa.GeneradorMapa.ElegirMasLargo | core/src/main/java/mapa/GeneradorMapa.java:83-95 | the chosen path is one of the candidates, and no candidate is longer; exactly one draw is consumed |
| GeneradorMapa.GeneradorMapa.Generar | core/src/main/java/mapa/GeneradorMapa.java:54-100 | with any complete path, a longest complete path from the start room is chosen; without one, the fallback is start room then a boss; the returned layout is new and empty |
| GeneradorMapa.PasoValido | core/src/main/java/mapa/GeneradorMapa.java:126-132 | extending a path by an unvisited neighbour keeps it repeat-free, connected and boss-terminal |
| DisposicionMapa.Digitos | core/src/main/java/mapa/DisposicionMapa.java:55 | the decimal form of a natural is a nonempty string of digits |
| DisposicionMapa.Decimal | core/src/main/java/mapa/DisposicionMapa.java:55 | the decimal form of an integer is nonempty and holds no `:` |
| DisposicionMapa.PrimeraPosicion | core/src/main/java/mapa/DisposicionMapa.java:55 | finds the first occurrence of a character, or reports that there is none |
| DisposicionMapa.LeerDigitos | core/src/main/java/mapa/DisposicionMapa.java:55 | reading back the decimal digits of a natural gives the natural |
| DisposicionMapa.LeerDecimal | core/src/main/java/mapa/DisposicionMapa.java:55 | reading back the decimal form of any integer, negative ones included, gives the integer |
| DisposicionMapa.ClaveIdaYVuelta | core/src/main/java/mapa/DisposicionMapa.java:55 | the key `gx + ":" + gy` parses back to `(gx, gy)` |
| DisposicionMapa.ClaveInyectiva | core/src/main/java/mapa/DisposicionMapa.java:55 | two cells have the same key iff they are the same cell |
| DisposicionMapa.IndiceOcupada | core/src/main/java/mapa/DisposicionMapa.java:28-35 | with an injective key, a cell is in the lookup iff some placement was added there |
| DisposicionMapa.IndiceUltima | core/src/main/java/mapa/DisposicionMapa.java:28-39 | an occupied cell maps to the last placement added there |
| DisposicionMapa.DisposicionMapa.constructor | core/src/main/java/mapa/DisposicionMapa.java:25-26 | a new layout is empty and consistent |
| DisposicionMapa.DisposicionMapa.Agregar | core/src/main/java/mapa/DisposicionMapa.java:28-31 | appends the placement, keys it by its cell, and the cell then answers with it |
| DisposicionMapa.DisposicionMapa.Ocupada | core/src/main/java/mapa/DisposicionMapa.java:33-35 | a cell is occupied iff some placement was added there |
| DisposicionMapa.DisposicionMapa.En | core/src/main/java/mapa/DisposicionMapa.java:37-39 | a cell answers iff it is occupied, and then with the newest placement there |
| DisposicionMapa.DisposicionMapa.TodasEnElIndice | core/src/main/java/mapa/DisposicionMapa.java:42-44 | the read-only list agrees with the cell lookup: each listed placement's cell is occupied, and what an occupied cell holds is listed |
| DisposicionMapa.DisposicionMapa.HabitacionesComoArray | core/src/main/java/mapa/DisposicionMapa.java:47-53 | a new array of the placed rooms in generation order |
| Piso.Piso.DestinoCoherente | core/src/main/java/control/GestorSalas.java:62 | on a coherent floor the lookup only answers for a door the room has, and the room it gives has a door on the opposite side |
| Piso.Piso.Descubrir | core/src/main/java/control/GestorSalas.java:81 | discovering adds the room to the discovered set |
| ControlPuzzle.Entrar | core/src/main/java/control/ControlPuzzlePorSala.java:37-55 | entering opens a solved room as it is; any other room closes with every button released |
| ControlPuzzle.Presionar | core/src/main/java/control/ControlPuzzlePorSala.java:65-81 | a press on a solved room changes nothing; otherwise it marks the button, and the room is solved iff both buttons are then held |
| ControlPuzzle.Soltar | core/src/main/java/control/ControlPuzzlePorSala.java:84-96 | a release on a solved room changes nothing; otherwise it clears the button and the room stays locked |
| ControlPuzzle.Resolver | core/src/main/java/control/ControlPuzzlePorSala.java:99-105 | marking a room solved opens it for good with every button released |
| ControlPuzzle.Desbloquea | core/src/main/java/control/ControlPuzzlePorSala.java:65-81 | `botonDown` reports an unlock iff the room was unsolved and both buttons are held after the press, and the room is then open |
| ControlPuzzle.Paso | core/src/main/java/control/ControlPuzzlePorSala.java:37-105 | every call keeps a room's state well formed: locked exactly while unsolved |
| ControlPuzzle.Pasos | core/src/main/java/control/ControlPuzzlePorSala.java:37-105 | any sequence of calls keeps a room's state well formed |
| ControlPuzzle.ResueltaEsPermanente | core/src/main/java/control/ControlPuzzlePorSala.java:42-46 | once solved, a room stays solved and open whatever happens next |
| ControlPuzzle.SoloConAmbosBotones | core/src/main/java/control/ControlPuzzlePorSala.java:74-78 | an unsolved room becomes solved only through `marcarResuelta` or a press that leaves both buttons held |
| ControlPuzzle.PasosPrefijo | core/src/main/java/control/ControlPuzzlePorSala.java:37-105 | running a prefix of calls is running the first call and then the rest of the prefix |
| ControlPuzzle.UnSoloJugadorNoResuelve | core/src/main/java/control/ControlPuzzlePorSala.java:65-96 | one player alone, with the other button released, can never open the room |
| ControlPuzzle.EstadoEn | core/src/main/java/control/ControlPuzzlePorSala.java:40 | a room without a state gets the fresh locked, unsolved one |
| ControlPuzzle.SalasConCandado | core/src/main/java/control/ControlPuzzlePorSala.java:27-30 | `aplica` holds exactly for the catalogue's puzzle and combat rooms (ids 2 to 21); start, loot and boss rooms have no lock |
| ControlPuzzle.TrasEntrar | core/src/main/java/control/ControlPuzzlePorSala.java:37-55 | entering keeps the whole lock table well formed |
| ControlPuzzle.TrasPulsar | core/src/main/java/control/ControlPuzzlePorSala.java:65-81 | a press keeps the whole lock table well formed |
| ControlPuzzle.TrasSoltar | core/src/main/java/control/ControlPuzzlePorSala.java:84-96 | a release keeps the whole lock table well formed |
| ControlPuzzle.ControlPuzzlePorSala.constructor | core/src/main/java/control/ControlPuzzlePorSala.java:25 | a new controller has no room states |
| ControlPuzzle.ControlPuzzlePorSala.EstadoDe | core/src/main/java/control/ControlPuzzlePorSala.java:40 | the state of a room, or the fresh one `computeIfAbsent` would create |
| ControlPuzzle.ControlPuzzlePorSala.AlEntrarASala | core/src/main/java/control/ControlPuzzlePorSala.java:37-55 | only rooms with a lock get a state; entering re-locks and releases an unsolved room and opens a solved one |
| ControlPuzzle.ControlPuzzlePorSala.EstaBloqueada | core/src/main/java/control/ControlPuzzlePorSala.java:57-62 | rooms without a lock are never locked; a lock room never entered is locked; otherwise the state's flag decides |
| ControlPuzzle.ControlPuzzlePorSala.BotonDown | core/src/main/java/control/ControlPuzzlePorSala.java:65-81 | the table follows the press, and the result is true iff this press opened a lock room for a valid player |
| ControlPuzzle.ControlPuzzlePorSala.BotonUp | core/src/main/java/control/ControlPuzzlePorSala.java:84-96 | the table follows the release |
| ControlPuzzle.ControlPuzzlePorSala.MarcarResuelta | core/src/main/java/control/ControlPuzzlePorSala.java:99-105 | a lock room becomes solved and open; other rooms are untouched |
| ControlPuzzle.ControlPuzzlePorSala.EstaResuelta | core/src/main/java/control/ControlPuzzlePorSala.java:107-111 | rooms without a lock count as solved; a lock room never entered is unsolved; otherwise the state's flag decides |
| ControlPuzzle.ControlPuzzlePorSala.BloqueadaSiNoResuelta | core/src/main/java/control/ControlPuzzlePorSala.java:57-62 | in a consistent controller, a room is locked iff it is not solved |
| GestorSalas.DireccionEfectiva | core/src/main/java/control/GestorSalas.java:47-59 | the way out is the door's direction from its origin and the opposite one from its destination, and it exists iff the room is one of the two |
| GestorSalas.SentidosOpuestos | core/src/main/java/control/GestorSalas.java:47-59 | crossing a door from either side goes opposite ways |
| GestorSalas.PosicionLlegada | core/src/main/java/control/GestorSalas.java:87-123 | without a door on the entry side, the player lands in the room's centre |
| GestorSalas.LlegadaDentro | core/src/main/java/control/GestorSalas.java:87-123 | the landing point is strictly inside the room entered, in that room's grid cell |
| GestorSalas.LlegadaFrenteAPuerta | core/src/main/java/control/GestorSalas.java:106-116 | through a door, the player lands on the door's centre line, 64 units inside |
| GestorSalas.Cruce | core/src/main/java/control/GestorSalas.java:47-69 | a door of the room leads to the floor's destination for the way out, entered from the opposite side; it leads nowhere when either is missing |
| GestorSalas.CruceEntraPorPuerta | core/src/main/java/control/GestorSalas.java:69-75 | on a coherent floor the room entered has a door on the entry side, so the centre fallback never happens |
| GestorSalas.GestorSalas.constructor | core/src/main/java/control/GestorSalas.java:19-34 | the manager starts in the given room |
| GestorSalas.GestorSalas.IrASalaVecinaPorPuerta | core/src/main/java/control/GestorSalas.java:41-85 | with a door, a body and a destination: the room changes, is discovered and the player lands inside; otherwise nothing changes; life and inventory are untouched |
| GestorSalas.GestorSalas.ColocarJugadorEnSalaPorPuerta | core/src/main/java/control/GestorSalas.java:87-123 | a player with a body is put at the landing point; one without stays without |
| Eventos.Cola.constructor | core/src/main/java/juego/Partida.java:83-88 | a new queue is empty |
| TransicionSala.Procesar | core/src/main/java/juego/sistemas/SistemaTransicionSala.java:37-94 | a room change needs an unlocked room, a queued event and an expired cooldown, and then goes where the first event's door leads; when it leads somewhere the change happens; the cooldown restarts exactly when the queue is handled |
| TransicionSala.Tick | core/src/main/java/juego/sistemas/SistemaTransicionSala.java:29-31 | the cooldown counts down while positive and never below zero |
| TransicionSala.CuadroExacto | core/src/main/java/juego/Partida.java:374-393 | a frame changes room exactly when the room is open, no cooldown runs, a door event waits and its door leads somewhere; a handled event leaves 14 frames of cooldown, any other frame only counts down |
| TransicionSala.CooldownAcotado | core/src/main/java/juego/Partida.java:374-393 | across any run of frames the cooldown stays between 0 and 14 |
| TransicionSala.TrasCambio | core/src/main/java/juego/sistemas/SistemaTransicionSala.java:91 | after a frame with a room change the cooldown is 14 |
| TransicionSala.SinRebote | core/src/main/java/juego/sistemas/SistemaTransicionSala.java:58-61 | while the cooldown lasts, frames change no room and only count down |
| TransicionSala.CambiosEspaciados | core/src/main/java/juego/sistemas/SistemaTransicionSala.java:58-91 | after a room change, the next 14 frames make no other change |
| TransicionSala.CambiosEncadenados | core/src/main/java/juego/sistemas/SistemaTransicionSala.java:63-75 | the changes of a run form a chain: each starts where the previous one ended, and the last ends in the current room |
| TransicionSala.CambiosPorPuertas | core/src/main/java/juego/sistemas/SistemaTransicionSala.java:63-75 | every room change follows a connection of the floor |
| TransicionSala.RegistroCambios.Aceptar | core/src/main/java/juego/sistemas/SistemaTransicionSala.java:78-80 | the notification callback records the (previous, new) pair |
| TransicionSala.AlCambiarDeSala | core/src/main/java/juego/sistemas/SistemaTransicionSala.java:75-82 | on a change the room is discovered, the callback is told, and the lock table sees the entry |
| TransicionSala.SistemaTransicionSala.constructor | core/src/main/java/juego/sistemas/SistemaTransicionSala.java:23 | the cooldown starts at zero |
| TransicionSala.SistemaTransicionSala.BloqueoActivo | core/src/main/java/juego/sistemas/SistemaTransicionSala.java:25-27 | the doors are blocked iff the cooldown is positive |
| TransicionSala.SistemaTransicionSala.TickCooldown | core/src/main/java/juego/sistemas/SistemaTransicionSala.java:29-31 | one countdown step |
| TransicionSala.SistemaTransicionSala.ProcesarPuertasPendientes | core/src/main/java/juego/sistemas/SistemaTransicionSala.java:37-94 | the room, cooldown, discovered set, notifications and lock table follow `Procesar`, and the queue ends empty |
| ProcesadorColas.ClavesExactas | core/src/main/java/juego/sistemas/ProcesadorColasEventos.java:36-37 | a key is in the set built from a queue exactly when some queued event has it |
| ProcesadorColas.PrimerosSinRepetir | core/src/main/java/juego/sistemas/ProcesadorColasEventos.java:36-39 | keeping the first event per key leaves no repeated key |
| ProcesadorColas.ClavesDePrimeros | core/src/main/java/juego/sistemas/ProcesadorColasEventos.java:36-39 | keeping the first event per key loses no key |
| ProcesadorColas.PrimerosSonLosPrimeros | core/src/main/java/juego/sistemas/ProcesadorColasEventos.java:36-39 | every kept event is the first of its key in the queue |
| ProcesadorColas.LosPrimerosSeQuedan | core/src/main/java/juego/sistemas/ProcesadorColasEventos.java:36-39 | every first event of its key is kept |
| ProcesadorColas.ProcesarItemsPendientes | core/src/main/java/juego/sistemas/ProcesadorColasEventos.java:27-42 | the pickups are the first event of each item in order; the seen set is all items queued; the queue ends empty; an empty queue touches nothing |
| ProcesadorColas.Aptos | core/src/main/java/juego/sistemas/ProcesadorColasEventos.java:106-113 | the hit players are all eligible and all come from the queue |
| ProcesadorColas.ProcesarDaniosPendientes | core/src/main/java/juego/sistemas/ProcesadorColasEventos.java:92-156 | the players hit are the eligible ones among the first event of each id; the per-frame set is the ids queued; the queue ends empty |
| ProcesadorColas.UnGolpePorJugador | core/src/main/java/juego/sistemas/ProcesadorColasEventos.java:100-113 | no player is hit twice in a frame, and each one hit was queued and eligible |
| ProcesadorColas.AptosSinRepetir | core/src/main/java/juego/sistemas/ProcesadorColasEventos.java:104-113 | filtering a repeat-free list of ids by eligibility keeps it repeat-free |
| ProcesadorColas.TrasBoton | core/src/main/java/juego/sistemas/ProcesadorColasEventos.java:53-85 | one button event keeps the lock table well formed and never un-solves the current room |
| ProcesadorColas.TrasBotones | core/src/main/java/juego/sistemas/ProcesadorColasEventos.java:53-86 | the frame's button events keep the table well formed and never un-solve the current room |
| ProcesadorColas.OtrasSalasIntactas | core/src/main/java/juego/sistemas/ProcesadorColasEventos.java:57 | button events touch only the current room's state |
| ProcesadorColas.OtraSalaIntacta | core/src/main/java/juego/sistemas/ProcesadorColasEventos.java:57 | one button event touches only the current room's state |
| ProcesadorColas.UnSoloDesbloqueo | core/src/main/java/juego/sistemas/ProcesadorColasEventos.java:74-82 | a frame fires the unlock callback once if it solved the room and never otherwise |
| ProcesadorColas.ProcesarBotonesPendientes | core/src/main/java/juego/sistemas/ProcesadorColasEventos.java:44-89 | locks follow the accepted events in order; each drawn button shows its owner's last accepted event; one unlock callback exactly when the room got solved; the queue ends empty |
| ProcesadorColas.AplicarBotones | core/src/main/java/juego/sistemas/ProcesadorColasEventos.java:53-86 | the loop applies the events in order and counts the unlocking ones |
| ProcesadorColas.Siguiente | core/src/main/java/juego/sistemas/ProcesadorColasEventos.java:53-86 | one more event is one more lock step and at most one more unlock |
| ProcesadorColas.PresionadoPaso | core/src/main/java/juego/sistemas/ProcesadorColasEventos.java:62-71 | one more event sets a button to its direction exactly when it is that button's room and player, and leaves it as it was otherwise |
| ProcesadorColas.ProcesarBoton | core/src/main/java/juego/sistemas/ProcesadorColasEventos.java:54-85 | an event is ignored unless it is in the current room and pressed by the button's owner; then the visuals and the lock follow it; it reports an unlock iff it solved the room |
| ProcesadorColas.MarcarBotones | core/src/main/java/juego/sistemas/ProcesadorColasEventos.java:63-71 | exactly the buttons of the room and player take the new state |
| Partida.Avisos | core/src/main/java/juego/Partida.java:109-113 | one call per listener, in registration order, each with the previous and new room |
| Partida.CadaListenerUnaVez | core/src/main/java/juego/Partida.java:103-113 | with listeners registered once each, every listener hears of a change exactly once and no one else does |
| Partida.Partida.constructor | core/src/main/java/juego/Partida.java:135-139 | the game starts in the floor's start room, discovers it, and a new lock table sees the entry; queues and cooldown start empty |
| Partida.Partida.AgregarListenerCambioSala | core/src/main/java/juego/Partida.java:103-107 | a listener is appended unless it is missing or already registered |
| Partida.Partida.NotificarCambioSala | core/src/main/java/juego/Partida.java:109-113 | the loop makes exactly the calls `Avisos` lists |
| Partida.Partida.EncolarContactoPuerta | core/src/main/java/juego/Partida.java:289-302 | a door event is queued only outside the cooldown, with a door and a player, for a door of the current room |
| Partida.Partida.EncolarPickup | core/src/main/java/juego/Partida.java:304-312 | a pickup is queued only with a player and an item |
| Partida.Partida.EncolarBoton | core/src/main/java/juego/Partida.java:314-322 | a button event is queued only with a player and a button |
| Partida.Partida.EncolarDanioJugador | core/src/main/java/juego/Partida.java:351-354 | a hit is queued only for ids above zero |
| Partida.Partida.ProcesarPuertasPendientes | core/src/main/java/juego/Partida.java:439-475 | room, cooldown, discovery, listener calls and lock table follow `TransicionSala.Procesar`; the game invariant is kept |
| Partida.Partida.ProcesarItemsPendientes | core/src/main/java/juego/Partida.java:477-485 | each item queued this frame is picked up once, by its first event |
| Partida.Partida.ProcesarBotonesPendientes | core/src/main/java/juego/Partida.java:487-513 | the locks follow the frame's button events, and the unlock callback fires once exactly when the room got solved |
| Partida.Partida.ProcesarDaniosPendientes | core/src/main/java/juego/Partida.java:515-576 | each eligible player queued this frame is hit once |
| Partida.Partida.Render | core/src/main/java/juego/Partida.java:362-393 | one frame: room and cooldown as `TransicionSala.Cuadro` says; the discovered set and the listener calls follow the door half; the button events are applied to the room the frame ends in, on the lock table its entry left, with the unlock callback measured from that table; pickups and hits are handed out, every queue ends empty and the game invariant is kept |
| Vitales.ConVida | core/src/main/java/entidades/Jugador.java:109-113 | life is clamped into `[0, max]`: unchanged inside, zero below, the maximum above |
| Vitales.ConVidaMaxima | core/src/main/java/entidades/Jugador.java:119-125 | the maximum is at least one and the current life is cut down to it |
| Vitales.AjustesConservanValidez | core/src/main/java/entidades/Jugador.java:109-125 | any sequence of life and maximum settings keeps `0 <= life <= max` and `max >= 1` |
| Vitales.DesdeIniciales | core/src/main/java/entidades/Jugador.java:36-37 | from the initial 3 of 3, every sequence of settings keeps the player's life consistent |
| ItemTipos.Efecto | core/src/main/java/entidades/items/ItemTipo.java:10-74 | heart: max +1 and full heal; chocolate: +1 life up to max; armour: max +2 without healing; boots and watch leave life alone; consistency is kept |
| ItemTipos.AleatorioSegunRareza | core/src/main/java/entidades/items/ItemTipo.java:114-128 | with positive total weight the type is the one the single draw selects; with no weight there is no result (where `nextInt` throws); exactly one draw is consumed when the total is positive and none otherwise |
| ItemTipos.SinRespaldo | core/src/main/java/entidades/items/ItemTipo.java:122-127 | a draw below the total always selects some type, so the fallback to the first type is never reached |
| ItemTipos.NoNegativo | core/src/main/java/entidades/items/ItemTipo.java:117-118 | with positive weights the total is positive |
| ItemTipos.Tramo | core/src/main/java/entidades/items/ItemTipo.java:122-125 | type `k` is chosen exactly for the draws in its cumulative-weight interval |
| ItemTipos.VecesEnTramo | core/src/main/java/entidades/items/ItemTipo.java:120-125 | among draws `0..n-1`, the ones selecting `k` are those in its interval |
| ItemTipos.CadaTipoSegunSuPeso | core/src/main/java/entidades/items/ItemTipo.java:114-128 | over all possible draws, each type is chosen exactly as often as its rarity's weight |
| Entidades.Item.AplicarModificacion | core/src/main/java/entidades/items/ItemTipo.java:102-105 | applying an item changes the player's life exactly as its type's effect, and nothing else |
| Entidades.Crear | core/src/main/java/entidades/items/ItemTipo.java:90-107 | a new item of the given type |
| Entidades.Tipos | core/src/main/java/entidades/Jugador.java:169 | the types of the inventory, position by position |
| Entidades.Reinicio | core/src/main/java/entidades/Jugador.java:163-166 | the reset puts the maximum back to 3 and cuts the life to it |
| Entidades.SinPrimera | core/src/main/java/entidades/Jugador.java:157-159 | `List.remove` drops one occurrence: nothing when absent, otherwise one fewer of that item |
| Entidades.SinPrimeraEn | core/src/main/java/entidades/Jugador.java:157-159 | the dropped occurrence is the first one |
| Entidades.MaximaSegunItems | core/src/main/java/entidades/Jugador.java:161-172 | after re-applying, the maximum is the base plus one per heart and two per armour |
| Entidades.AplicadosValidos | core/src/main/java/entidades/Jugador.java:169-171 | applying any list of item types keeps life consistent |
| Entidades.AplicadosConcat | core/src/main/java/entidades/Jugador.java:169-171 | applying two lists in a row is applying their concatenation |
| Entidades.OrdenImporta | core/src/main/java/entidades/Jugador.java:169-171 | inventory order matters: chocolate then armour gives 3 of 5, armour then chocolate gives 4 of 5 |
| Entidades.Jugador.constructor | core/src/main/java/entidades/Jugador.java:25-37 | missing gender or style fall back to the defaults; life starts at 3 of 3; the body is at the given point; the inventory is empty |
| Entidades.Jugador.SetGenero | core/src/main/java/entidades/Jugador.java:83-87 | a missing gender is ignored; nothing else changes |
| Entidades.Jugador.SetEstilo | core/src/main/java/entidades/Jugador.java:93-97 | a missing style is ignored; nothing else changes |
| Entidades.Jugador.SetVida | core/src/main/java/entidades/Jugador.java:109-113 | life follows `ConVida`, and consistency is kept |
| Entidades.Jugador.SetVidaMaxima | core/src/main/java/entidades/Jugador.java:119-125 | the maximum follows `ConVidaMaxima`, and consistency is kept |
| Entidades.Jugador.AgregarObjeto | core/src/main/java/entidades/Jugador.java:152-155 | a missing item is ignored; otherwise it is appended |
| Entidades.Jugador.RemoverObjeto | core/src/main/java/entidades/Jugador.java:157-159 | the first occurrence of the item is removed |
| Entidades.Jugador.ReaplicarEfectosDeItems | core/src/main/java/entidades/Jugador.java:161-172 | life becomes the reset values with every item's effect applied in inventory order |
| BitsColision.CategoriasDisjuntas | core/src/main/java/fisica/BitsColision.java:5-7 | each category is one bit, and no two categories share it |
| BitsColision.ColisionSimetrica | core/src/main/java/fisica/BitsColision.java:10-12 | the filter rule does not depend on the order of the pair |
| BitsColision.TablaDeContactos | core/src/main/java/fisica/BitsColision.java:5-12 | the player touches walls and door sensors, and no other pair touches |
| BitsColision.ClasificacionExacta | core/src/main/java/fisica/ContactosJuego.java:28-34 | a fixture is seen as the player or as a door exactly when it is one |
| BitsColision.CabenEnShort | core/src/main/java/fisica/BitsColision.java:5-12 | every filter word fits a signed 16-bit `short` |

## Left out

- Rendering is left out: sprites, camera, HUD, tiled maps, shape drawing, animation, enemies (their creation, movement, removal on a room change, `matarEnemigosDeSalaConAnim`) and logging. None of them affects the modelled state; the model assumes a camera is always given, as the game does (core/src/main/java/juego/Partida.java:141, 193), so the room manager's throw on a missing camera after the room has changed is not modelled.
- Floating point is not modelled. Player speed (`velocidad`, changed by the boots and the watch), knock-back on a hit, hit cooldown timers and physics bodies are left out. A player's body is `Option<(int, int)>`, and positions in the room manager are exact integers (grid × 512, door offsets, ±64, the centre 256).
- `java.util.Random` is not modelled as a generator. A random source is any stream of draws, and `nextInt(n)` takes the next draw modulo `n` (0 once the stream is exhausted). Seeds and the clock are left out.
- Life loss (`recibirDanio`), death and immunity are not modelled. The hit processor takes an eligibility predicate `apto(id)`; it stands for "exists, alive, not dying, not immune, has a body". `recogerItem` is recorded, not executed.
- `getJugadorId` is not modelled. It reads the fixture's body user data. The enqueue methods take the player id directly, with -1 for "no player", and take the door, button or item directly. A fixture of the wrong kind becomes `None`/`null`.
- The shown `fisica/DatosPuerta.java` carries a room name and a grid cell. The door records used by the queues carry an origin, a destination and a direction. The model uses that record (`Eventos.DatosPuerta`), which is not part of the shown source.
- The three-argument `irASalaVecinaPorPuerta(sala, puerta, jugadorId)` used by the frame loop is not part of the shown source. It is modelled as the pure lookup `GestorSalas.Cruce`, the logic of the shown one-argument method. Moving the player in that path is left out.
- `DisposicionMapa.descubrir`, `getDestinoEnPiso`, `salaInicio` and `generador.salasDelPiso` are not part of the shown source. They are modelled by the `Piso` class: a fixed floor map from (room, side) to room, a start room and a set of discovered rooms. The map generator does not build it, because the shown `generar` returns an empty layout.
- `RarezaItem` weights are not part of the shown source. The weighted draw takes them as a parameter `peso`.
- `Genero` and `Estilo` are kept as strings. Their defaults are `"MASCULINO"` and `"CLASICO"`.
- Entidades.Item.AplicarModificacion: an item applies the effect of its type. The shown `Item.java` runs a separate `efecto` callback in `aplicarModificacion`, and `ItemTipo.crear` overrides `aplicar`. The model assumes the two agree, as the game intends.
- ProcesadorColas.ProcesarBotonesPendientes: `null` entries in the list of drawn buttons are not modelled. Sequences of objects in the model are non-null.
- ControlPuzzle.EstadosValidos: it only states that every recorded state is well formed. That only lock rooms get a state is not part of the invariant; the contracts of `AlEntrarASala`, `BotonDown`, `BotonUp` and `MarcarResuelta` state it directly.
- Partida.Partida.constructor models only the logical part of `init`: the start room, discovery and the lock table. Building the physics world, the graph and the generator in `init` is left out; those are modelled by their own modules.
- Partida.Partida.ProcesarPuertasPendientes folds the empty-queue check and the cooldown check into one branch. Both leave the queue empty, and the game invariant already keeps the queue empty during the cooldown.
- TransicionSala.SistemaTransicionSala.ProcesarPuertasPendientes folds the three early returns (locked room, empty queue, running cooldown) into one guard followed by clearing the queue; clearing an empty queue changes nothing, so the outcome is the same.
- Java's 32-bit `int` is not modelled: the model's integers are unbounded, so the wrap-around of `getVidaMaxima() + 1`, `getVidaMaxima() + 2` and `getVida() + 1` (core/src/main/java/entidades/items/ItemTipo.java:19, 46, 72) and of the weight sum `total += peso` (ItemTipo.java:118) is not captured. Life caps and rarity weights stay small in play, so it cannot happen there.
- Concurrency is not modelled. The source is single-threaded.

Two behaviours of the source that the model keeps as written:

- The door cooldown is set to 15 after any handled door event, even when the door leads nowhere (core/src/main/java/juego/sistemas/SistemaTransicionSala.java:91-93, core/src/main/java/juego/Partida.java:473).
- The cooldown is decremented once per frame, at the end of `render` (core/src/main/java/juego/Partida.java:393), not while the queue is processed.
