# Routing backend of the map-navigation tool, in Dafny

This project models the C routing backend of a desktop map-navigation tool
and proves properties of it. The backend holds a static street graph: 120
vertices, which are 22 street corners and 98 points of interest. It also holds
a table of directed edges, each with a length in metres. The backend computes
a shortest walking route between two vertex ids with Dijkstra's algorithm, and
it answers metadata lookups that fill caller-owned character buffers.

The modules follow the C files:

| module | C file | what it holds |
|---|---|---|
| `CTypes` | (all) | 32-bit `int` with wrap-around, bytes, C strings, the "strncpy then terminate" copy into a caller buffer |
| `GrafoData` | `backend/grafo_data.c` | the vertex and edge tables, their declared counts and the two accessors; facts about the shipped data |
| `Grafos` | `backend/grafo.c` | the `Grafo` class (vertex array and adjacency lists, newest edge first), `criar_grafo`, `adicionar_vertice`, `encontrar_indice_vertice`, `adicionar_aresta` |
| `GrafoDb` | `backend/grafo_db.c` | `inicializar_vertices` and `inicializar_arestas` as loops over the tables; the graph they build |
| `Dijkstra` | `backend/grafo_algoritmos.c` | `executar_dijkstra` as functions on the values of its three arrays, with a flag `corrigido` for the corrected guard |
| `GrafoAlgoritmos` | `backend/grafo_algoritmos.c` | the same routines as methods over arrays updated in place, proved equal to those functions |
| `Caminhos` | `backend/grafo_algoritmos.c` | walks in the graph, the predecessor chain `reconstruir_caminho` follows, the `ResultadoRota` value, `calcular_rota` as a function |
| `DijkstraCorreto`, `RotaCorreta` | `backend/grafo_algoritmos.c` | the loop invariant of the corrected algorithm and the shortest-route theorem |
| `RotaEstatica` | `backend/grafo_algoritmos.c` on `backend/grafo_data.c` | the theorem applied to the shipped graph |
| `RotaComoEscrita` | `backend/grafo_algoritmos.c` | the code as written compared with the corrected code, and its routes on the shipped graph |
| `Exportadas` | `backend/grafo_algoritmos.c` | the exported `calcular_rota`, `obter_numero_total_vertices`, `obter_info_vertice`, `obter_rua_vertice` |
| `Pontos` | `backend/main.c` | `get_num_pontos` and `get_ponto_info` |
| `Achados` | `backend/grafo_algoritmos.c` | small graphs on which the code as written and the corrected code differ |

The representation choices are these:
- C `int` values are Dafny `int` values within `INT_MIN..INT_MAX`.
- `INT_MAX` stands for "not reached".
- The one addition that can overflow, `distancias[u] + distancia`, goes through `CTypes.Wrap32`, which wraps in two's complement.
- The string literals of the tables are `string`s. The C program sees their UTF-8 bytes, up to the first NUL.
- The fixed-size character arrays of a vertex record hold exactly the bytes `strncpy` and the terminator leave in them.
- Caller buffers are `array?<Byte>`, where a null array stands for a NULL argument.
- An `int*` output is an `array?<int>` of length at least 1.
- An adjacency list is the sequence of its nodes from the head. New edges come first.

Every exported call builds a fresh graph from the static tables. Points of interest are the vertices with `tipo == TIPO_PONTO`. `TIPO_PONTO` is not defined in any header. It is taken as 1, the value the comment on `VerticeData.tipo` gives.

The graph the exported calls build is loaded with the corrected edge bound: all 135 entries of the edge table and nothing beyond them (see the first row of "## Findings"). Both settings of `corrigido` run on that graph. The code as written reads 17 entries past the end of the table, and their contents are undefined.

## Model

| member | source | states |
|---|---|---|
| CTypes.Wrap32 | backend/grafo_algoritmos.c:81 | the stored sum lies in `int` range, agrees with the mathematical sum modulo 2^32, and equals it when it fits |
| CTypes.CopiaLimitada | backend/grafo.c:38-43 | after `strncpy(buf, src, len - 1); buf[len - 1] = 0` the first `len` bytes are `src` up to `len - 1` bytes, then NUL through index `len - 1` |
| CTypes.LerCopiaLimitada | backend/grafo.c:38-43 | reading a bounded copy back as a C string gives `src` truncated to `len - 1` bytes: the field is always terminated |
| CTypes.LerEscrito | backend/grafo_algoritmos.c:312-320 | whatever a caller buffer held before, after the copy it reads back as `src` truncated to `len - 1` bytes |
| CTypes.CopiarLimitado | backend/grafo_algoritmos.c:313-314 | the copy loop leaves the buffer as the bounded copy in its first `len` bytes with every later byte unchanged |
| GrafoData.ObterVerticesStatic | backend/grafo_data.c:195-198 | returns the vertex table and reports 120, which is the number of its entries |
| GrafoData.ObterArestasStatic | backend/grafo_data.c:200-203 | returns the edge table and reports 152 although the table has 135 entries, so the reported count exceeds the table |
| GrafoData.ObterArestasStaticCorrigido | backend/grafo_data.c:131-190 | reports the edge table's real length, 135 |
| GrafoData.VerticesEstaticos | backend/grafo_data.c:5-128 | the vertex table has `VERTICES_STATIC_COUNT` = 120 entries; entry i has id i; entries 0..21 are corners (tipo 0, category "Esquina", street "N/A"); entries 22..119 are tipo 1 and never have category "Esquina" |
| GrafoData.ArestasValidas | backend/grafo_data.c:131-190 | the edge table has 135 entries; each joins two ids in 0..119 and has a length in 1..154, so every weight is positive |
| GrafoData.SemArestasSaindo | backend/grafo_data.c:167-181 | the table holds {4, 67, 130} (line 167) and {87, 86, 2} (line 181), and no entry has origin 67 or 86 |
| Grafos.IndiceDe | backend/grafo.c:55-63 | the lookup result is the least index whose id matches, or -1 exactly when no vertex has the id |
| Grafos.Grafo.constructor | backend/grafo.c:7-18 | `criar_grafo` gives a graph with `num_vertices` 0, no vertices and no adjacency lists |
| Grafos.AdicionarVertice | backend/grafo.c:21-52 | a NULL graph is unchanged; otherwise exactly one record (strings copied with the bounded copy) is appended at the old `num_vertices` with an empty list, the count grows by one, and earlier records and lists are unchanged |
| Grafos.EncontrarIndiceVertice | backend/grafo.c:55-63 | the scan returns the least index with the id, and -1 exactly when no vertex has it |
| Grafos.AdicionarAresta | backend/grafo.c:66-95 | a NULL graph is unchanged; when either id is absent nothing changes; otherwise (destino, distancia) goes at the head of the origin's list, duplicates kept, and every other list and the vertex array are unchanged |
| GrafoDb.VerticeDe | backend/grafo_db.c:13-20 | the record stored for a table entry carries the entry's id, tipo, x and y |
| GrafoDb.CarregarVertices | backend/grafo_db.c:12-21 | the loop appends one record per entry of the first `count` entries, in order, each with an empty list; a NULL graph is unchanged |
| GrafoDb.InicializarVertices | backend/grafo_db.c:7-22 | `num_vertices` grows by 120, and the vertex array gains the records of the whole table in table order with 120 empty lists |
| GrafoDb.CarregarArestas | backend/grafo_db.c:30-35 | the loop applies `adicionar_aresta` to each of the first `count` entries in table order, and never changes `num_vertices` or any vertex record |
| GrafoDb.InicializarArestasLeAlemDaTabela | backend/grafo_db.c:25-36 | with the shipped counts, the loop bound of `inicializar_arestas` exceeds the table length, so its reads are out of bounds |
| GrafoDb.InicializarArestas | backend/grafo_db.c:25-36 | with the table length as the bound, every table entry is loaded in order, and the vertex array and count stay unchanged |
| GrafoDb.IndiceDenso | backend/grafo.c:55-63 | when vertex i has id i, the lookup returns `id` for ids 0..n-1 and -1 for any other id |
| GrafoDb.InserirDenso | backend/grafo.c:85-94 | with dense ids and both ends in range, `adicionar_aresta` prepends the edge to its origin's list and changes nothing else |
| GrafoDb.ListasEmOrdemInversa | backend/grafo_db.c:30-35 | after loading a table from empty lists, the list of v is the table's edges leaving v, in reverse table order |
| GrafoDb.VerticesCarregadosDensos | backend/grafo_db.c:7-22 | the loaded graph has 120 vertices with dense ids, and the lookup finds each id 0..119 at its own index and no other id |
| GrafoDb.TiposCarregados | backend/grafo_db.c:13-20 | loaded vertices 0..21 have tipo 0 and vertices 22..119 have tipo 1 |
| GrafoDb.ListasCarregadasEmOrdemInversa | backend/grafo_db.c:25-36 | each of the 120 loaded lists is that vertex's outgoing table edges, newest first |
| GrafoDb.ListasCarregadasValidas | backend/grafo_db.c:25-36 | every loaded adjacency entry points at an id in 0..119 and has a length in 1..154 |
| GrafoDb.ListasCarregadasSemSaida | backend/grafo_data.c:167-181 | the loaded lists of vertices 67 and 86 are empty |
| GrafoDb.SaidasJuntas | backend/grafo_db.c:30-35 | the entries leaving a vertex in two tables loaded one after the other are those of the first followed by those of the second |
| GrafoDb.SemSaidaDe119 | backend/grafo_data.c:131-190 | no street of the edge table has an edge leaving vertex 119 except the last entry of Venâncio Aires |
| GrafoDb.ListaCarregadaDe119 | backend/grafo_data.c:168 | the only table edge leaving vertex 119 is {119, 20, 110}, so its loaded list is that single entry |
| GrafoDb.CarregarGrafo | backend/grafo_algoritmos.c:223-235 | `criar_grafo`, `inicializar_vertices` and `inicializar_arestas` build a fresh graph with exactly the loaded vertices and lists; the edges are loaded with the corrected bound, so the graph holds the 135 table entries and nothing read past the table |
| Dijkstra.Inicial | backend/grafo_algoritmos.c:53-58 | after initialisation the origin has distance 0, every other vertex has INT_MAX, and all have predecessor -1 and are unvisited |
| Dijkstra.Escolha | backend/grafo_algoritmos.c:14-19 | after scanning positions 0..k-1 the held index is -1 exactly when all are visited; otherwise it is an unvisited position of least distance, and later unvisited positions are strictly farther |
| Dijkstra.MenorDistancia | backend/grafo_algoritmos.c:9-22 | returns -1 exactly when every vertex is visited; otherwise an unvisited vertex of least distance, the last among equals (INT_MAX vertices included) |
| Dijkstra.RelaxarAresta | backend/grafo_algoritmos.c:78-97 | an entry changes the state only when its destination exists, is unvisited and the 32-bit sum is smaller; then exactly that vertex gets the sum and predecessor `u` |
| Dijkstra.Relaxar | backend/grafo_algoritmos.c:75-100 | walking a list keeps the arrays well-formed and never changes `visitados` |
| Dijkstra.RelaxarSoMelhora | backend/grafo_algoritmos.c:75-100 | the inner loop never changes a visited vertex, never raises a distance, and gives `u` as predecessor to every vertex it changes |
| Dijkstra.Passo | backend/grafo_algoritmos.c:62-105 | a turn of the main loop keeps the three arrays well-formed |
| Dijkstra.Iterar | backend/grafo_algoritmos.c:62-105 | any number of turns keeps the three arrays well-formed |
| Dijkstra.Executar | backend/grafo_algoritmos.c:25-113 | the returned arrays have one entry per vertex, distances in `int` range and predecessors in -1..n-1 |
| Dijkstra.IterarParado | backend/grafo_algoritmos.c:65-67 | once the scan returns -1, further turns change nothing, which justifies the `break` |
| Dijkstra.PassoConta | backend/grafo_algoritmos.c:62-69 | each turn marks exactly one new vertex visited until all are visited |
| Dijkstra.IterarConta | backend/grafo_algoritmos.c:62-69 | k turns add min(k, number unvisited) to the visited count |
| Dijkstra.ExecutarVisitaTodos | backend/grafo_algoritmos.c:62-105 | when `executar_dijkstra` returns, every vertex is visited, reachable or not |
| GrafoAlgoritmos.EncontrarMenorDistancia | backend/grafo_algoritmos.c:9-22 | the running-minimum loop returns `MenorDistancia` of the arrays |
| GrafoAlgoritmos.ExecutarDijkstra | backend/grafo_algoritmos.c:25-113 | fails exactly for an origin outside the graph; otherwise the returned distance and predecessor arrays are those of `Executar` |
| GrafoAlgoritmos.LacoPrincipal | backend/grafo_algoritmos.c:62-105 | the main loop, with its `break`, leaves the arrays as `num_vertices` turns from the initial state |
| GrafoAlgoritmos.Turno | backend/grafo_algoritmos.c:63-100 | one body of the main loop reports "stop" exactly when the scan finds nothing, and leaves the arrays as one `Passo` |
| GrafoAlgoritmos.RelaxarLista | backend/grafo_algoritmos.c:75-100 | the `while (aresta != NULL)` loop leaves the arrays as `Relaxar` over the list from its head |
| GrafoAlgoritmos.RelaxarEntrada | backend/grafo_algoritmos.c:78-97 | one relaxation updates the arrays as `RelaxarAresta` |
| GrafoAlgoritmos.ReconstruirCaminho | backend/grafo_algoritmos.c:116-195 | the method returns the route `Caminhos.ReconstruirCaminho` describes, including NULL for an unreached destination and for a full chain |
| GrafoAlgoritmos.SeguirAnteriores | backend/grafo_algoritmos.c:149-158 | `caminho_temp` receives the ids of the predecessor chain from the destination, and `current` is where the walk stopped |
| GrafoAlgoritmos.Inverter | backend/grafo_algoritmos.c:176-182 | `sequencia_ids` is the collected prefix of `caminho_temp` reversed |
| Caminhos.Cadeia | backend/grafo_algoritmos.c:149-158 | the loop records at most `num_vertices` valid positions starting with the destination, and stops either at -1 or with the buffer full |
| Caminhos.IdsReverso | backend/grafo_algoritmos.c:176-177 | reversing the positions and then reading their ids equals reading the ids and then reversing |
| Caminhos.ReconstruirCaminho | backend/grafo_algoritmos.c:116-195 | a route is returned only for a reached destination; its distance is `distancias[destino]`, `num_ids` is the length of `sequencia_ids`, at most `num_vertices`, and the last id is the destination's |
| Caminhos.CalcularRota | backend/grafo_algoritmos.c:198-282 | a route is returned only for distinct non-negative ids that both name vertices; (22, 22) therefore gives none |
| DijkstraCorreto.InicialInv | backend/grafo_algoritmos.c:53-58 | the initial arrays satisfy the main-loop invariant of the corrected code |
| DijkstraCorreto.MelhoraSemEstouro | backend/grafo_algoritmos.c:81 | under the invariant, every sum the corrected code stores fits in `int`: no wrap-around |
| DijkstraCorreto.RelaxarArestaInv | backend/grafo_algoritmos.c:78-97 | one relaxation keeps the inner-loop invariant and settles the entry |
| DijkstraCorreto.RelaxarInv | backend/grafo_algoritmos.c:75-100 | the inner loop keeps its invariant and settles every entry of the visited vertex's list |
| DijkstraCorreto.MarcarOrdenado | backend/grafo_algoritmos.c:63-69 | the vertex the scan picks is no closer than any visited vertex and no farther than any unvisited one |
| DijkstraCorreto.PassoInv | backend/grafo_algoritmos.c:62-105 | a turn of the corrected main loop keeps the invariant: distances bounded and non-negative, predecessors are tight edges, visited vertices settled |
| DijkstraCorreto.IterarInv | backend/grafo_algoritmos.c:62-105 | any number of turns keeps the invariant |
| DijkstraCorreto.ExecutarInv | backend/grafo_algoritmos.c:25-113 | the corrected `executar_dijkstra` ends with the invariant and every vertex visited |
| DijkstraCorreto.LimiteInferior | backend/grafo_algoritmos.c:25-113 | no walk from the origin is shorter than the distance returned for its end |
| DijkstraCorreto.AlcancadoFinito | backend/grafo_algoritmos.c:25-113 | every vertex a walk from the origin reaches gets a finite distance, at most n·W |
| DijkstraCorreto.CadeiaTermina | backend/grafo_algoritmos.c:149-158 | from a reached vertex the predecessor chain ends at the origin and then at -1, within the loop's bound |
| DijkstraCorreto.TrilhaDaCadeia | backend/grafo_algoritmos.c:149-185 | the reversed chain is a walk from the origin to the destination whose length is `distancias[destino]` |
| DijkstraCorreto.CadeiaTrilha | backend/grafo_algoritmos.c:149-182 | some walk from the origin reaches the destination with length `distancias[destino]` and visits exactly the reversed predecessor chain |
| RotaCorreta.ExecutarTerminado | backend/grafo_algoritmos.c:25-113 | the corrected run finishes with the invariant holding and every vertex visited |
| RotaCorreta.DistanciasMinimas | backend/grafo_algoritmos.c:25-113 | each returned distance is a lower bound on every walk to that vertex, and it is finite exactly when some walk reaches the vertex |
| RotaCorreta.ReconstruirCorreto | backend/grafo_algoritmos.c:116-195 | the corrected reconstruction gives a route exactly when the destination is reachable; the ids run along a walk from the origin to the destination whose length is `distancia_total`, and no walk is shorter |
| RotaCorreta.CalcularRotaCorreta | backend/grafo_algoritmos.c:198-282 | the corrected `calcular_rota` gives a route exactly when the ids differ, are non-negative, name vertices and the destination is reachable; the route is then a shortest walk between them |
| RotaEstatica.ValidasLimitadas | backend/grafo_data.c:131-190 | 120 lists with lengths in 1..154 satisfy the weight bound the shortest-route theorem needs |
| RotaEstatica.CarregadoComoCarregado | backend/grafo_db.c:7-36 | the loaded graph has 120 dense vertices, valid entries, and nothing leaving 67 or 86 |
| RotaEstatica.CalcularRotaCarregada | backend/grafo_algoritmos.c:198-282 | on that graph the corrected `calcular_rota(a, b)` gives a route exactly when a ≠ b, both are in 0..119 and b is reachable from a; the route's ids are the vertices of a shortest walk |
| RotaEstatica.SemRotaDeBecos | backend/grafo_data.c:167-181 | on that graph the corrected `calcular_rota` gives no route from vertex 67 or 86 |
| RotaComoEscrita.RelaxarIgual | backend/grafo_algoritmos.c:75-100 | relaxing the list of a visited vertex with a finite distance is the same with and without the guard `distancias[u] != INT_MAX` |
| RotaComoEscrita.PassoIgual | backend/grafo_algoritmos.c:62-105 | a turn whose scan finds nothing, or picks a vertex with a finite distance, is the same in both variants |
| RotaComoEscrita.RelaxarInerte | backend/grafo_algoritmos.c:75-100 | with the guard, relaxing the list of a vertex at INT_MAX changes nothing |
| RotaComoEscrita.PassoConcorda | backend/grafo_algoritmos.c:62-105 | if both runs have visited every vertex the corrected run has reached, with equal distances and predecessors there, one more turn of each keeps that agreement |
| RotaComoEscrita.IterarConcorda | backend/grafo_algoritmos.c:62-105 | from equal or agreeing arrays, any number of turns gives equal or agreeing arrays |
| RotaComoEscrita.ExecutarConcorda | backend/grafo_algoritmos.c:25-113 | `executar_dijkstra` as written returns the corrected distance and predecessor for every vertex the corrected run reaches |
| RotaComoEscrita.CadeiaConcorda | backend/grafo_algoritmos.c:149-158 | predecessor arrays that agree on reached vertices give the same chain from a reached vertex |
| RotaComoEscrita.ReconstruirComoEscrito | backend/grafo_algoritmos.c:116-195 | for a reachable destination, the reconstruction as written returns the corrected route when that route has fewer than `num_vertices` ids, and NULL when it has exactly `num_vertices` |
| RotaComoEscrita.CalcularRotaComoEscrita | backend/grafo_algoritmos.c:198-282 | `calcular_rota` as written returns the corrected route whenever that route has fewer than `num_vertices` ids, and NULL when the corrected route has exactly `num_vertices` ids |
| RotaComoEscrita.CadeiaPropria | backend/grafo_algoritmos.c:149-158 | the chain from a reached vertex follows `anteriores`, stays on reached vertices and never repeats one, since the distances strictly fall along it |
| RotaComoEscrita.ArvoreComSaida | backend/grafo_algoritmos.c:84-91 | under the corrected invariant, every predecessor of a reached vertex has an outgoing edge |
| RotaComoEscrita.CadeiaCurta | backend/grafo_algoritmos.c:149-158 | when two vertices have no outgoing edge, only the first id of a predecessor chain can be one of them, so the chain has fewer ids than vertices |
| RotaComoEscrita.CalcularRotaCarregadaComoEscrita | backend/grafo_algoritmos.c:198-282 | on the shipped graph, `calcular_rota(a, b)` as written returns a route for distinct a, b in 0..119 with b reachable from a, and it is the corrected route, which is a shortest walk |
| RotaComoEscrita.BecoSegundoTurno | backend/grafo_algoritmos.c:62-69 | from an origin other than the last vertex and without outgoing edges, the second scan picks the last vertex while its distance is INT_MAX |
| RotaComoEscrita.BecosComoEscritos | backend/grafo_data.c:167-181 | on the shipped graph, a run from vertex 67 or 86 picks vertex 119 at INT_MAX on its second turn, where the code as written relaxes edges of an unreached vertex |
| RotaComoEscrita.PassoFixaVisitados | backend/grafo_algoritmos.c:62-105 | a turn keeps every visited vertex visited, with its distance and predecessor |
| RotaComoEscrita.IterarFixaVisitados | backend/grafo_algoritmos.c:62-105 | any number of turns keeps every visited vertex visited, with its distance and predecessor |
| RotaComoEscrita.IterarIsolado | backend/grafo_algoritmos.c:62-105 | with the guard, when every unvisited vertex is at INT_MAX, the remaining turns change no distance and no predecessor |
| RotaComoEscrita.WrapInfinito | backend/grafo_algoritmos.c:81 | INT_MAX plus a positive 32-bit length wraps to INT_MAX + w - 2^32, which is negative |
| RotaComoEscrita.DepoisDaOrigem | backend/grafo_algoritmos.c:52-69 | the arrays after a first turn that only marks the origin visited: the origin at 0, every other vertex unvisited at INT_MAX, and no predecessors |
| RotaComoEscrita.PrimeiroTurnoBeco | backend/grafo_algoritmos.c:62-105 | from an origin without outgoing edges, the first turn only marks the origin visited |
| RotaComoEscrita.ExecutarDesdeBeco | backend/grafo_algoritmos.c:25-113 | from such an origin, `executar_dijkstra` is the remaining `num_vertices - 1` turns from the initial arrays with the origin visited |
| RotaComoEscrita.RelaxarDeInfinito | backend/grafo_algoritmos.c:78-97 | as written, relaxing a single entry of positive length from a vertex at INT_MAX stores the wrapped negative sum at its unreached destination, with that vertex as predecessor |
| RotaComoEscrita.DepoisDoUltimo | backend/grafo_algoritmos.c:78-97 | the arrays after the last vertex at INT_MAX is taken as written with its single entry: the destination holds INT_MAX + w - 2^32 < 0 with the last vertex as predecessor, the last vertex is visited, and nothing else changes |
| RotaComoEscrita.EscolheUltimo | backend/grafo_algoritmos.c:9-22 | when every unvisited vertex is at INT_MAX and the last is unvisited, the `<=` scan picks the last vertex |
| RotaComoEscrita.PassoDoUltimo | backend/grafo_algoritmos.c:62-105 | as written, that turn stores the wrapped sum INT_MAX + w at the destination of the last vertex's single entry, with the last vertex as predecessor |
| RotaComoEscrita.IterarDoUltimo | backend/grafo_algoritmos.c:62-105 | the same turn taken as the first of k turns |
| RotaComoEscrita.TerceiroTurnoBeco | backend/grafo_algoritmos.c:9-22 | when the only unvisited vertex below INT_MAX is v, at a negative distance, the next turn picks v and keeps its distance and predecessor and those of the visited vertices |
| RotaComoEscrita.IterarDoNegativo | backend/grafo_algoritmos.c:62-105 | from such a state, the remaining turns keep the distance and predecessor of v and the predecessors of visited vertices |
| RotaComoEscrita.UltimoPronto | backend/grafo_algoritmos.c:78-97 | after the last vertex is taken, its single destination is the only unvisited vertex below INT_MAX, and the last vertex keeps no predecessor |
| RotaComoEscrita.IterarBeco | backend/grafo_algoritmos.c:62-105 | from a state where every unvisited vertex is at INT_MAX and the last vertex has one entry, the code as written ends with the wrapped sum at that entry's destination and the last vertex as its predecessor, which itself has none |
| RotaComoEscrita.OrigemIsolada | backend/grafo_algoritmos.c:52-69 | after the first turn from any origin every unvisited vertex is at INT_MAX |
| RotaComoEscrita.CorrigidoBeco | backend/grafo_algoritmos.c:25-113 | from an origin without outgoing edges, the corrected run leaves every other vertex at INT_MAX |
| RotaComoEscrita.OrigemPronta | backend/grafo_algoritmos.c:52-69 | after the first turn from an origin other than the last vertex, the last vertex and any other destination are unvisited at INT_MAX, and the last vertex has no predecessor |
| RotaComoEscrita.EstouroDesdeOrigem | backend/grafo_algoritmos.c:62-105 | from such an origin, when the last vertex has a single entry of positive length, the remaining turns as written give its destination the wrapped negative sum with the last vertex as predecessor |
| RotaComoEscrita.EstouroDeBeco | backend/grafo_algoritmos.c:25-113 | the same for the whole `executar_dijkstra` run from an origin without outgoing edges |
| RotaComoEscrita.ReconstruirDeDois | backend/grafo_algoritmos.c:116-195 | as written, a destination whose predecessor has no predecessor gives the two-id route from that predecessor, with the destination's distance |
| RotaComoEscrita.RotaDoBeco | backend/grafo_algoritmos.c:198-282 | on a graph loaded like the shipped one, in which vertex 119 has the single entry (20, 110), `calcular_rota(67, 20)` and `calcular_rota(86, 20)` as written return the route [119, 20] with length INT_MIN + 109 |
| RotaComoEscrita.RotaDosBecosCarregada | backend/grafo_data.c:167-168 | on the shipped graph, `calcular_rota(67, 20)` and `calcular_rota(86, 20)` as written return the route [119, 20] with length INT_MIN + 109, where the corrected code returns NULL |
| Exportadas.CalcularRota | backend/grafo_algoritmos.c:198-282 | the exported call returns `Caminhos.CalcularRota` on the loaded graph, which is built with the corrected edge bound of 135 entries; `corrigido` chooses only the Dijkstra and reconstruction variant |
| Exportadas.RotaNoGrafo | backend/grafo_algoritmos.c:210-269 | the checks, lookups, Dijkstra and reconstruction give `Caminhos.CalcularRota` of the graph |
| Exportadas.ObterNumeroTotalVertices | backend/grafo_algoritmos.c:295-299 | returns 120, the number of vertex table entries |
| Exportadas.IndiceDados | backend/grafo_algoritmos.c:309-310 | the table lookup returns the first entry with the id, or -1 exactly when none has it |
| Exportadas.IndiceDadosComoIndiceDe | backend/grafo.c:55-63 | looking an id up in the table gives the same index as `encontrar_indice_vertice` over the records built from it |
| Exportadas.IndiceDadosEstatico | backend/grafo_algoritmos.c:309-310 | in the shipped table exactly the ids 0..119 are found, each at its own index |
| Exportadas.BuscarDados | backend/grafo_algoritmos.c:309-332 | the scan loop returns `IndiceDados` of the first `count` entries |
| Exportadas.CopiarSeHouver | backend/grafo_algoritmos.c:312-315 | a non-NULL buffer with positive length receives the bounded copy; otherwise it is unchanged |
| Exportadas.InfoVerticeEm | backend/grafo_algoritmos.c:302-335 | returns 0 exactly when some entry has the id; then name and category go to the usable buffers by the bounded copy and x, y to non-NULL outputs; on -1 nothing is written |
| Exportadas.ObterInfoVertice | backend/grafo_algoritmos.c:302-335 | the same contract on the shipped table |
| Exportadas.RuaVerticeEm | backend/grafo_algoritmos.c:338-355 | returns 0 exactly when some entry has the id, and then the street goes to the usable buffer by the bounded copy; on -1 nothing is written |
| Exportadas.ObterRuaVertice | backend/grafo_algoritmos.c:338-355 | the same contract on the shipped table |
| Exportadas.RuaDeEsquina | backend/grafo_algoritmos.c:338-355 | for a corner id 0..21 the lookup succeeds and the street copied is the three bytes of "N/A" |
| Pontos.IndicesPontos | backend/main.c:32-36 | the positions enumerated are in range and are all tipo-1 vertices |
| Pontos.IndicesPontosOrdenados | backend/main.c:32-36 | the positions are strictly increasing and include every tipo-1 vertex: table order, each once |
| Pontos.IndicesPontosPrefixo | backend/main.c:53-73 | the points of a prefix of the array are the first points of the whole array |
| Pontos.PontoEm | backend/main.c:53-73 | the index-th point is found exactly when 0 ≤ index < number of points, and it is a tipo-1 vertex |
| Pontos.PontosAPartirDe | backend/main.c:32-36 | when corners precede points, the t-th point is at position t + (number of corners) |
| Pontos.PontosDepoisDasEsquinas | backend/main.c:53-70 | with dense ids and 22 leading corners, the t-th point is at position t + 22 and has id t + 22 |
| Pontos.PontosCarregados | backend/main.c:24-40 | the loaded graph has 98 points, and the t-th has id t + 22 |
| Pontos.ContarPontos | backend/main.c:29-36 | the counting loop returns the number of tipo-1 vertices |
| Pontos.GetNumPontos | backend/main.c:24-40 | `get_num_pontos` returns the number of tipo-1 vertices of the loaded graph |
| Pontos.LocalizarPonto | backend/main.c:53-73 | the loop stops at the index-th point, or returns -1 when there is none, negative indices included |
| Pontos.PontoInfoNoGrafo | backend/main.c:53-73 | on a hit, name and category go to usable buffers by the bounded copy and the id to a non-NULL `id_out`, and the result is 0; on a miss nothing is written and the result is -1 |
| Pontos.PontoInfoEm | backend/main.c:43-77 | the same on a graph built from a table prefix |
| Pontos.GetPontoInfo | backend/main.c:43-77 | the same on the loaded graph |
| Pontos.PontoInfoCarregado | backend/main.c:43-77 | `get_ponto_info` succeeds exactly for 0 ≤ index < 98, the count `get_num_pontos` reports, and the index-th point has id index + 22 |
| Achados.EstouroExecutar | backend/grafo_algoritmos.c:81-91 | as written, on a 3-vertex graph a vertex no walk reaches ends with distance INT_MIN and a predecessor |
| Achados.EstouroComoEscrito | backend/grafo_algoritmos.c:81-91 | as written, that `calcular_rota(0, 1)` returns the route [2, 1] of length INT_MIN |
| Achados.EstouroCorrigido | backend/grafo_algoritmos.c:81-91 | corrected, the same call returns no route |
| Achados.CaminhoCompletoComoEscrito | backend/grafo_algoritmos.c:161-165 | as written, on the 2-vertex graph 0 → 1 `calcular_rota(0, 1)` returns no route |
| Achados.CaminhoCompletoCorrigido | backend/grafo_algoritmos.c:161-165 | corrected, it returns the route [0, 1] of length 5 |
| Achados.ReconstruirDiverge | backend/grafo_algoritmos.c:153-165 | the two reconstructions agree on chains shorter than `num_vertices`; the code as written refuses every full chain, even one that ends at -1, which the corrected code accepts |

## Findings

| source | as written | input that shows it | evidently intended | confidence | as-written member | corrected member |
|---|---|---|---|---|---|---|
| backend/grafo_data.c:192 | `ARESTAS_STATIC_COUNT` is 152, and `inicializar_arestas` loops up to that count over a table of 135 entries | the shipped tables: `obter_arestas_static` reports 152 for 135 entries, so entries 135..151 are read past the end | the count is the number of entries, 135 | not executed | GrafoDb.InicializarArestasLeAlemDaTabela | GrafoDb.InicializarArestas |
| backend/grafo_algoritmos.c:81 | `distancias[u] + aresta->distancia` is evaluated even when `distancias[u]` is INT_MAX; it overflows and wraps to a negative value | vertices 0, 1, 2 with one edge 2 → 1 of length 1; `calcular_rota(0, 1)` returns the route [2, 1] of length INT_MIN. On the shipped graph, `calcular_rota(67, 20)` returns the route [119, 20] of length INT_MIN + 109 | the edges of an unreached vertex are not relaxed, and unreachable destinations give no route | not executed | Achados.EstouroComoEscrito | RotaCorreta.CalcularRotaCorreta |
| backend/grafo_algoritmos.c:161 | `num_ids >= g->num_vertices` rejects a chain that collected all n vertices, even though it ended at -1 | vertices 0, 1 with one edge 0 → 1 of length 5; `calcular_rota(0, 1)` returns NULL | reject only when the walk did not reach a vertex without a predecessor | not executed | Achados.CaminhoCompletoComoEscrito | RotaCorreta.ReconstruirCorreto |

The corrected members of the second and third rows are selected with
`corrigido = true`. That flag changes two things in Dijkstra and the
reconstruction. It adds the guard `distancias[u] != INT_MAX` before the
addition, and it replaces `num_ids >= num_vertices` with the test
`current != -1`. The flag does not change the edge load. With either value,
the graph is loaded with the corrected bound of the first row.
The shortest-route theorem is proved for the corrected code:
`RotaCorreta.CalcularRotaCorreta`, and `RotaEstatica.CalcularRotaCarregada` for
the shipped graph. The code as written returns the same route whenever that
route has fewer ids than there are vertices
(`RotaComoEscrita.CalcularRotaComoEscrita`). On the shipped graph that holds
for every reachable pair, because vertices 67 and 86 have no outgoing edge and
a predecessor chain cannot pass through either. So there `calcular_rota` as
written also returns a shortest route
(`RotaComoEscrita.CalcularRotaCarregadaComoEscrita`).
A run from vertex 67 or 86 still reaches the overflow of the second row: its
second turn picks vertex 119 at INT_MAX (`RotaComoEscrita.BecosComoEscritos`),
and the code as written then relaxes the edge {119, 20, 110}. Vertex 20
gets the wrapped distance INT_MIN + 109, with 119 as its predecessor. So, as
written, `calcular_rota(67, 20)` and `calcular_rota(86, 20)` return the route
[119, 20] of length INT_MIN + 109. That route starts at vertex 119, not at the
origin, and has a negative length
(`RotaComoEscrita.RotaDosBecosCarregada`). Routes from 67 or 86 to the
vertices reached from 20 go the same way. The corrected code returns NULL for
every route from 67 or 86: `RotaEstatica.SemRotaDeBecos` is about the
corrected code.

## Left out

- Allocation failures are not modelled. Every `malloc` and `realloc` is taken to succeed, so the branches that return NULL or 0 after a failed allocation are absent.
- Deallocation is not modelled, because Dafny has no explicit deallocation. This covers `destruir_grafo`, the `free` calls, and `liberar_resultado`, which only releases a result (and does nothing for NULL). A result is a value, so nothing remains to release.
- All `printf` tracing is left out, because it carries no semantics.
- `obter_mensagem_teste`, `get_test_message` and the console `main` of `backend/main.c` are left out: they are a constant string and a driver.
- The contents of edge entries 135..151, which the code as written reads beyond the table, are not modelled, because they are undefined. `GrafoDb.InicializarArestasLeAlemDaTabela` records only the violated bound.
- The second, 5-field `ResultadoRota` in `backend/grafo.h:32-38` conflicts with the 3-field one in `backend/grafo_algoritmos.h:8-12`. The model uses the 3-field record, which is the one `calcular_rota` fills.
- `encontrar_indice_vertice` is `static` in `backend/grafo.c` but is also called from `backend/grafo_algoritmos.c`. Both uses are modelled by the single lookup `Grafos.EncontrarIndiceVertice`.
- `get_ponto_info` is modelled with its C signature of six parameters. The Python caller declares it differently; that binding layer is not part of this model.
- Linked-list nodes are not modelled as objects. Each adjacency list is the sequence of its nodes, so node identity and the sharing of nodes between lists are not represented.
- CTypes.Wrap32: signed overflow is undefined in C. The model assumes the two's-complement wrap-around the usual targets produce.
- GrafoDb.CarregarGrafo, Exportadas.CalcularRota: the code as written loads 152 edges from a table of 135, and what it reads past entry 134 is undefined. Both calls therefore load the 135 table entries, with the corrected bound, and both values of `corrigido` are modelled on that load. The out-of-bounds load is recorded only by `GrafoDb.InicializarArestasLeAlemDaTabela`.
- Exportadas.CalcularRota: the C function checks for equal or negative ids before it builds the graph, while the model builds the graph first. The difference is not observable, because building the graph has no effect outside the call.
- Exportadas.InfoVerticeEm: requires the name and category buffers to be distinct arrays. When they alias, the C category copy overwrites the name, and that case is not modelled. Overlapping `x_out` and `y_out` are modelled: y is written last.
- Exportadas.ObterInfoVertice: the same distinct-buffers requirement as `InfoVerticeEm`.
- Pontos.PontoInfoNoGrafo: requires the name and category buffers to be distinct arrays, for the same reason.
- Pontos.PontoInfoEm: the same distinct-buffers requirement.
- Pontos.GetPontoInfo: the same distinct-buffers requirement.
- RotaCorreta.CalcularRotaCorreta: the shortest-route theorem assumes edge lengths in 1..W with (n + 1)·W below INT_MAX. `RotaEstatica.ValidasLimitadas` shows that the shipped graph meets this with W = 154.
- Dijkstra.Passo, Dijkstra.Iterar, Dijkstra.Executar and Dijkstra.Relaxar only promise well-formed arrays. What they compute is stated by the lemmas about them: `ExecutarVisitaTodos`, `RelaxarSoMelhora`, the `DijkstraCorreto` and `RotaCorreta` lemmas for the corrected code, and the `RotaComoEscrita` lemmas for the code as written.
