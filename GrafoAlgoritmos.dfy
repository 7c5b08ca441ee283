/**
 * The routines of backend/grafo_algoritmos.c as the C code runs them: loops
 * over arrays that are allocated, filled and updated in place. Each is proved
 * to compute the function of the Dijkstra and Caminhos modules that states
 * what it means.
 */
module GrafoAlgoritmos {
  import opened CTypes
  import opened Grafos
  import opened Dijkstra
  import Caminhos

  /** `encontrar_menor_distancia`: the running-minimum scan with `<=`. */
  method EncontrarMenorDistancia(distancias: array<int>, visitados: array<bool>, numVertices: int)
    returns (r: int)
    requires numVertices == distancias.Length == visitados.Length
    requires forall i | 0 <= i < numVertices :: distancias[i] <= INT_MAX
    ensures r == MenorDistancia(distancias[..], visitados[..])
  {
    var menorDistancia := INT_MAX;
    var indiceMenor := -1;
    var i := 0;
    while i < numVertices
      invariant 0 <= i <= numVertices
      invariant (indiceMenor, menorDistancia) == Escolha(distancias[..], visitados[..], i)
    {
      if !visitados[i] && distancias[i] <= menorDistancia {
        menorDistancia := distancias[i];
        indiceMenor := i;
      }
      i := i + 1;
    }
    return indiceMenor;
  }

  /** The three arrays of `executar_dijkstra` as one value. */
  function EstadoDe(distancias: array<int>, anteriores: array<int>, visitados: array<bool>): Estado
    reads distancias, anteriores, visitados
  {
    Estado(distancias[..], anteriores[..], visitados[..])
  }

  /**
   * `executar_dijkstra(g, indice_origem, ...)`: fails for an origin outside
   * the graph; otherwise fills `distancias` and `anteriores` with what
   * `num_vertices` turns of the main loop leave in them. The list of each
   * visited vertex is walked from its head; `corrigido` selects the guard
   * `distancias[u] != INT_MAX` before the addition.
   */
  method ExecutarDijkstra(g: Grafo, indiceOrigem: int, corrigido: bool)
    returns (ok: bool, distancias: array<int>, anteriores: array<int>)
    requires g.Valid()
    ensures ok <==> 0 <= indiceOrigem < g.numVertices
    ensures fresh(distancias) && fresh(anteriores)
    ensures ok ==> distancias[..] == Executar(g.vertices, g.listaAdj, indiceOrigem, corrigido).dist
    ensures ok ==> anteriores[..] == Executar(g.vertices, g.listaAdj, indiceOrigem, corrigido).ant
  {
    if indiceOrigem < 0 || indiceOrigem >= g.numVertices {
      return false, new int[0], new int[0];
    }
    ok := true;
    var n := g.numVertices;
    distancias := new int[n];
    anteriores := new int[n];
    var visitados := new bool[n];

    var i := 0;
    while i < n
      invariant 0 <= i <= n
      invariant forall k | 0 <= k < i :: distancias[k] == INT_MAX && anteriores[k] == -1 && !visitados[k]
    {
      distancias[i] := INT_MAX;
      anteriores[i] := -1;
      visitados[i] := false;
      i := i + 1;
    }
    distancias[indiceOrigem] := 0;
    assert EstadoDe(distancias, anteriores, visitados) == Inicial(n, indiceOrigem);
    LacoPrincipal(g, distancias, anteriores, visitados, Executar(g.vertices, g.listaAdj, indiceOrigem, corrigido), corrigido);
  }

  /** The main loop of `executar_dijkstra`: `num_vertices` turns, each
      picking the nearest unvisited vertex, marking it and relaxing its
      list, with a `break` when the scan finds nothing. */
  method LacoPrincipal(g: Grafo, distancias: array<int>, anteriores: array<int>, visitados: array<bool>,
                       ghost fim: Estado, corrigido: bool)
    requires g.Valid() && Bem(EstadoDe(distancias, anteriores, visitados), g.numVertices)
    requires distancias != anteriores
    requires Iterar(g.vertices, g.listaAdj, EstadoDe(distancias, anteriores, visitados), g.numVertices, corrigido) == fim
    modifies distancias, anteriores, visitados
    ensures EstadoDe(distancias, anteriores, visitados) == fim
  {
    var n := g.numVertices;
    ghost var vs := g.vertices;
    ghost var listas := g.listaAdj;
    ghost var cur := EstadoDe(distancias, anteriores, visitados);
    ghost var resta: nat := n;
    var count := 0;
    while count < n
      invariant 0 <= count <= n && resta == n - count
      invariant EstadoDe(distancias, anteriores, visitados) == cur && Bem(cur, n)
      invariant Iterar(vs, listas, cur, resta, corrigido) == fim
    {
      var parou := Turno(g, distancias, anteriores, visitados, corrigido);
      if parou {
        IterarParado(vs, listas, cur, resta, corrigido);
        break;
      }
      IterarUmPasso(vs, listas, cur, resta, corrigido);
      cur := Passo(vs, listas, cur, corrigido);
      resta := resta - 1;
      count := count + 1;
    }
  }

  /** The body of the main loop of `executar_dijkstra`: the scan picks `u`;
      when it finds nothing the loop is to stop (`parou`) and nothing
      changes; otherwise `u` is marked visited and its list relaxed. */
  method Turno(g: Grafo, distancias: array<int>, anteriores: array<int>, visitados: array<bool>, corrigido: bool)
    returns (parou: bool)
    requires g.Valid() && Bem(EstadoDe(distancias, anteriores, visitados), g.numVertices)
    requires distancias != anteriores
    modifies distancias, anteriores, visitados
    ensures parou <==> MenorDistancia(old(distancias[..]), old(visitados[..])) == -1
    ensures EstadoDe(distancias, anteriores, visitados)
            == Passo(g.vertices, g.listaAdj, old(EstadoDe(distancias, anteriores, visitados)), corrigido)
  {
    ghost var e := EstadoDe(distancias, anteriores, visitados);
    var u := EncontrarMenorDistancia(distancias, visitados, g.numVertices);
    if u == -1 {
      return true;
    }
    visitados[u] := true;
    assert EstadoDe(distancias, anteriores, visitados) == e.(vis := e.vis[u := true]);
    RelaxarLista(g, distancias, anteriores, visitados, u, corrigido);
    return false;
  }

  /** The inner `while (aresta != NULL)` loop of `executar_dijkstra`: the
      list of `u` from its head, each entry relaxed in turn. */
  method RelaxarLista(g: Grafo, distancias: array<int>, anteriores: array<int>, visitados: array<bool>,
                      u: int, corrigido: bool)
    requires g.Valid() && 0 <= u < g.numVertices
    requires distancias != anteriores
    requires Bem(EstadoDe(distancias, anteriores, visitados), g.numVertices)
    modifies distancias, anteriores
    ensures EstadoDe(distancias, anteriores, visitados)
            == Relaxar(g.vertices, old(EstadoDe(distancias, anteriores, visitados)), u, g.listaAdj[u], corrigido)
  {
    ghost var vs := g.vertices;
    ghost var fim := Relaxar(vs, EstadoDe(distancias, anteriores, visitados), u, g.listaAdj[u], corrigido);
    var lista := g.listaAdj[u];
    var j := 0;
    while j < |lista|
      invariant 0 <= j <= |lista|
      invariant Bem(EstadoDe(distancias, anteriores, visitados), |vs|)
      invariant Relaxar(vs, EstadoDe(distancias, anteriores, visitados), u, lista[j..], corrigido) == fim
    {
      ghost var resto := lista[j..];
      ghost var e := EstadoDe(distancias, anteriores, visitados);
      RelaxarEntrada(g, distancias, anteriores, visitados, u, lista[j], corrigido);
      assert resto[1..] == lista[j + 1..];
      j := j + 1;
    }
  }

  /** One turn of that loop: the entry is looked up, and when its destination
      is unvisited and the new distance is smaller, the destination gets it
      and `u` as its predecessor. */
  method RelaxarEntrada(g: Grafo, distancias: array<int>, anteriores: array<int>, visitados: array<bool>,
                        u: int, aresta: Aresta, corrigido: bool)
    requires g.Valid() && 0 <= u < g.numVertices
    requires distancias != anteriores
    requires Bem(EstadoDe(distancias, anteriores, visitados), g.numVertices)
    modifies distancias, anteriores
    ensures EstadoDe(distancias, anteriores, visitados)
            == RelaxarAresta(g.vertices, old(EstadoDe(distancias, anteriores, visitados)), u, aresta, corrigido)
  {
    var v := EncontrarIndiceVertice(g, aresta.destinoId);
    if v != -1 && !visitados[v] && (!corrigido || distancias[u] != INT_MAX) {
      var novaDistancia := Wrap32(distancias[u] + aresta.distancia);
      if novaDistancia < distancias[v] {
        distancias[v] := novaDistancia;
        anteriores[v] := u;
      }
    }
  }

  /**
   * `reconstruir_caminho(g, distancias, anteriores, indice_origem,
   * indice_destino)`: follows `anteriores` from the destination into
   * `caminho_temp` for at most `num_vertices` steps, then copies the ids
   * collected back to front into `sequencia_ids`. `e` is the state whose
   * `dist` and `ant` the arrays hold; the origin index is not used.
   */
  method ReconstruirCaminho(g: Grafo, distancias: array<int>, anteriores: array<int>,
                            indiceOrigem: int, indiceDestino: int, corrigido: bool, ghost e: Estado)
    returns (r: Option<Caminhos.Rota>)
    requires g.Valid() && Bem(e, g.numVertices)
    requires distancias[..] == e.dist && anteriores[..] == e.ant
    requires 0 <= indiceDestino < g.numVertices
    ensures r == Caminhos.ReconstruirCaminho(g.vertices, e, indiceDestino, corrigido)
  {
    var n := g.numVertices;
    if distancias[indiceDestino] == INT_MAX {
      return None;
    }
    var caminhoTemp, numIds, current, ps := SeguirAnteriores(g, anteriores, indiceDestino, e.ant);
    if (corrigido && current != -1) || (!corrigido && numIds >= n) {
      return None;
    }
    var sequenciaIds := Inverter(caminhoTemp, numIds);
    return Some(Caminhos.Rota(sequenciaIds[..], numIds, distancias[indiceDestino]));
  }

  /** The `while (current != -1 && num_ids < num_vertices)` loop of
      `reconstruir_caminho`: `caminho_temp` receives the ids of the positions
      the predecessor chain from `d` visits, and `current` is where it
      stopped. */
  method SeguirAnteriores(g: Grafo, anteriores: array<int>, d: int, ghost ant: seq<int>)
    returns (caminhoTemp: array<int>, numIds: int, current: int, ghost ps: seq<int>)
    requires g.Valid() && anteriores[..] == ant && |ant| == g.numVertices
    requires forall i | 0 <= i < |ant| :: -1 <= ant[i] < |ant|
    requires 0 <= d < g.numVertices
    ensures (ps, current) == Caminhos.Cadeia(ant, d, g.numVertices)
    ensures numIds == |ps| <= caminhoTemp.Length
    ensures caminhoTemp[..numIds] == Caminhos.IdsDe(g.vertices, ps)
  {
    var n := g.numVertices;
    caminhoTemp := new int[n];
    current := d;
    numIds := 0;
    ps := [];
    ghost var restante: nat := n;
    ghost var cadeia := Caminhos.Cadeia(ant, d, n);
    Caminhos.SeguindoInicio(g.vertices, ant, d, n);
    while current != -1 && numIds < n
      invariant 0 <= numIds <= n && restante == n - numIds && |ps| == numIds
      invariant Caminhos.Seguindo(g.vertices, ant, ps, caminhoTemp[..numIds], current, restante, cadeia)
      decreases restante
    {
      Caminhos.SeguindoAvanca(g.vertices, ant, ps, caminhoTemp[..numIds], current, restante, cadeia);
      Anotar(caminhoTemp, numIds, g.vertices[current].id);
      ps := ps + [current];
      numIds := numIds + 1;
      current := anteriores[current];
      restante := restante - 1;
    }
    Caminhos.SeguindoFim(g.vertices, ant, ps, caminhoTemp[..numIds], current, restante, cadeia);
  }

  /** `caminho_temp[num_ids] = id`: the filled prefix grows by `id`. */
  method Anotar(caminhoTemp: array<int>, numIds: int, id: int)
    requires 0 <= numIds < caminhoTemp.Length
    modifies caminhoTemp
    ensures caminhoTemp[..numIds + 1] == old(caminhoTemp[..numIds]) + [id]
  {
    caminhoTemp[numIds] := id;
    assert caminhoTemp[..numIds + 1] == old(caminhoTemp[..numIds]) + [id];
  }

  /** The last loop of `reconstruir_caminho`: `sequencia_ids[i] =
      caminho_temp[num_ids - 1 - i]`. */
  method Inverter(caminhoTemp: array<int>, numIds: int) returns (sequenciaIds: array<int>)
    requires 0 <= numIds <= caminhoTemp.Length
    ensures fresh(sequenciaIds)
    ensures sequenciaIds[..] == Reverso(caminhoTemp[..numIds])
  {
    sequenciaIds := new int[numIds];
    var i := 0;
    while i < numIds
      invariant 0 <= i <= numIds
      invariant forall t | 0 <= t < i :: sequenciaIds[t] == caminhoTemp[numIds - 1 - t]
    {
      sequenciaIds[i] := caminhoTemp[numIds - 1 - i];
      i := i + 1;
    }
  }
}
