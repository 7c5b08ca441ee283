/**
 * The corrected `calcular_rota` on the graph the dataset of
 * backend/grafo_data.c loads: 120 vertices whose ids are their indices and
 * edge lengths in 1..154.
 */
module RotaEstatica {
  import opened CTypes
  import opened Grafos
  import opened Dijkstra
  import opened Caminhos
  import opened DijkstraCorreto
  import opened RotaCorreta
  import opened GrafoDb

  lemma {:induction false} VezesProduto(k: nat, w: int)
    ensures Vezes(k, w) == k * w
    decreases k
  {
    if k > 0 {
      VezesProduto(k - 1, w);
    }
  }

  /** 120 lists of valid entries are within the bounds the correctness proof
      asks for, with W = 154. */
  lemma ValidasLimitadas(vs: seq<Vertice>, listas: seq<seq<Aresta>>)
    requires |vs| == |listas| == 120
    requires forall v, a | 0 <= v < 120 && a in listas[v] :: EntradaValida(a)
    ensures Limitado(vs, listas, 154)
  {
    VezesProduto(121, 154);
    forall u, j | 0 <= u < |listas| && 0 <= j < |listas[u]| ensures 1 <= listas[u][j].distancia <= 154 {
      assert listas[u][j] in listas[u];
      assert EntradaValida(listas[u][j]);
    }
  }

  /** With dense ids the ids of a sequence of positions are the positions. */
  lemma IdsProprios(vs: seq<Vertice>, ps: seq<int>)
    requires IdsDensos(vs) && forall t | 0 <= t < |ps| :: 0 <= ps[t] < |vs|
    ensures IdsDe(vs, ps) == ps
  {
  }

  /** No walk leaves a position whose list is empty. */
  lemma SemSaidaIsolada(vs: seq<Vertice>, listas: seq<seq<Aresta>>, o: int, d: int)
    requires |listas| == |vs| && 0 <= o < |vs| && listas[o] == []
    requires Alcanca(vs, listas, o, d)
    ensures d == o
  {
    var ls: seq<Lance> :| Trilha(vs, listas, o, ls) && Chegada(vs, listas, o, ls) == d;
    if ls != [] {
      assert false;
    }
  }

  /** What the loaded graph is like: 120 vertices whose ids are their
      indices, every entry leading to one of them with a length in 1..154,
      and nothing leaving vertices 67 and 86. */
  predicate ComoCarregado(vs: seq<Vertice>, listas: seq<seq<Aresta>>) {
    && |vs| == 120 && IdsDensos(vs) && |listas| == 120
    && (forall v, a | 0 <= v < 120 && a in listas[v] :: EntradaValida(a))
    && listas[67] == [] && listas[86] == []
  }

  /** The graph `inicializar_vertices` and `inicializar_arestas` build is
      like that. */
  lemma CarregadoComoCarregado()
    ensures ComoCarregado(VerticesCarregados(), ListasCarregadas())
  {
    VerticesCarregadosDensos();
    ListasCarregadasValidas();
    ListasCarregadasSemSaida();
  }

  /** `calcular_rota(a, b)`, corrected, on such a graph: a route exactly
      when a and b are distinct ids in 0..119 and b is reachable from a; its
      ids are the vertices of a walk from a to b whose length is the route's
      distance, and no walk from a to b is shorter. */
  lemma CalcularRotaCarregada(vs: seq<Vertice>, listas: seq<seq<Aresta>>, a: int, b: int)
    requires ComoCarregado(vs, listas)
    ensures var r := CalcularRota(vs, listas, a, b, true);
            r.Some? <==> a != b && 0 <= a < 120 && 0 <= b < 120 && Alcanca(vs, listas, a, b)
    ensures var r := CalcularRota(vs, listas, a, b, true);
            r.Some? ==> exists ls :: && Trilha(vs, listas, a, ls) && Chegada(vs, listas, a, ls) == b
                                     && Custo(listas, ls) == r.value.distanciaTotal
                                     && r.value.sequenciaIds == Pontos(vs, listas, a, ls)
    ensures var r := CalcularRota(vs, listas, a, b, true);
            r.Some? ==> forall ls | Trilha(vs, listas, a, ls) && Chegada(vs, listas, a, ls) == b ::
                          r.value.distanciaTotal <= Custo(listas, ls)
  {
    IndiceDenso(vs, a);
    IndiceDenso(vs, b);
    ValidasLimitadas(vs, listas);
    CalcularRotaCorreta(vs, listas, 154, a, b);
    var r := CalcularRota(vs, listas, a, b, true);
    if r.Some? {
      var ls :| && Trilha(vs, listas, a, ls) && Chegada(vs, listas, a, ls) == b
                && Custo(listas, ls) == r.value.distanciaTotal
                && r.value.sequenciaIds == IdsDe(vs, Pontos(vs, listas, a, ls));
      IdsProprios(vs, Pontos(vs, listas, a, ls));
    }
  }

  /** Vertices 67 and 86 have no outgoing edges, so the corrected
      `calcular_rota` finds no route from either of them. */
  lemma SemRotaDeBecos(vs: seq<Vertice>, listas: seq<seq<Aresta>>, b: int)
    requires ComoCarregado(vs, listas)
    ensures CalcularRota(vs, listas, 67, b, true).None?
    ensures CalcularRota(vs, listas, 86, b, true).None?
  {
    CalcularRotaCarregada(vs, listas, 67, b);
    CalcularRotaCarregada(vs, listas, 86, b);
    if 0 <= b < 120 && Alcanca(vs, listas, 67, b) {
      SemSaidaIsolada(vs, listas, 67, b);
    }
    if 0 <= b < 120 && Alcanca(vs, listas, 86, b) {
      SemSaidaIsolada(vs, listas, 86, b);
    }
  }
}
