/**
 * Small graphs on which `calcular_rota` as written and as corrected part
 * ways, worked through turn by turn.
 */
module Achados {
  import opened CTypes
  import opened Grafos
  import opened Dijkstra
  import opened Caminhos

  /** A vertex with id `id` and empty strings. */
  function Ponto(id: int): Vertice {
    Vertice(id, [], [], [], 0, 0, 0)
  }

  // Relaxing from an unreached vertex

  /** Vertices 0, 1 and 2; one edge, of length 1, from 2 to 1. */
  function TresPontos(): seq<Vertice> { [Ponto(0), Ponto(1), Ponto(2)] }
  function UmaAresta(): seq<seq<Aresta>> { [[], [], [Aresta(1, 1)]] }

  lemma EstouroTurno1(corrigido: bool)
    ensures Inicial(3, 0) == Estado([0, INT_MAX, INT_MAX], [-1, -1, -1], [false, false, false])
    ensures Passo(TresPontos(), UmaAresta(), Inicial(3, 0), corrigido)
            == Estado([0, INT_MAX, INT_MAX], [-1, -1, -1], [true, false, false])
  {
    var e0 := Inicial(3, 0);
    assert e0 == Estado([0, INT_MAX, INT_MAX], [-1, -1, -1], [false, false, false]);
    assert MenorDistancia(e0.dist, e0.vis) == 0;
  }

  /** On the second turn the scan picks the unreached vertex 2, the last of
      the equal INT_MAX distances. As written, `INT_MAX + 1` wraps around to
      INT_MIN and vertex 1 gets that distance with predecessor 2. */
  lemma EstouroTurno2()
    ensures Passo(TresPontos(), UmaAresta(), Estado([0, INT_MAX, INT_MAX], [-1, -1, -1], [true, false, false]), false)
            == Estado([0, INT_MIN, INT_MAX], [-1, 2, -1], [true, false, true])
  {
    var e1 := Estado([0, INT_MAX, INT_MAX], [-1, -1, -1], [true, false, false]);
    assert MenorDistancia(e1.dist, e1.vis) == 2;
    assert Alvo(TresPontos(), Aresta(1, 1)) == 1;
    assert Wrap32(INT_MAX + 1) == INT_MIN;
  }

  lemma EstouroTurno3()
    ensures Passo(TresPontos(), UmaAresta(), Estado([0, INT_MIN, INT_MAX], [-1, 2, -1], [true, false, true]), false)
            == Estado([0, INT_MIN, INT_MAX], [-1, 2, -1], [true, true, true])
  {
    var e2 := Estado([0, INT_MIN, INT_MAX], [-1, 2, -1], [true, false, true]);
    assert Escolha(e2.dist, e2.vis, 1) == (-1, INT_MAX);
    assert Escolha(e2.dist, e2.vis, 2) == (1, INT_MIN);
    assert MenorDistancia(e2.dist, e2.vis) == 1;
  }

  /** As written, vertex 1, which no walk from 0 reaches, ends with distance
      INT_MIN and predecessor 2. */
  lemma EstouroExecutar()
    ensures Executar(TresPontos(), UmaAresta(), 0, false)
            == Estado([0, INT_MIN, INT_MAX], [-1, 2, -1], [true, true, true])
  {
    EstouroTurno1(false);
    EstouroTurno2();
    EstouroTurno3();
  }

  /** From vertex 1 the predecessors lead to 2 and then to -1. */
  lemma CadeiaEstouro()
    ensures Cadeia([-1, 2, -1], 1, 3) == ([1, 2], -1)
  {
    var ant := [-1, 2, -1];
    var r0 := Cadeia(ant, -1, 1);
    assert r0 == ([], -1);
    CadeiaPasso(ant, 2, 2);
    assert ant[2] == -1;
    var r1 := Cadeia(ant, 2, 2);
    assert r1 == ([2] + r0.0, r0.1);
    assert [2] + r0.0 == [2];
    CadeiaPasso(ant, 1, 3);
    assert ant[1] == 2;
    assert Cadeia(ant, 1, 3) == ([1] + r1.0, r1.1);
    assert [1] + r1.0 == [1, 2];
  }

  /** ... so `calcular_rota(0, 1)` as written returns the route 2, 1 of
      length INT_MIN: it does not start at the origin, its length is
      negative, and 1 cannot be reached from 0 at all. */
  lemma EstouroComoEscrito()
    ensures CalcularRota(TresPontos(), UmaAresta(), 0, 1, false) == Some(Rota([2, 1], 2, INT_MIN))
  {
    var vs := TresPontos();
    EstouroExecutar();
    CadeiaEstouro();
    assert IdsDe(vs, [1, 2]) == [1, 2];
    assert Reverso([1, 2]) == [2, 1];
  }

  /** The corrected code skips the edges of the unreached vertex 2 ... */
  lemma EstouroCorrigidoTurnos()
    ensures Executar(TresPontos(), UmaAresta(), 0, true)
            == Estado([0, INT_MAX, INT_MAX], [-1, -1, -1], [true, true, true])
  {
    var vs := TresPontos();
    var listas := UmaAresta();
    EstouroTurno1(true);
    var e1 := Estado([0, INT_MAX, INT_MAX], [-1, -1, -1], [true, false, false]);
    assert MenorDistancia(e1.dist, e1.vis) == 2;
    var e2 := Estado([0, INT_MAX, INT_MAX], [-1, -1, -1], [true, false, true]);
    assert Passo(vs, listas, e1, true) == e2;
    assert MenorDistancia(e2.dist, e2.vis) == 1;
    assert Passo(vs, listas, e2, true) == Estado([0, INT_MAX, INT_MAX], [-1, -1, -1], [true, true, true]);
  }

  /** ... and reports that there is no route. */
  lemma EstouroCorrigido()
    ensures CalcularRota(TresPontos(), UmaAresta(), 0, 1, true) == None
  {
    EstouroCorrigidoTurnos();
  }

  // A route through every vertex

  /** Vertices 0 and 1; one edge, of length 5, from 0 to 1. */
  function DoisPontos(): seq<Vertice> { [Ponto(0), Ponto(1)] }
  function ArestaDe0a1(): seq<seq<Aresta>> { [[Aresta(1, 5)], []] }

  /** Both variants compute distance 5 for vertex 1, reached from 0. */
  lemma DoisPontosExecutar(corrigido: bool)
    ensures Executar(DoisPontos(), ArestaDe0a1(), 0, corrigido)
            == Estado([0, 5], [-1, 0], [true, true])
  {
    var vs := DoisPontos();
    var listas := ArestaDe0a1();
    var e0 := Inicial(2, 0);
    assert e0 == Estado([0, INT_MAX], [-1, -1], [false, false]);
    assert MenorDistancia(e0.dist, e0.vis) == 0;
    assert Alvo(vs, Aresta(1, 5)) == 1;
    var e1 := Passo(vs, listas, e0, corrigido);
    assert e1 == Estado([0, 5], [-1, 0], [true, false]);
    assert MenorDistancia(e1.dist, e1.vis) == 1;
    var e2 := Passo(vs, listas, e1, corrigido);
    assert e2 == Estado([0, 5], [-1, 0], [true, true]);
  }

  /** From vertex 1 the predecessors lead to 0 and then to -1. */
  lemma CadeiaDoisPontos()
    ensures Cadeia([-1, 0], 1, 2) == ([1, 0], -1)
  {
    var ant := [-1, 0];
    var r0 := Cadeia(ant, -1, 0);
    assert r0 == ([], -1);
    CadeiaPasso(ant, 0, 1);
    assert ant[0] == -1;
    var r1 := Cadeia(ant, 0, 1);
    assert r1 == ([0] + r0.0, r0.1);
    assert [0] + r0.0 == [0];
    CadeiaPasso(ant, 1, 2);
    assert ant[1] == 0;
    assert Cadeia(ant, 1, 2) == ([1] + r1.0, r1.1);
    assert [1] + r1.0 == [1, 0];
  }

  /** As written, `reconstruir_caminho` collects both ids, finds
      `num_ids >= num_vertices` and gives up: `calcular_rota(0, 1)` returns
      no route although 0 -> 1 is an edge. */
  lemma CaminhoCompletoComoEscrito()
    ensures CalcularRota(DoisPontos(), ArestaDe0a1(), 0, 1, false) == None
  {
    DoisPontosExecutar(false);
    CadeiaDoisPontos();
  }

  /** Corrected, the same call returns the route 0, 1 of length 5. */
  lemma CaminhoCompletoCorrigido()
    ensures CalcularRota(DoisPontos(), ArestaDe0a1(), 0, 1, true) == Some(Rota([0, 1], 2, 5))
  {
    var vs := DoisPontos();
    DoisPontosExecutar(true);
    CadeiaDoisPontos();
    assert IdsDe(vs, [1, 0]) == [1, 0];
    assert Reverso([1, 0]) == [0, 1];
  }

  /** In general the two reconstructions differ only on chains that hold
      every vertex: as written those are refused even when they end at -1. */
  lemma ReconstruirDiverge(vs: seq<Vertice>, e: Estado, d: int)
    requires Bem(e, |vs|) && 0 <= d < |vs| && e.dist[d] != INT_MAX
    ensures var (c, f) := Cadeia(e.ant, d, |vs|);
            && (|c| < |vs| ==> ReconstruirCaminho(vs, e, d, false) == ReconstruirCaminho(vs, e, d, true))
            && (|c| == |vs| ==> ReconstruirCaminho(vs, e, d, false).None?)
            && (|c| == |vs| && f == -1 ==> ReconstruirCaminho(vs, e, d, true).Some?)
  {
  }
}
