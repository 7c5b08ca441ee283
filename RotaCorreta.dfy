/**
 * What the corrected `calcular_rota` returns: a route exactly when the
 * destination can be reached from the origin, and then a walk of least
 * length whose ids run from the origin's to the destination's.
 */
module RotaCorreta {
  import opened CTypes
  import opened Grafos
  import opened Dijkstra
  import opened Caminhos
  import opened DijkstraCorreto

  /** The state the corrected `executar_dijkstra` returns has finished. */
  lemma ExecutarTerminado(vs: seq<Vertice>, listas: seq<seq<Aresta>>, w: int, o: int)
    requires Limitado(vs, listas, w) && 0 <= o < |vs|
    ensures Terminado(vs, listas, w, o, Executar(vs, listas, o, true))
  {
    ExecutarInv(vs, listas, w, o);
  }

  /** Every distance returned is a lower bound on the length of the walks
      from the origin that end there, and it is finite exactly when some
      walk ends there. */
  lemma DistanciasMinimas(vs: seq<Vertice>, listas: seq<seq<Aresta>>, w: int, o: int)
    requires Limitado(vs, listas, w) && 0 <= o < |vs|
    ensures var e := Executar(vs, listas, o, true);
            forall ls | Trilha(vs, listas, o, ls) && Chegada(vs, listas, o, ls) != -1 ::
              e.dist[Chegada(vs, listas, o, ls)] <= Custo(listas, ls)
    ensures var e := Executar(vs, listas, o, true);
            forall d | 0 <= d < |vs| :: e.dist[d] != INT_MAX <==> Alcanca(vs, listas, o, d)
  {
    var e := Executar(vs, listas, o, true);
    ExecutarTerminado(vs, listas, w, o);
    forall ls | Trilha(vs, listas, o, ls) && Chegada(vs, listas, o, ls) != -1
      ensures e.dist[Chegada(vs, listas, o, ls)] <= Custo(listas, ls)
    {
      LimiteInferior(vs, listas, w, o, e, ls);
    }
    forall d | 0 <= d < |vs| ensures e.dist[d] != INT_MAX <==> Alcanca(vs, listas, o, d) {
      if e.dist[d] != INT_MAX {
        InvarianteArvore(vs, listas, w, o, e);
        AbaixoProprio(e.dist, d);
        CadeiaTrilha(vs, listas, o, e, d, |vs|);
      }
      if Alcanca(vs, listas, o, d) {
        var ls :| Trilha(vs, listas, o, ls) && Chegada(vs, listas, o, ls) == d;
        AlcancadoFinito(vs, listas, w, o, e, ls);
      }
    }
  }

  /** The corrected `reconstruir_caminho`, run on what the corrected
      `executar_dijkstra` returns, yields a route exactly when the
      destination is reachable; the route lists the ids along a walk from
      the origin to the destination whose length is the route's distance,
      and no walk to the destination is shorter. */
  lemma ReconstruirCorreto(vs: seq<Vertice>, listas: seq<seq<Aresta>>, w: int, o: int, d: int)
    requires Limitado(vs, listas, w) && 0 <= o < |vs| && 0 <= d < |vs|
    ensures var r := ReconstruirCaminho(vs, Executar(vs, listas, o, true), d, true);
            r.Some? <==> Alcanca(vs, listas, o, d)
    ensures var r := ReconstruirCaminho(vs, Executar(vs, listas, o, true), d, true);
            r.Some? ==> exists ls :: && Trilha(vs, listas, o, ls) && Chegada(vs, listas, o, ls) == d
                                     && Custo(listas, ls) == r.value.distanciaTotal
                                     && r.value.sequenciaIds == IdsDe(vs, Pontos(vs, listas, o, ls))
    ensures var r := ReconstruirCaminho(vs, Executar(vs, listas, o, true), d, true);
            r.Some? ==> forall ls | Trilha(vs, listas, o, ls) && Chegada(vs, listas, o, ls) == d ::
                          r.value.distanciaTotal <= Custo(listas, ls)
  {
    var e := Executar(vs, listas, o, true);
    DistanciasMinimas(vs, listas, w, o);
    if e.dist[d] != INT_MAX {
      ExecutarTerminado(vs, listas, w, o);
      InvarianteArvore(vs, listas, w, o, e);
      AbaixoProprio(e.dist, d);
      CadeiaTermina(vs, listas, o, e, d, |vs|);
      var ls := TrilhaDaCadeia(vs, listas, o, e, d, |vs|);
      var c := Cadeia(e.ant, d, |vs|).0;
      IdsReverso(vs, c);
      assert ReconstruirCaminho(vs, e, d, true) == Some(Rota(Reverso(IdsDe(vs, c)), |c|, e.dist[d]));
    }
  }

  /** The corrected `calcular_rota`: a route exactly when the ids differ, are
      not negative, name vertices, and the destination is reachable from the
      origin; the route is then a shortest walk between them. */
  lemma CalcularRotaCorreta(vs: seq<Vertice>, listas: seq<seq<Aresta>>, w: int, a: int, b: int)
    requires Limitado(vs, listas, w)
    ensures var r := CalcularRota(vs, listas, a, b, true);
            var o := IndiceDe(vs, a);
            var d := IndiceDe(vs, b);
            r.Some? <==> a != b && 0 <= a && 0 <= b && o != -1 && d != -1 && Alcanca(vs, listas, o, d)
    ensures var r := CalcularRota(vs, listas, a, b, true);
            var o := IndiceDe(vs, a);
            var d := IndiceDe(vs, b);
            r.Some? ==> && (exists ls :: && Trilha(vs, listas, o, ls) && Chegada(vs, listas, o, ls) == d
                                         && Custo(listas, ls) == r.value.distanciaTotal
                                         && r.value.sequenciaIds == IdsDe(vs, Pontos(vs, listas, o, ls)))
                        && (forall ls | Trilha(vs, listas, o, ls) && Chegada(vs, listas, o, ls) == d ::
                              r.value.distanciaTotal <= Custo(listas, ls))
  {
    var o := IndiceDe(vs, a);
    var d := IndiceDe(vs, b);
    if a != b && 0 <= a && 0 <= b && o != -1 && d != -1 {
      ReconstruirCorreto(vs, listas, w, o, d);
    }
  }
}
