/**
 * `calcular_rota` as written, compared with the corrected code. The two runs
 * of `executar_dijkstra` are equal until the scan first picks a vertex whose
 * distance is still INT_MAX; from then on the corrected run only marks
 * vertices visited and the run as written changes only unvisited ones. So
 * the two agree on every vertex the origin reaches, and the code as written
 * returns the corrected route whenever that route has fewer ids than there
 * are vertices. On the shipped graph every route does.
 */
module RotaComoEscrita {
  import opened CTypes
  import opened Grafos
  import opened Dijkstra
  import opened Caminhos
  import opened DijkstraCorreto
  import opened RotaCorreta
  import opened GrafoDb
  import opened RotaEstatica

  // While the scan picks reached vertices the two runs are equal

  /** Relaxing the list of a visited, reached vertex is the same in both
      variants: the guard of the corrected code holds throughout. */
  lemma {:induction false} RelaxarIgual(vs: seq<Vertice>, e: Estado, u: int, lista: seq<Aresta>)
    requires Bem(e, |vs|) && 0 <= u < |vs| && e.vis[u] && e.dist[u] != INT_MAX
    ensures Relaxar(vs, e, u, lista, false) == Relaxar(vs, e, u, lista, true)
    decreases |lista|
  {
    if lista != [] {
      var e1 := RelaxarAresta(vs, e, u, lista[0], true);
      assert e1 == RelaxarAresta(vs, e, u, lista[0], false);
      if Melhora(vs, e, u, lista[0], true) {
        assert Alvo(vs, lista[0]) != u;
      }
      RelaxarIgual(vs, e1, u, lista[1..]);
    }
  }

  /** A turn whose scan finds nothing, or a reached vertex, is the same in
      both variants. */
  lemma PassoIgual(vs: seq<Vertice>, listas: seq<seq<Aresta>>, e: Estado)
    requires |listas| == |vs| && Bem(e, |vs|)
    requires var u := MenorDistancia(e.dist, e.vis); u == -1 || e.dist[u] != INT_MAX
    ensures Passo(vs, listas, e, false) == Passo(vs, listas, e, true)
  {
    var u := MenorDistancia(e.dist, e.vis);
    if u != -1 {
      RelaxarIgual(vs, e.(vis := e.vis[u := true]), u, listas[u]);
    }
  }

  // Afterwards the runs differ only on vertices the corrected run never reaches

  /** `e1` (the code as written) and `e2` (the corrected code) agree on every
      vertex `e2` has reached, and both have visited it. */
  predicate Concorda(n: int, e1: Estado, e2: Estado)
    requires Bem(e1, n) && Bem(e2, n)
  {
    forall v | 0 <= v < n && e2.dist[v] != INT_MAX ::
      e1.vis[v] && e2.vis[v] && e1.dist[v] == e2.dist[v] && e1.ant[v] == e2.ant[v]
  }

  /** The corrected inner loop leaves the arrays alone when `u` is unreached. */
  lemma {:induction false} RelaxarInerte(vs: seq<Vertice>, e: Estado, u: int, lista: seq<Aresta>)
    requires Bem(e, |vs|) && 0 <= u < |vs| && e.dist[u] == INT_MAX
    ensures Relaxar(vs, e, u, lista, true) == e
    decreases |lista|
  {
    if lista != [] {
      assert RelaxarAresta(vs, e, u, lista[0], true) == e;
      RelaxarInerte(vs, e, u, lista[1..]);
    }
  }

  /** Once every reached vertex is visited, a turn of either variant keeps
      the agreement. */
  lemma PassoConcorda(vs: seq<Vertice>, listas: seq<seq<Aresta>>, e1: Estado, e2: Estado)
    requires |listas| == |vs| && Bem(e1, |vs|) && Bem(e2, |vs|) && Concorda(|vs|, e1, e2)
    ensures Concorda(|vs|, Passo(vs, listas, e1, false), Passo(vs, listas, e2, true))
  {
    var u2 := MenorDistancia(e2.dist, e2.vis);
    if u2 != -1 {
      assert e2.dist[u2] == INT_MAX;
      RelaxarInerte(vs, e2.(vis := e2.vis[u2 := true]), u2, listas[u2]);
    }
    var u1 := MenorDistancia(e1.dist, e1.vis);
    if u1 != -1 {
      RelaxarSoMelhora(vs, e1.(vis := e1.vis[u1 := true]), u1, listas[u1], false);
    }
  }

  /** Turns taken from equal or agreeing states end in equal or agreeing
      states: the first pick of an unreached vertex turns equality into
      agreement, because every reached vertex has been visited by then. */
  lemma {:induction false} IterarConcorda(vs: seq<Vertice>, listas: seq<seq<Aresta>>, e1: Estado, e2: Estado, k: nat)
    requires |listas| == |vs| && Bem(e1, |vs|) && Bem(e2, |vs|)
    requires e1 == e2 || Concorda(|vs|, e1, e2)
    ensures var r1 := Iterar(vs, listas, e1, k, false);
            var r2 := Iterar(vs, listas, e2, k, true);
            r1 == r2 || Concorda(|vs|, r1, r2)
    decreases k
  {
    if k > 0 {
      var u := MenorDistancia(e1.dist, e1.vis);
      if e1 == e2 && (u == -1 || e1.dist[u] != INT_MAX) {
        PassoIgual(vs, listas, e1);
      } else {
        if e1 == e2 {
          forall v | 0 <= v < |vs| && e2.dist[v] != INT_MAX ensures e2.vis[v] {
            if !e2.vis[v] {
              assert false;
            }
          }
        }
        PassoConcorda(vs, listas, e1, e2);
      }
      IterarConcorda(vs, listas, Passo(vs, listas, e1, false), Passo(vs, listas, e2, true), k - 1);
    }
  }

  /** `executar_dijkstra` as written returns the same distance and the same
      predecessor as the corrected code for every vertex the corrected code
      reaches. */
  lemma ExecutarConcorda(vs: seq<Vertice>, listas: seq<seq<Aresta>>, o: int)
    requires |listas| == |vs| && 0 <= o < |vs|
    ensures var e1 := Executar(vs, listas, o, false);
            var e2 := Executar(vs, listas, o, true);
            forall v | 0 <= v < |vs| && e2.dist[v] != INT_MAX :: e1.dist[v] == e2.dist[v] && e1.ant[v] == e2.ant[v]
  {
    IterarConcorda(vs, listas, Inicial(|vs|, o), Inicial(|vs|, o), |vs|);
  }

  // The reconstruction

  /** Predecessor arrays that agree on the reached vertices give the same
      chain from a reached vertex, when the predecessors of reached vertices
      are reached. */
  lemma {:induction false} CadeiaConcorda(a1: seq<int>, a2: seq<int>, dist: seq<int>, o: int, i: int, restante: nat)
    requires |a1| == |a2| == |dist|
    requires forall k | 0 <= k < |a1| :: -1 <= a1[k] < |a1|
    requires forall k | 0 <= k < |a2| :: -1 <= a2[k] < |a2|
    requires Desce(a2, dist, o)
    requires forall k | 0 <= k < |a2| && dist[k] != INT_MAX :: a1[k] == a2[k]
    requires 0 <= i < |a2| && dist[i] != INT_MAX
    ensures Cadeia(a1, i, restante) == Cadeia(a2, i, restante)
    decreases restante
  {
    if restante > 0 {
      CadeiaPasso(a1, i, restante);
      CadeiaPasso(a2, i, restante);
      if a2[i] != -1 {
        CadeiaConcorda(a1, a2, dist, o, a2[i], restante - 1);
      }
    }
  }

  /** For a reachable destination, `reconstruir_caminho` as written, on what
      `executar_dijkstra` as written returns, gives the corrected route when
      that route has fewer than `num_vertices` ids, and no route when it has
      `num_vertices`. */
  lemma ReconstruirComoEscrito(vs: seq<Vertice>, listas: seq<seq<Aresta>>, w: int, o: int, d: int)
    requires Limitado(vs, listas, w) && 0 <= o < |vs| && 0 <= d < |vs| && Alcanca(vs, listas, o, d)
    ensures var r1 := ReconstruirCaminho(vs, Executar(vs, listas, o, false), d, false);
            var r2 := ReconstruirCaminho(vs, Executar(vs, listas, o, true), d, true);
            && r2.Some?
            && (r2.value.numIds < |vs| ==> r1 == r2)
            && (r2.value.numIds == |vs| ==> r1.None?)
  {
    var e1 := Executar(vs, listas, o, false);
    var e2 := Executar(vs, listas, o, true);
    ReconstruirCorreto(vs, listas, w, o, d);
    DistanciasMinimas(vs, listas, w, o);
    assert e2.dist[d] != INT_MAX;
    ExecutarConcorda(vs, listas, o);
    ExecutarTerminado(vs, listas, w, o);
    InvarianteArvore(vs, listas, w, o, e2);
    ArvoreDesce(vs, listas, o, e2);
    CadeiaConcorda(e1.ant, e2.ant, e2.dist, o, d, |vs|);
    AbaixoProprio(e2.dist, d);
    CadeiaTermina(vs, listas, o, e2, d, |vs|);
  }

  /** `calcular_rota` as written returns what the corrected code returns
      whenever the corrected code finds a route of fewer than `num_vertices`
      ids, and no route when it finds one of `num_vertices`; it can differ
      only on unreachable destinations and on such full-length routes. */
  lemma CalcularRotaComoEscrita(vs: seq<Vertice>, listas: seq<seq<Aresta>>, w: int, a: int, b: int)
    requires Limitado(vs, listas, w)
    ensures var r1 := CalcularRota(vs, listas, a, b, false);
            var r2 := CalcularRota(vs, listas, a, b, true);
            && (r2.Some? && r2.value.numIds < |vs| ==> r1 == r2)
            && (r2.Some? && r2.value.numIds == |vs| ==> r1.None?)
  {
    var o := IndiceDe(vs, a);
    var d := IndiceDe(vs, b);
    CalcularRotaCorreta(vs, listas, w, a, b);
    if CalcularRota(vs, listas, a, b, true).Some? {
      ReconstruirComoEscrito(vs, listas, w, o, d);
    }
  }

  // Every chain of the shipped graph is shorter than the number of vertices

  /** Each id of a chain after the first is the predecessor of the one
      before it. */
  lemma {:induction false} CadeiaSegue(ant: seq<int>, i: int, restante: nat)
    requires forall k | 0 <= k < |ant| :: -1 <= ant[k] < |ant|
    requires -1 <= i < |ant|
    ensures var c := Cadeia(ant, i, restante).0;
            forall t | 1 <= t < |c| :: c[t] == ant[c[t - 1]]
    decreases restante
  {
    if i != -1 && restante > 0 {
      CadeiaPasso(ant, i, restante);
      var p := ant[i];
      var c0 := Cadeia(ant, p, restante - 1).0;
      var c := Cadeia(ant, i, restante).0;
      assert c == [i] + c0;
      CadeiaSegue(ant, p, restante - 1);
      forall t | 1 <= t < |c| ensures c[t] == ant[c[t - 1]] {
        if t == 1 {
          assert c[1] == c0[0] == p;
        } else {
          assert c[t] == c0[t - 1] && c[t - 1] == c0[t - 2];
        }
      }
    }
  }

  /** Vertex `k`, when reached and not the origin, has a reached predecessor
      at a strictly smaller distance: `Desce` for one vertex. */
  predicate Cai(ant: seq<int>, dist: seq<int>, k: int)
    requires |ant| == |dist| && (forall j | 0 <= j < |ant| :: -1 <= ant[j] < |ant|)
  {
    0 <= k < |ant| && dist[k] != INT_MAX && ant[k] != -1 ==>
      dist[ant[k]] != INT_MAX && Abaixo(dist, dist[ant[k]]) < Abaixo(dist, dist[k])
  }

  /** The chain from a reached vertex stays on reached vertices, none of them
      farther than the start. */
  lemma {:induction false} CadeiaAlcancada(ant: seq<int>, dist: seq<int>, i: int, restante: nat)
    requires |ant| == |dist| && (forall k | 0 <= k < |ant| :: -1 <= ant[k] < |ant|)
    requires (forall k :: Cai(ant, dist, k)) && 0 <= i < |ant| && dist[i] != INT_MAX
    ensures var c := Cadeia(ant, i, restante).0;
            forall t | 0 <= t < |c| :: dist[c[t]] != INT_MAX && Abaixo(dist, dist[c[t]]) <= Abaixo(dist, dist[i])
    decreases restante
  {
    if restante > 0 {
      CadeiaPasso(ant, i, restante);
      var p := ant[i];
      var c0 := Cadeia(ant, p, restante - 1).0;
      var c := Cadeia(ant, i, restante).0;
      assert c == [i] + c0;
      if p != -1 {
        assert Cai(ant, dist, i);
        CadeiaAlcancada(ant, dist, p, restante - 1);
        forall t | 1 <= t < |c|
          ensures dist[c[t]] != INT_MAX && Abaixo(dist, dist[c[t]]) <= Abaixo(dist, dist[i])
        {
          assert c[t] == c0[t - 1];
        }
      }
    }
  }

  /** Along the chain from a reached vertex the distances strictly fall, so
      no id repeats. */
  lemma {:induction false} CadeiaDecresce(ant: seq<int>, dist: seq<int>, i: int, restante: nat)
    requires |ant| == |dist| && (forall k | 0 <= k < |ant| :: -1 <= ant[k] < |ant|)
    requires (forall k :: Cai(ant, dist, k)) && 0 <= i < |ant| && dist[i] != INT_MAX
    ensures var c := Cadeia(ant, i, restante).0;
            forall t, s | 0 <= t < s < |c| :: Abaixo(dist, dist[c[s]]) < Abaixo(dist, dist[c[t]])
    decreases restante
  {
    if restante > 0 {
      CadeiaPasso(ant, i, restante);
      var p := ant[i];
      var c0 := Cadeia(ant, p, restante - 1).0;
      var c := Cadeia(ant, i, restante).0;
      assert c == [i] + c0;
      if p != -1 {
        assert Cai(ant, dist, i);
        CadeiaDecresce(ant, dist, p, restante - 1);
        CadeiaAlcancada(ant, dist, p, restante - 1);
        forall t, s | 0 <= t < s < |c| ensures Abaixo(dist, dist[c[s]]) < Abaixo(dist, dist[c[t]]) {
          assert c[s] == c0[s - 1];
          if t == 0 {
            assert Abaixo(dist, dist[c0[s - 1]]) <= Abaixo(dist, dist[p]);
          } else {
            assert c[t] == c0[t - 1];
            assert Abaixo(dist, dist[c0[s - 1]]) < Abaixo(dist, dist[c0[t - 1]]);
          }
        }
      }
    }
  }

  /** The chain from a reached vertex runs through reached vertices, each
      the predecessor of the one before, at strictly smaller distances each
      time. */
  lemma CadeiaPropria(ant: seq<int>, dist: seq<int>, o: int, i: int, restante: nat)
    requires |ant| == |dist| && (forall k | 0 <= k < |ant| :: -1 <= ant[k] < |ant|)
    requires Desce(ant, dist, o) && 0 <= i < |ant| && dist[i] != INT_MAX
    ensures var c := Cadeia(ant, i, restante).0;
            forall t | 0 <= t < |c| :: dist[c[t]] != INT_MAX && Abaixo(dist, dist[c[t]]) <= Abaixo(dist, dist[i])
    ensures var c := Cadeia(ant, i, restante).0;
            forall t | 1 <= t < |c| :: c[t] == ant[c[t - 1]]
    ensures var c := Cadeia(ant, i, restante).0;
            forall t, s | 0 <= t < s < |c| :: Abaixo(dist, dist[c[s]]) < Abaixo(dist, dist[c[t]])
  {
    forall k ensures Cai(ant, dist, k) {
      if 0 <= k < |ant| && dist[k] != INT_MAX && ant[k] != -1 {
        assert dist[ant[k]] != INT_MAX;
      }
    }
    CadeiaAlcancada(ant, dist, i, restante);
    CadeiaSegue(ant, i, restante);
    CadeiaDecresce(ant, dist, i, restante);
  }

  /** The number of distinct values of a sequence without repetitions. */
  lemma {:induction false} CardDistintos(c: seq<int>)
    requires forall t, s | 0 <= t < s < |c| :: c[t] != c[s]
    ensures |set t | 0 <= t < |c| :: c[t]| == |c|
    decreases |c|
  {
    if c != [] {
      var p := c[..|c| - 1];
      CardDistintos(p);
      var sp := set t | 0 <= t < |p| :: p[t];
      var sc := set t | 0 <= t < |c| :: c[t];
      assert sc == sp + {c[|c| - 1]} by {
        forall x | x in sc ensures x in sp + {c[|c| - 1]} {
          var t :| 0 <= t < |c| && c[t] == x;
          if t < |c| - 1 {
            assert p[t] == x;
          }
        }
      }
      assert c[|c| - 1] !in sp;
    }
  }

  /** A sequence of distinct positions in 0..n-1 that misses `z` has fewer
      than `n` entries. */
  lemma Pombal(c: seq<int>, n: nat, z: int)
    requires 0 <= z < n
    requires forall t | 0 <= t < |c| :: 0 <= c[t] < n && c[t] != z
    requires forall t, s | 0 <= t < s < |c| :: c[t] != c[s]
    ensures |c| < n
  {
    var faixa := seq(n, i => i);
    var sc := set t | 0 <= t < |c| :: c[t];
    var r := set t | 0 <= t < n :: faixa[t];
    CardDistintos(c);
    CardDistintos(faixa);
    forall x | x in sc ensures x in r - {z} {
      var t :| 0 <= t < |c| && c[t] == x;
      assert faixa[x] == x;
    }
    assert faixa[z] == z;
    assert r - {z} + {z} == r;
    assert |r - {z}| == n - 1;
    assert sc + (r - {z} - sc) == r - {z};
  }

  /** The predecessor of every reached vertex has a non-empty list. */
  predicate PredecessoresComSaida(listas: seq<seq<Aresta>>, ant: seq<int>, dist: seq<int>)
    requires |ant| == |dist|
  {
    forall k | 0 <= k < |ant| && dist[k] != INT_MAX && ant[k] != -1 :: 0 <= ant[k] < |listas| && listas[ant[k]] != []
  }

  lemma ArvoreComSaida(vs: seq<Vertice>, listas: seq<seq<Aresta>>, o: int, e: Estado)
    requires Arvore(vs, listas, o, e)
    ensures PredecessoresComSaida(listas, e.ant, e.dist)
  {
    forall k | 0 <= k < |e.ant| && e.dist[k] != INT_MAX && e.ant[k] != -1
      ensures 0 <= e.ant[k] < |listas| && listas[e.ant[k]] != []
    {
      assert PredecessorOk(vs, listas, e, k);
    }
  }

  /** When two vertices have no outgoing entries, the chain from any reached
      vertex is shorter than the number of vertices: both could appear in it
      only as its first position. */
  lemma CadeiaCurta(listas: seq<seq<Aresta>>, ant: seq<int>, dist: seq<int>, o: int, d: int, x: int, y: int)
    requires |listas| == |ant| == |dist| && (forall k | 0 <= k < |ant| :: -1 <= ant[k] < |ant|)
    requires Desce(ant, dist, o) && PredecessoresComSaida(listas, ant, dist)
    requires 0 <= d < |ant| && dist[d] != INT_MAX
    requires 0 <= x < |ant| && 0 <= y < |ant| && x != y && listas[x] == [] && listas[y] == []
    ensures |Cadeia(ant, d, |ant|).0| < |ant|
  {
    var n: nat := |ant|;
    CadeiaPropria(ant, dist, o, d, n);
    assert var c := Cadeia(ant, d, n).0; forall t | 0 <= t < |c| :: dist[c[t]] != INT_MAX;
    var c := Cadeia(ant, d, n).0;
    assert forall t, s | 0 <= t < s < |c| :: Abaixo(dist, dist[c[s]]) < Abaixo(dist, dist[c[t]]);
    var z := if c != [] && c[0] == x then y else x;
    forall t | 0 <= t < |c| ensures c[t] != z {
      if t > 0 {
        assert dist[c[t - 1]] != INT_MAX;
        assert ant[c[t - 1]] == c[t];
      }
    }
    Pombal(c, n, z);
  }

  /** On the shipped graph `calcular_rota` as written returns the corrected
      route for every reachable destination; with
      `RotaEstatica.CalcularRotaCarregada`, that route is a shortest walk. */
  lemma CalcularRotaCarregadaComoEscrita(vs: seq<Vertice>, listas: seq<seq<Aresta>>, a: int, b: int)
    requires ComoCarregado(vs, listas)
    ensures a != b && 0 <= a < 120 && 0 <= b < 120 && Alcanca(vs, listas, a, b) ==>
              && CalcularRota(vs, listas, a, b, false).Some?
              && CalcularRota(vs, listas, a, b, false) == CalcularRota(vs, listas, a, b, true)
  {
    ValidasLimitadas(vs, listas);
    CalcularRotaCarregada(vs, listas, a, b);
    CalcularRotaComoEscrita(vs, listas, 154, a, b);
    if a != b && 0 <= a < 120 && 0 <= b < 120 && Alcanca(vs, listas, a, b) {
      IndiceDenso(vs, a);
      IndiceDenso(vs, b);
      var e := Executar(vs, listas, a, true);
      DistanciasMinimas(vs, listas, 154, a);
      ExecutarTerminado(vs, listas, 154, a);
      InvarianteArvore(vs, listas, 154, a, e);
      ArvoreDesce(vs, listas, a, e);
      ArvoreComSaida(vs, listas, a, e);
      CadeiaCurta(listas, e.ant, e.dist, a, b, 67, 86);
    }
  }

  // Vertices 67 and 86

  /** From an origin without outgoing entries, the second turn of either
      variant picks the last vertex while its distance is still INT_MAX: the
      code as written then adds each of its edge lengths to INT_MAX. */
  lemma BecoSegundoTurno(vs: seq<Vertice>, listas: seq<seq<Aresta>>, o: int, corrigido: bool)
    requires |listas| == |vs| && 0 <= o < |vs| - 1 && listas[o] == []
    ensures var e := Passo(vs, listas, Inicial(|vs|, o), corrigido);
            && MenorDistancia(e.dist, e.vis) == |vs| - 1
            && e.dist[|vs| - 1] == INT_MAX
  {
    var e0 := Inicial(|vs|, o);
    var u := MenorDistancia(e0.dist, e0.vis);
    assert e0.dist[u] <= e0.dist[o];
    assert u == o;
    var e := Passo(vs, listas, e0, corrigido);
    assert e == e0.(vis := e0.vis[o := true]);
    var r := MenorDistancia(e.dist, e.vis);
    assert !e.vis[|vs| - 1];
    if r < |vs| - 1 {
      assert false;
    }
  }

  /** On the shipped graph, a run from vertex 67 or 86 picks vertex 119 on
      its second turn while its distance is still INT_MAX. */
  lemma BecosComoEscritos(vs: seq<Vertice>, listas: seq<seq<Aresta>>)
    requires ComoCarregado(vs, listas)
    ensures var e := Passo(vs, listas, Inicial(120, 67), false);
            MenorDistancia(e.dist, e.vis) == 119 && e.dist[119] == INT_MAX
    ensures var e := Passo(vs, listas, Inicial(120, 86), false);
            MenorDistancia(e.dist, e.vis) == 119 && e.dist[119] == INT_MAX
  {
    BecoSegundoTurno(vs, listas, 67, false);
    BecoSegundoTurno(vs, listas, 86, false);
  }

  // From an origin without outgoing edges the code as written relaxes an
  // unreached vertex, and its neighbour keeps the wrapped sum

  /** A turn keeps what it found at visited vertices: they stay visited, with
      their distance and predecessor. */
  lemma PassoFixaVisitados(vs: seq<Vertice>, listas: seq<seq<Aresta>>, e: Estado, corrigido: bool)
    requires |listas| == |vs| && Bem(e, |vs|)
    ensures var r := Passo(vs, listas, e, corrigido);
            forall i | 0 <= i < |vs| && e.vis[i] :: r.vis[i] && r.dist[i] == e.dist[i] && r.ant[i] == e.ant[i]
  {
    var u := MenorDistancia(e.dist, e.vis);
    if u != -1 {
      RelaxarSoMelhora(vs, e.(vis := e.vis[u := true]), u, listas[u], corrigido);
    }
  }

  /** Any number of turns keeps what was found at visited vertices. */
  lemma {:induction false} IterarFixaVisitados(vs: seq<Vertice>, listas: seq<seq<Aresta>>, e: Estado, k: nat, corrigido: bool)
    requires |listas| == |vs| && Bem(e, |vs|)
    ensures var r := Iterar(vs, listas, e, k, corrigido);
            forall i | 0 <= i < |vs| && e.vis[i] :: r.vis[i] && r.dist[i] == e.dist[i] && r.ant[i] == e.ant[i]
    decreases k
  {
    if k > 0 {
      PassoFixaVisitados(vs, listas, e, corrigido);
      IterarFixaVisitados(vs, listas, Passo(vs, listas, e, corrigido), k - 1, corrigido);
    }
  }

  /** With the guard, when every unvisited vertex is at INT_MAX the remaining
      turns only mark vertices visited. */
  lemma {:induction false} IterarIsolado(vs: seq<Vertice>, listas: seq<seq<Aresta>>, e: Estado, k: nat)
    requires |listas| == |vs| && Bem(e, |vs|)
    requires forall i | 0 <= i < |vs| && !e.vis[i] :: e.dist[i] == INT_MAX
    ensures var r := Iterar(vs, listas, e, k, true);
            r.dist == e.dist && r.ant == e.ant
    decreases k
  {
    if k > 0 {
      var u := MenorDistancia(e.dist, e.vis);
      var e1 := Passo(vs, listas, e, true);
      if u != -1 {
        RelaxarInerte(vs, e.(vis := e.vis[u := true]), u, listas[u]);
      }
      IterarIsolado(vs, listas, e1, k - 1);
    }
  }

  /** INT_MAX plus a positive length wraps to a negative value. */
  lemma WrapInfinito(w: int)
    requires 0 < w <= INT_MAX
    ensures Wrap32(INT_MAX + w) == INT_MAX + w - 0x1_0000_0000 < 0
  {
    var x := INT_MAX + w;
    assert 0 <= x < 0x1_0000_0000;
    assert x % 0x1_0000_0000 == x;
  }

  /** The arrays after the first turn from an origin without outgoing edges:
      the initial ones with the origin visited. */
  function DepoisDaOrigem(n: nat, o: int): (r: Estado)
    requires 0 <= o < n
    ensures Bem(r, n) && r.vis[o] && r.dist[o] == 0 && r.ant[o] == -1
    ensures forall i | 0 <= i < n && i != o :: !r.vis[i] && r.dist[i] == INT_MAX && r.ant[i] == -1
  {
    var e0 := Inicial(n, o);
    e0.(vis := e0.vis[o := true])
  }

  /** From an origin without outgoing edges the first turn only marks the
      origin visited, in both variants. */
  lemma PrimeiroTurnoBeco(vs: seq<Vertice>, listas: seq<seq<Aresta>>, o: int, corrigido: bool)
    requires |listas| == |vs| && 0 <= o < |vs| && listas[o] == []
    ensures Passo(vs, listas, Inicial(|vs|, o), corrigido) == DepoisDaOrigem(|vs|, o)
  {
    var e0 := Inicial(|vs|, o);
    var u := MenorDistancia(e0.dist, e0.vis);
    assert e0.dist[u] <= e0.dist[o];
    assert u == o;
  }

  /** So the run from such an origin is the remaining turns from the initial
      arrays with the origin visited. */
  lemma ExecutarDesdeBeco(vs: seq<Vertice>, listas: seq<seq<Aresta>>, o: int, corrigido: bool)
    requires |listas| == |vs| && 0 <= o < |vs| && listas[o] == []
    ensures Executar(vs, listas, o, corrigido) == Iterar(vs, listas, DepoisDaOrigem(|vs|, o), |vs| - 1, corrigido)
  {
    PrimeiroTurnoBeco(vs, listas, o, corrigido);
    IterarUmPasso(vs, listas, Inicial(|vs|, o), |vs|, corrigido);
  }

  /** As written, relaxing the single entry `a` of a vertex at INT_MAX stores
      the wrapped sum `INT_MAX + w`, which is negative, at the unvisited,
      unreached destination of `a`, with that vertex as its predecessor. */
  lemma RelaxarDeInfinito(vs: seq<Vertice>, e: Estado, u: int, a: Aresta)
    requires Bem(e, |vs|) && 0 <= u < |vs| && e.dist[u] == INT_MAX && 0 < a.distancia <= INT_MAX
    requires Alvo(vs, a) != -1 && !e.vis[Alvo(vs, a)] && e.dist[Alvo(vs, a)] == INT_MAX
    ensures Relaxar(vs, e, u, [a], false)
            == Estado(e.dist[Alvo(vs, a) := INT_MAX + a.distancia - 0x1_0000_0000], e.ant[Alvo(vs, a) := u], e.vis)
  {
    assert [a][1..] == [];
    WrapInfinito(a.distancia);
    assert Melhora(vs, e, u, a, false);
  }

  /** The arrays after the last vertex, at INT_MAX with the single entry
      `a`, is taken as written: the destination of `a` holds the wrapped sum
      `INT_MAX + w` with the last vertex as predecessor, and the last vertex
      is visited. */
  function DepoisDoUltimo(vs: seq<Vertice>, e: Estado, a: Aresta): (r: Estado)
    requires Bem(e, |vs|) && |vs| > 0 && 0 < a.distancia <= INT_MAX
    requires Alvo(vs, a) != -1 && Alvo(vs, a) != |vs| - 1
    ensures Bem(r, |vs|) && r.vis[|vs| - 1] && r.vis[Alvo(vs, a)] == e.vis[Alvo(vs, a)]
    ensures r.dist[Alvo(vs, a)] == INT_MAX + a.distancia - 0x1_0000_0000 < 0 && r.ant[Alvo(vs, a)] == |vs| - 1
    ensures forall i | 0 <= i < |vs| && i != Alvo(vs, a) :: r.dist[i] == e.dist[i] && r.ant[i] == e.ant[i]
    ensures forall i | 0 <= i < |vs| - 1 :: r.vis[i] == e.vis[i]
  {
    var v := Alvo(vs, a);
    Estado(e.dist[v := INT_MAX + a.distancia - 0x1_0000_0000], e.ant[v := |vs| - 1], e.vis[|vs| - 1 := true])
  }

  /** A state in which every unvisited vertex is at INT_MAX, among them the
      last vertex and the destination of `a`, an entry of positive length. */
  predicate AntesDoUltimo(vs: seq<Vertice>, e: Estado, a: Aresta) {
    && Bem(e, |vs|) && |vs| > 0 && !e.vis[|vs| - 1]
    && (forall i | 0 <= i < |vs| && !e.vis[i] :: e.dist[i] == INT_MAX)
    && 0 < a.distancia <= INT_MAX
    && Alvo(vs, a) != -1 && Alvo(vs, a) != |vs| - 1 && !e.vis[Alvo(vs, a)]
  }

  /** A state in which `v`, at a negative distance, is the only unvisited
      vertex below INT_MAX. */
  predicate SoNegativo(vs: seq<Vertice>, e: Estado, v: int) {
    && Bem(e, |vs|) && 0 <= v < |vs| && !e.vis[v] && e.dist[v] < 0
    && forall i | 0 <= i < |vs| && !e.vis[i] && i != v :: e.dist[i] == INT_MAX
  }

  /** When every unvisited vertex is at INT_MAX and the last one is unvisited,
      the scan, which keeps the last minimum it meets, picks the last vertex. */
  lemma EscolheUltimo(e: Estado, n: nat)
    requires Bem(e, n) && n > 0 && !e.vis[n - 1]
    requires forall i | 0 <= i < n && !e.vis[i] :: e.dist[i] == INT_MAX
    ensures MenorDistancia(e.dist, e.vis) == n - 1
  {
    var u := MenorDistancia(e.dist, e.vis);
    assert e.dist[u] == INT_MAX;
    if u != n - 1 {
      assert false;
    }
  }

  /** So, as written, when the list of the last vertex is the single entry
      `a`, that turn stores the wrapped sum `INT_MAX + w` at the destination
      of `a`, with the last vertex as predecessor. */
  lemma PassoDoUltimo(vs: seq<Vertice>, listas: seq<seq<Aresta>>, e: Estado, a: Aresta)
    requires |listas| == |vs| && AntesDoUltimo(vs, e, a) && listas[|vs| - 1] == [a]
    ensures Passo(vs, listas, e, false) == DepoisDoUltimo(vs, e, a)
  {
    var n := |vs|;
    EscolheUltimo(e, n);
    RelaxarDeInfinito(vs, e.(vis := e.vis[n - 1 := true]), n - 1, a);
  }

  /** The same, as the first of `k` turns. */
  lemma IterarDoUltimo(vs: seq<Vertice>, listas: seq<seq<Aresta>>, e: Estado, a: Aresta, k: nat)
    requires |listas| == |vs| && AntesDoUltimo(vs, e, a) && listas[|vs| - 1] == [a] && k > 0
    ensures Iterar(vs, listas, e, k, false) == Iterar(vs, listas, DepoisDoUltimo(vs, e, a), k - 1, false)
  {
    PassoDoUltimo(vs, listas, e, a);
    IterarUmPasso(vs, listas, e, k, false);
  }

  /** When the only unvisited vertex below INT_MAX is `v`, at a negative
      distance, the next turn picks `v` and leaves it and every visited
      vertex as they were. */
  lemma TerceiroTurnoBeco(vs: seq<Vertice>, listas: seq<seq<Aresta>>, e: Estado, v: int)
    requires |listas| == |vs| && SoNegativo(vs, e, v)
    ensures var r := Passo(vs, listas, e, false);
            && r.vis[v] && r.dist[v] == e.dist[v] && r.ant[v] == e.ant[v]
            && forall i | 0 <= i < |vs| && e.vis[i] :: r.vis[i] && r.ant[i] == e.ant[i]
  {
    var u := MenorDistancia(e.dist, e.vis);
    assert e.dist[u] <= e.dist[v];
    assert u == v;
    RelaxarSoMelhora(vs, e.(vis := e.vis[v := true]), v, listas[v], false);
  }

  /** From such a state the remaining turns keep the distance and predecessor
      of `v` and the predecessors of the visited vertices. */
  lemma IterarDoNegativo(vs: seq<Vertice>, listas: seq<seq<Aresta>>, e: Estado, v: int, k: nat)
    requires |listas| == |vs| && SoNegativo(vs, e, v) && k > 0
    ensures var r := Iterar(vs, listas, e, k, false);
            && r.dist[v] == e.dist[v] && r.ant[v] == e.ant[v]
            && forall i | 0 <= i < |vs| && e.vis[i] :: r.ant[i] == e.ant[i]
  {
    TerceiroTurnoBeco(vs, listas, e, v);
    IterarFixaVisitados(vs, listas, Passo(vs, listas, e, false), k - 1, false);
    IterarUmPasso(vs, listas, e, k, false);
  }

  /** After the last vertex is taken from such a state, the destination `v`
      of `a` is the only unvisited vertex below INT_MAX, and the last vertex
      is visited and still without predecessor. */
  lemma UltimoPronto(vs: seq<Vertice>, e: Estado, a: Aresta)
    requires AntesDoUltimo(vs, e, a) && e.ant[|vs| - 1] == -1
    ensures var r := DepoisDoUltimo(vs, e, a);
            SoNegativo(vs, r, Alvo(vs, a)) && r.vis[|vs| - 1] && r.ant[|vs| - 1] == -1
  {
  }

  /** The two phases together: from a state where only vertices at INT_MAX
      are unvisited, the last among them with no predecessor and the single
      entry `a`, the code as written ends with the wrapped sum at the
      destination of `a` and the last vertex as its predecessor. */
  lemma IterarBeco(vs: seq<Vertice>, listas: seq<seq<Aresta>>, e: Estado, a: Aresta, k: nat)
    requires |listas| == |vs| && AntesDoUltimo(vs, e, a) && e.ant[|vs| - 1] == -1
    requires listas[|vs| - 1] == [a] && k >= 2
    ensures var r := Iterar(vs, listas, e, k, false);
            && r.dist[Alvo(vs, a)] == INT_MAX + a.distancia - 0x1_0000_0000 < 0
            && r.ant[Alvo(vs, a)] == |vs| - 1 && r.ant[|vs| - 1] == -1
  {
    var n := |vs|;
    var v := Alvo(vs, a);
    var e2 := DepoisDoUltimo(vs, e, a);
    UltimoPronto(vs, e, a);
    IterarDoNegativo(vs, listas, e2, v, k - 1);
    var r := Iterar(vs, listas, e2, k - 1, false);
    assert r.dist[v] == INT_MAX + a.distancia - 0x1_0000_0000 < 0 && r.ant[v] == n - 1;
    assert r.ant[n - 1] == -1;
    IterarDoUltimo(vs, listas, e, a, k);
  }

  /** After the first turn every unvisited vertex is at INT_MAX. */
  lemma OrigemIsolada(n: nat, o: int)
    requires 0 <= o < n
    ensures var e := DepoisDaOrigem(n, o);
            forall i | 0 <= i < n && !e.vis[i] :: e.dist[i] == INT_MAX
  {
  }

  /** From an origin without outgoing edges, the corrected code leaves every
      other vertex at INT_MAX. */
  lemma CorrigidoBeco(vs: seq<Vertice>, listas: seq<seq<Aresta>>, o: int)
    requires |listas| == |vs| && 0 <= o < |vs| && listas[o] == []
    ensures forall i | 0 <= i < |vs| && i != o :: Executar(vs, listas, o, true).dist[i] == INT_MAX
  {
    var e1 := DepoisDaOrigem(|vs|, o);
    OrigemIsolada(|vs|, o);
    IterarIsolado(vs, listas, e1, |vs| - 1);
    var r := Iterar(vs, listas, e1, |vs| - 1, true);
    assert forall i | 0 <= i < |vs| && i != o :: r.dist[i] == INT_MAX;
    ExecutarDesdeBeco(vs, listas, o, true);
  }

  /** After the first turn from an origin other than the last vertex, every
      unvisited vertex is at INT_MAX, and the last vertex and the destination
      `v` are unvisited, the last without predecessor. */
  lemma OrigemPronta(vs: seq<Vertice>, o: int, a: Aresta)
    requires 0 <= o < |vs| - 1 && 0 < a.distancia <= INT_MAX
    requires Alvo(vs, a) != -1 && Alvo(vs, a) != o && Alvo(vs, a) != |vs| - 1
    ensures var e := DepoisDaOrigem(|vs|, o);
            AntesDoUltimo(vs, e, a) && e.ant[|vs| - 1] == -1
  {
  }

  /** After the first turn from an origin other than the last vertex and
      without outgoing edges, when the last vertex has the single entry `a`,
      the remaining turns as written give the destination of `a` the wrapped
      sum `INT_MAX + w`, with the last vertex as predecessor, and the last
      vertex keeps no predecessor. */
  lemma EstouroDesdeOrigem(vs: seq<Vertice>, listas: seq<seq<Aresta>>, o: int, a: Aresta)
    requires |listas| == |vs| && 0 <= o < |vs| - 1
    requires listas[|vs| - 1] == [a] && 0 < a.distancia <= INT_MAX
    requires Alvo(vs, a) != -1 && Alvo(vs, a) != o && Alvo(vs, a) != |vs| - 1
    ensures var e := Iterar(vs, listas, DepoisDaOrigem(|vs|, o), |vs| - 1, false);
            && e.dist[Alvo(vs, a)] == INT_MAX + a.distancia - 0x1_0000_0000 < 0
            && e.ant[Alvo(vs, a)] == |vs| - 1 && e.ant[|vs| - 1] == -1
  {
    OrigemPronta(vs, o, a);
    IterarBeco(vs, listas, DepoisDaOrigem(|vs|, o), a, |vs| - 1);
  }

  /** So the whole run from such an origin ends that way, where
      `CorrigidoBeco` leaves the destination of `a` at INT_MAX. */
  lemma EstouroDeBeco(vs: seq<Vertice>, listas: seq<seq<Aresta>>, o: int, a: Aresta)
    requires |listas| == |vs| && 0 <= o < |vs| - 1 && listas[o] == []
    requires listas[|vs| - 1] == [a] && 0 < a.distancia <= INT_MAX
    requires Alvo(vs, a) != -1 && Alvo(vs, a) != o && Alvo(vs, a) != |vs| - 1
    ensures var e := Executar(vs, listas, o, false);
            && e.dist[Alvo(vs, a)] == INT_MAX + a.distancia - 0x1_0000_0000 < 0
            && e.ant[Alvo(vs, a)] == |vs| - 1 && e.ant[|vs| - 1] == -1
  {
    EstouroDesdeOrigem(vs, listas, o, a);
    ExecutarDesdeBeco(vs, listas, o, false);
  }

  /** A destination whose predecessor `u` has no predecessor gives, as
      written, the two-id route from `u`. */
  lemma ReconstruirDeDois(vs: seq<Vertice>, e: Estado, v: int, u: int)
    requires Bem(e, |vs|) && |vs| > 2 && 0 <= v < |vs| && 0 <= u < |vs| && u != v
    requires e.dist[v] != INT_MAX && e.ant[v] == u && e.ant[u] == -1
    ensures ReconstruirCaminho(vs, e, v, false) == Some(Rota([vs[u].id, vs[v].id], 2, e.dist[v]))
  {
    var n := |vs|;
    var ant := e.ant;
    assert Cadeia(ant, ant[u], n - 2) == ([], -1);
    CadeiaPasso(ant, u, n - 1);
    assert [u] + [] == [u];
    var cu := Cadeia(ant, u, n - 1);
    assert cu == ([u], -1);
    assert ant[v] == u;
    CadeiaPasso(ant, v, n);
    assert Cadeia(ant, v, n) == ([v] + cu.0, cu.1);
    assert [v] + [u] == [v, u];
    assert Cadeia(ant, v, n) == ([v, u], -1);
    assert IdsDe(vs, [v, u]) == [vs[v].id, vs[u].id];
    assert Reverso([vs[v].id, vs[u].id]) == [vs[u].id, vs[v].id];
  }

  /** On a graph shaped like the shipped one, where vertex 119 has the single
      entry (20, 110), `calcular_rota(o, 20)` as written from vertex 67 or 86
      returns the route [119, 20] of length INT_MIN + 109, although 119 is not
      the origin and nothing leads from the origin to 20. */
  lemma RotaDoBeco(vs: seq<Vertice>, listas: seq<seq<Aresta>>, o: int)
    requires ComoCarregado(vs, listas) && listas[119] == [Aresta(20, 110)]
    requires o == 67 || o == 86
    ensures CalcularRota(vs, listas, o, 20, false) == Some(Rota([119, 20], 2, INT_MIN + 109))
  {
    IndiceDenso(vs, o);
    IndiceDenso(vs, 20);
    IndiceDenso(vs, 119);
    assert Alvo(vs, Aresta(20, 110)) == 20;
    EstouroDeBeco(vs, listas, o, Aresta(20, 110));
    ReconstruirDeDois(vs, Executar(vs, listas, o, false), 20, 119);
  }

  /** On the shipped graph, `calcular_rota(67, 20)` and `calcular_rota(86, 20)`
      as written return the route [119, 20] with the negative length
      INT_MIN + 109, where the corrected code returns NULL. */
  lemma RotaDosBecosCarregada()
    ensures CalcularRota(VerticesCarregados(), ListasCarregadas(), 67, 20, false) == Some(Rota([119, 20], 2, INT_MIN + 109))
    ensures CalcularRota(VerticesCarregados(), ListasCarregadas(), 86, 20, false) == Some(Rota([119, 20], 2, INT_MIN + 109))
    ensures CalcularRota(VerticesCarregados(), ListasCarregadas(), 67, 20, true).None?
    ensures CalcularRota(VerticesCarregados(), ListasCarregadas(), 86, 20, true).None?
  {
    CarregadoComoCarregado();
    ListaCarregadaDe119();
    RotaDoBeco(VerticesCarregados(), ListasCarregadas(), 67);
    RotaDoBeco(VerticesCarregados(), ListasCarregadas(), 86);
    SemRotaDeBecos(VerticesCarregados(), ListasCarregadas(), 20);
  }
}
