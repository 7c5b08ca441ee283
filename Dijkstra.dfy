/**
 * Dijkstra's algorithm as `executar_dijkstra` (backend/grafo_algoritmos.c)
 * runs it, stated as functions on the values of its three arrays.
 *
 * The arrays are indexed by vertex position; an edge is followed by looking
 * its destination id up with `encontrar_indice_vertice`. `INT_MAX` stands for
 * "not reached". The flag `corrigido` selects between the code as written,
 * where `distancias[u] + peso` is evaluated even when `distancias[u]` is
 * `INT_MAX` (and wraps around), and the corrected code, which relaxes the
 * edges of a vertex only when its distance is finite.
 */
module Dijkstra {
  import opened CTypes
  import opened Grafos

  /** `distancias`, `anteriores` and `visitados` at some point of the run. */
  datatype Estado = Estado(dist: seq<int>, ant: seq<int>, vis: seq<bool>)

  /** Three arrays of length `n`, distances in `int` range, predecessors an
      index or -1. */
  predicate Bem(e: Estado, n: int) {
    && |e.dist| == n && |e.ant| == n && |e.vis| == n
    && (forall i | 0 <= i < n :: INT_MIN <= e.dist[i] <= INT_MAX)
    && (forall i | 0 <= i < n :: -1 <= e.ant[i] < n)
  }

  /** The position an adjacency entry leads to, or -1 when its destination id
      is not a vertex of the graph. */
  function Alvo(vs: seq<Vertice>, a: Aresta): (r: int)
    ensures -1 <= r < |vs|
  {
    IndiceDe(vs, a.destinoId)
  }

  /** The arrays after step 3: every distance infinite except the origin's,
      no predecessors, nothing visited. */
  function Inicial(n: nat, o: int): (r: Estado)
    requires 0 <= o < n
    ensures Bem(r, n)
    ensures r.dist[o] == 0 && forall i | 0 <= i < n && i != o :: r.dist[i] == INT_MAX
    ensures forall i | 0 <= i < n :: r.ant[i] == -1 && !r.vis[i]
  {
    Estado(seq(n, i => if i == o then 0 else INT_MAX), seq(n, _ => -1), seq(n, _ => false))
  }

  /** The scan of `encontrar_menor_distancia` over positions 0..k-1: the index
      and value it holds after them, starting from (-1, INT_MAX) and taking
      every unvisited position whose distance is `<=` the value held. */
  function Escolha(dist: seq<int>, vis: seq<bool>, k: nat): (r: (int, int))
    requires k <= |dist| == |vis|
    requires forall i | 0 <= i < |dist| :: dist[i] <= INT_MAX
    ensures -1 <= r.0 < k
    ensures r.0 == -1 <==> forall j | 0 <= j < k :: vis[j]
    ensures r.0 == -1 ==> r.1 == INT_MAX
    ensures r.0 >= 0 ==> !vis[r.0] && r.1 == dist[r.0]
    ensures forall j | 0 <= j < k && !vis[j] :: r.1 <= dist[j]
    ensures forall j | r.0 < j < k && !vis[j] :: r.1 < dist[j]
  {
    if k == 0 then (-1, INT_MAX)
    else
      var (i, m) := Escolha(dist, vis, k - 1);
      if !vis[k - 1] && dist[k - 1] <= m then (k - 1, dist[k - 1]) else (i, m)
  }

  /** `encontrar_menor_distancia`: an unvisited position of least distance,
      the last one among equals, or -1 exactly when every position has been
      visited. */
  function MenorDistancia(dist: seq<int>, vis: seq<bool>): (r: int)
    requires |dist| == |vis|
    requires forall i | 0 <= i < |dist| :: dist[i] <= INT_MAX
    ensures -1 <= r < |dist|
    ensures r == -1 <==> forall j | 0 <= j < |dist| :: vis[j]
    ensures r >= 0 ==> !vis[r]
    ensures r >= 0 ==> forall j | 0 <= j < |dist| && !vis[j] :: dist[r] <= dist[j]
    ensures r >= 0 ==> forall j | r < j < |dist| && !vis[j] :: dist[r] < dist[j]
  {
    Escolha(dist, vis, |dist|).0
  }

  /** Whether the relaxation of one entry of the list of `u` takes place. */
  predicate Melhora(vs: seq<Vertice>, e: Estado, u: int, a: Aresta, corrigido: bool)
    requires Bem(e, |vs|) && 0 <= u < |vs|
  {
    var v := Alvo(vs, a);
    && v != -1 && !e.vis[v]
    && (!corrigido || e.dist[u] != INT_MAX)
    && Wrap32(e.dist[u] + a.distancia) < e.dist[v]
  }

  /** One turn of the inner loop: the entry `a` of the list of `u` lowers the
      distance of its unvisited destination, in 32-bit arithmetic, and records
      `u` as its predecessor. */
  function RelaxarAresta(vs: seq<Vertice>, e: Estado, u: int, a: Aresta, corrigido: bool): (r: Estado)
    requires Bem(e, |vs|) && 0 <= u < |vs|
    ensures Bem(r, |vs|) && r.vis == e.vis
    ensures !Melhora(vs, e, u, a, corrigido) ==> r == e
    ensures Melhora(vs, e, u, a, corrigido) ==>
              var v := Alvo(vs, a);
              && r.dist == e.dist[v := Wrap32(e.dist[u] + a.distancia)]
              && r.ant == e.ant[v := u]
  {
    if Melhora(vs, e, u, a, corrigido) then
      var v := Alvo(vs, a);
      Estado(e.dist[v := Wrap32(e.dist[u] + a.distancia)], e.ant[v := u], e.vis)
    else e
  }

  /** The inner loop: the list of `u` walked from its head. */
  function Relaxar(vs: seq<Vertice>, e: Estado, u: int, lista: seq<Aresta>, corrigido: bool): (r: Estado)
    requires Bem(e, |vs|) && 0 <= u < |vs|
    ensures Bem(r, |vs|) && r.vis == e.vis
    decreases |lista|
  {
    if lista == [] then e
    else Relaxar(vs, RelaxarAresta(vs, e, u, lista[0], corrigido), u, lista[1..], corrigido)
  }

  /** One turn of the main loop: the scan picks `u`, marks it visited and
      relaxes its list; when the scan finds nothing the state is left alone,
      which is what the `break` amounts to. */
  function Passo(vs: seq<Vertice>, listas: seq<seq<Aresta>>, e: Estado, corrigido: bool): (r: Estado)
    requires |listas| == |vs| && Bem(e, |vs|)
    ensures Bem(r, |vs|)
  {
    var u := MenorDistancia(e.dist, e.vis);
    if u == -1 then e
    else Relaxar(vs, e.(vis := e.vis[u := true]), u, listas[u], corrigido)
  }

  /** The arrays after `k` more turns of the main loop. */
  function Iterar(vs: seq<Vertice>, listas: seq<seq<Aresta>>, e: Estado, k: nat, corrigido: bool): (r: Estado)
    requires |listas| == |vs| && Bem(e, |vs|)
    ensures Bem(r, |vs|)
    decreases k
  {
    if k == 0 then e else Iterar(vs, listas, Passo(vs, listas, e, corrigido), k - 1, corrigido)
  }

  /** The arrays `executar_dijkstra` hands back: `num_vertices` turns of the
      main loop from the initial state. */
  function Executar(vs: seq<Vertice>, listas: seq<seq<Aresta>>, o: int, corrigido: bool): (r: Estado)
    requires |listas| == |vs| && 0 <= o < |vs|
    ensures Bem(r, |vs|)
  {
    Iterar(vs, listas, Inicial(|vs|, o), |vs|, corrigido)
  }

  /** One turn of the main loop taken: `k` turns from `e` are that turn and
      then `k - 1` more. */
  lemma IterarUmPasso(vs: seq<Vertice>, listas: seq<seq<Aresta>>, e: Estado, k: nat, corrigido: bool)
    requires |listas| == |vs| && Bem(e, |vs|) && k > 0
    ensures Iterar(vs, listas, e, k, corrigido) == Iterar(vs, listas, Passo(vs, listas, e, corrigido), k - 1, corrigido)
  {
  }

  /** Once the scan finds nothing, further turns leave the arrays alone: the
      `break` of the main loop ends the run with the same arrays as the
      remaining turns would. */
  lemma {:induction false} IterarParado(vs: seq<Vertice>, listas: seq<seq<Aresta>>, e: Estado, k: nat, corrigido: bool)
    requires |listas| == |vs| && Bem(e, |vs|) && MenorDistancia(e.dist, e.vis) == -1
    ensures Iterar(vs, listas, e, k, corrigido) == e
    decreases k
  {
    if k > 0 {
      IterarParado(vs, listas, Passo(vs, listas, e, corrigido), k - 1, corrigido);
    }
  }

  // Facts that hold for both variants

  /** The inner loop changes only unvisited positions, never raises a
      distance, and whatever it changes gets `u` as its predecessor. */
  lemma {:induction false} RelaxarSoMelhora(vs: seq<Vertice>, e: Estado, u: int, lista: seq<Aresta>, corrigido: bool)
    requires Bem(e, |vs|) && 0 <= u < |vs|
    ensures var r := Relaxar(vs, e, u, lista, corrigido);
            forall i | 0 <= i < |vs| ::
              && (e.vis[i] ==> r.dist[i] == e.dist[i] && r.ant[i] == e.ant[i])
              && r.dist[i] <= e.dist[i]
              && (r.dist[i] != e.dist[i] || r.ant[i] != e.ant[i] ==> r.ant[i] == u)
    decreases |lista|
  {
    if lista != [] {
      var e1 := RelaxarAresta(vs, e, u, lista[0], corrigido);
      RelaxarSoMelhora(vs, e1, u, lista[1..], corrigido);
    }
  }

  /** The number of positions marked visited. */
  function Conta(s: seq<bool>): (r: nat)
    ensures r <= |s|
  {
    if s == [] then 0 else Conta(s[..|s| - 1]) + (if s[|s| - 1] then 1 else 0)
  }

  lemma {:induction false} ContaMarcar(s: seq<bool>, i: int)
    requires 0 <= i < |s| && !s[i]
    ensures Conta(s[i := true]) == Conta(s) + 1
    decreases |s|
  {
    var t := s[i := true];
    if i < |s| - 1 {
      assert t[..|t| - 1] == s[..|s| - 1][i := true];
      ContaMarcar(s[..|s| - 1], i);
    } else {
      assert t[..|t| - 1] == s[..|s| - 1];
    }
  }

  lemma {:induction false} ContaCheia(s: seq<bool>)
    requires Conta(s) == |s|
    ensures forall i | 0 <= i < |s| :: s[i]
    decreases |s|
  {
    if s != [] {
      ContaCheia(s[..|s| - 1]);
      assert forall i | 0 <= i < |s| - 1 :: s[..|s| - 1][i] == s[i];
    }
  }

  lemma {:induction false} ContaVazia(s: seq<bool>)
    requires forall i | 0 <= i < |s| :: !s[i]
    ensures Conta(s) == 0
    decreases |s|
  {
    if s != [] {
      ContaVazia(s[..|s| - 1]);
    }
  }

  /** A turn marks one more vertex, unless all are marked already. */
  lemma PassoConta(vs: seq<Vertice>, listas: seq<seq<Aresta>>, e: Estado, corrigido: bool)
    requires |listas| == |vs| && Bem(e, |vs|)
    ensures Conta(Passo(vs, listas, e, corrigido).vis) == Min(Conta(e.vis) + 1, |vs|)
  {
    var u := MenorDistancia(e.dist, e.vis);
    if u == -1 {
      ContaTodos(e.vis);
    } else {
      ContaMarcar(e.vis, u);
    }
  }

  /** Each turn of the main loop marks one more vertex until all are marked,
      so `k` turns add min(k, number unmarked) to the count. */
  lemma {:induction false} IterarConta(vs: seq<Vertice>, listas: seq<seq<Aresta>>, e: Estado, k: nat, corrigido: bool)
    requires |listas| == |vs| && Bem(e, |vs|)
    ensures Conta(Iterar(vs, listas, e, k, corrigido).vis) == Min(Conta(e.vis) + k, |vs|)
    decreases k
  {
    if k > 0 {
      PassoConta(vs, listas, e, corrigido);
      IterarConta(vs, listas, Passo(vs, listas, e, corrigido), k - 1, corrigido);
    }
  }

  lemma {:induction false} ContaTodos(s: seq<bool>)
    requires forall i | 0 <= i < |s| :: s[i]
    ensures Conta(s) == |s|
    decreases |s|
  {
    if s != [] {
      ContaTodos(s[..|s| - 1]);
    }
  }

  /** `executar_dijkstra` returns with every vertex visited. */
  lemma ExecutarVisitaTodos(vs: seq<Vertice>, listas: seq<seq<Aresta>>, o: int, corrigido: bool)
    requires |listas| == |vs| && 0 <= o < |vs|
    ensures forall i | 0 <= i < |vs| :: Executar(vs, listas, o, corrigido).vis[i]
  {
    IterarVisitaTodos(vs, listas, Inicial(|vs|, o), corrigido);
  }

  /** `num_vertices` turns from a state with nothing visited visit everything. */
  lemma IterarVisitaTodos(vs: seq<Vertice>, listas: seq<seq<Aresta>>, e: Estado, corrigido: bool)
    requires |listas| == |vs| && Bem(e, |vs|)
    requires forall i | 0 <= i < |vs| :: !e.vis[i]
    ensures forall i | 0 <= i < |vs| :: Iterar(vs, listas, e, |vs|, corrigido).vis[i]
  {
    IterarConta(vs, listas, e, |vs|, corrigido);
    ContaNada(e.vis, Iterar(vs, listas, e, |vs|, corrigido).vis);
  }

  /** Counting from an all-unmarked sequence up to its length marks everything. */
  lemma ContaNada(s0: seq<bool>, s: seq<bool>)
    requires |s| == |s0| && forall i | 0 <= i < |s0| :: !s0[i]
    requires Conta(s) == Min(Conta(s0) + |s0|, |s0|)
    ensures forall i | 0 <= i < |s| :: s[i]
  {
    ContaVazia(s0);
    ContaCheia(s);
  }
}
