/**
 * Walks through the graph, the predecessor chain that `reconstruir_caminho`
 * (backend/grafo_algoritmos.c) follows, and the result `calcular_rota` hands
 * back, stated on the arrays `executar_dijkstra` computes.
 */
module Caminhos {
  import opened CTypes
  import opened Grafos
  import opened Dijkstra

  // Walks

  /** One edge taken: entry `entrada` of the adjacency list of position `de`. */
  datatype Lance = Lance(de: int, entrada: int)

  /** `ls` is a walk that starts at position `o`: every step names an entry
      that exists, and each entry leads to where the next step starts. */
  predicate Trilha(vs: seq<Vertice>, listas: seq<seq<Aresta>>, o: int, ls: seq<Lance>)
    requires |listas| == |vs|
  {
    && 0 <= o < |vs|
    && (forall t | 0 <= t < |ls| :: 0 <= ls[t].de < |vs| && 0 <= ls[t].entrada < |listas[ls[t].de]|)
    && (|ls| > 0 ==> ls[0].de == o)
    && (forall t | 0 <= t < |ls| - 1 :: Alvo(vs, listas[ls[t].de][ls[t].entrada]) == ls[t + 1].de)
  }

  /** The position a walk ends at (-1 when its last entry names an id that
      is not in the graph). */
  function Chegada(vs: seq<Vertice>, listas: seq<seq<Aresta>>, o: int, ls: seq<Lance>): (r: int)
    requires |listas| == |vs| && Trilha(vs, listas, o, ls)
    ensures -1 <= r < |vs|
    ensures ls == [] ==> r == o
  {
    if ls == [] then o
    else
      var l := ls[|ls| - 1];
      Alvo(vs, listas[l.de][l.entrada])
  }

  /** The sum of the lengths of the entries a walk takes. */
  function Custo(listas: seq<seq<Aresta>>, ls: seq<Lance>): int
    requires forall t | 0 <= t < |ls| :: 0 <= ls[t].de < |listas| && 0 <= ls[t].entrada < |listas[ls[t].de]|
  {
    if ls == [] then 0
    else
      var l := ls[|ls| - 1];
      Custo(listas, ls[..|ls| - 1]) + listas[l.de][l.entrada].distancia
  }

  /** The positions a walk passes through, its start and its end included. */
  function Pontos(vs: seq<Vertice>, listas: seq<seq<Aresta>>, o: int, ls: seq<Lance>): (r: seq<int>)
    requires |listas| == |vs| && Trilha(vs, listas, o, ls)
    ensures |r| == |ls| + 1 && r[0] == o && r[|ls|] == Chegada(vs, listas, o, ls)
    ensures forall t | 0 <= t < |ls| :: r[t] == ls[t].de
    ensures r[|ls|] != -1 ==> forall t | 0 <= t < |r| :: 0 <= r[t] < |vs|
  {
    seq(|ls|, t requires 0 <= t < |ls| => ls[t].de) + [Chegada(vs, listas, o, ls)]
  }

  /** Some walk leads from position `o` to position `d`. */
  ghost predicate Alcanca(vs: seq<Vertice>, listas: seq<seq<Aresta>>, o: int, d: int)
    requires |listas| == |vs|
  {
    exists ls :: Trilha(vs, listas, o, ls) && Chegada(vs, listas, o, ls) == d
  }

  // The loop of `reconstruir_caminho`

  /** The positions the loop `while (current != -1 && num_ids < n)` visits
      when it starts at `cur` with room for `restante` more, and the value
      of `current` when it stops. */
  function Cadeia(ant: seq<int>, cur: int, restante: nat): (r: (seq<int>, int))
    requires -1 <= cur < |ant|
    requires forall i | 0 <= i < |ant| :: -1 <= ant[i] < |ant|
    ensures |r.0| <= restante && -1 <= r.1 < |ant|
    ensures r.1 == -1 || |r.0| == restante
    ensures forall t | 0 <= t < |r.0| :: 0 <= r.0[t] < |ant|
    ensures cur != -1 && restante > 0 ==> |r.0| > 0 && r.0[0] == cur
    decreases restante
  {
    if cur == -1 || restante == 0 then ([], cur)
    else
      var (c, f) := Cadeia(ant, ant[cur], restante - 1);
      ([cur] + c, f)
  }

  /** One turn of that loop: `cur` is recorded and its predecessor is next. */
  lemma CadeiaPasso(ant: seq<int>, cur: int, restante: nat)
    requires 0 <= cur < |ant| && restante > 0
    requires forall i | 0 <= i < |ant| :: -1 <= ant[i] < |ant|
    ensures var r := Cadeia(ant, ant[cur], restante - 1);
            Cadeia(ant, cur, restante) == ([cur] + r.0, r.1)
  {
  }

  /** The loop after one more turn: the positions it has recorded grow by
      `cur` and what is left to visit starts at the predecessor of `cur`. */
  lemma CadeiaAvanca(ant: seq<int>, ps: seq<int>, cur: int, restante: nat, total: (seq<int>, int))
    requires 0 <= cur < |ant| && restante > 0
    requires forall i | 0 <= i < |ant| :: -1 <= ant[i] < |ant|
    requires total == (ps + Cadeia(ant, cur, restante).0, Cadeia(ant, cur, restante).1)
    ensures total == ((ps + [cur]) + Cadeia(ant, ant[cur], restante - 1).0, Cadeia(ant, ant[cur], restante - 1).1)
  {
    CadeiaPasso(ant, cur, restante);
    var r := Cadeia(ant, ant[cur], restante - 1);
    assert ps + ([cur] + r.0) == (ps + [cur]) + r.0;
  }

  /** The ids of the vertices at the positions `ps`. */
  function IdsDe(vs: seq<Vertice>, ps: seq<int>): (r: seq<int>)
    requires forall t | 0 <= t < |ps| :: 0 <= ps[t] < |vs|
    ensures |r| == |ps| && forall t | 0 <= t < |ps| :: r[t] == vs[ps[t]].id
  {
    if ps == [] then [] else IdsDe(vs, ps[..|ps| - 1]) + [vs[ps[|ps| - 1]].id]
  }

  lemma IdsAnexar(vs: seq<Vertice>, ps: seq<int>, p: int)
    requires forall t | 0 <= t < |ps| :: 0 <= ps[t] < |vs|
    requires 0 <= p < |vs|
    ensures IdsDe(vs, ps + [p]) == IdsDe(vs, ps) + [vs[p].id]
  {
    assert (ps + [p])[..|ps|] == ps;
  }

  /** What the loop of `reconstruir_caminho` keeps: it has recorded the
      positions `ps`, whose ids are `ids`, and from `cur` with room for
      `restante` more it will complete the whole chain `total`. */
  ghost predicate Seguindo(vs: seq<Vertice>, ant: seq<int>, ps: seq<int>, ids: seq<int>,
                           cur: int, restante: nat, total: (seq<int>, int))
  {
    && |ant| == |vs|
    && (forall i | 0 <= i < |ant| :: -1 <= ant[i] < |ant|)
    && -1 <= cur < |ant|
    && (forall t | 0 <= t < |ps| :: 0 <= ps[t] < |vs|)
    && ids == IdsDe(vs, ps)
    && total == (ps + Cadeia(ant, cur, restante).0, Cadeia(ant, cur, restante).1)
  }

  /** Before the first turn nothing is recorded. */
  lemma SeguindoInicio(vs: seq<Vertice>, ant: seq<int>, d: int, n: nat)
    requires |ant| == |vs| && 0 <= d < |ant|
    requires forall i | 0 <= i < |ant| :: -1 <= ant[i] < |ant|
    ensures Seguindo(vs, ant, [], [], d, n, Cadeia(ant, d, n))
  {
    assert [] + Cadeia(ant, d, n).0 == Cadeia(ant, d, n).0;
  }

  /** One turn records `cur` and moves to its predecessor. */
  lemma SeguindoAvanca(vs: seq<Vertice>, ant: seq<int>, ps: seq<int>, ids: seq<int>,
                       cur: int, restante: nat, total: (seq<int>, int))
    requires Seguindo(vs, ant, ps, ids, cur, restante, total)
    requires cur != -1 && restante > 0
    ensures Seguindo(vs, ant, ps + [cur], ids + [vs[cur].id], ant[cur], restante - 1, total)
  {
    CadeiaAvanca(ant, ps, cur, restante, total);
    IdsAnexar(vs, ps, cur);
  }

  /** When the loop stops, what it recorded is the whole chain. */
  lemma SeguindoFim(vs: seq<Vertice>, ant: seq<int>, ps: seq<int>, ids: seq<int>,
                    cur: int, restante: nat, total: (seq<int>, int))
    requires Seguindo(vs, ant, ps, ids, cur, restante, total)
    requires cur == -1 || restante == 0
    ensures total == (ps, cur) && ids == IdsDe(vs, ps)
  {
    assert ps + [] == ps;
  }

  /** Looking the ids up commutes with reversing the positions. */
  lemma {:induction false} IdsReverso(vs: seq<Vertice>, ps: seq<int>)
    requires forall t | 0 <= t < |ps| :: 0 <= ps[t] < |vs|
    ensures IdsDe(vs, Reverso(ps)) == Reverso(IdsDe(vs, ps))
    decreases |ps|
  {
    if ps != [] {
      var q := ps[..|ps| - 1];
      var x := ps[|ps| - 1];
      assert Reverso(ps) == [x] + Reverso(q);
      IdsReverso(vs, q);
      IdsAntepor(vs, x, Reverso(q));
      ReversoAnexar(IdsDe(vs, q), vs[x].id);
    }
  }

  lemma IdsAntepor(vs: seq<Vertice>, x: int, ps: seq<int>)
    requires 0 <= x < |vs| && forall t | 0 <= t < |ps| :: 0 <= ps[t] < |vs|
    ensures IdsDe(vs, [x] + ps) == [vs[x].id] + IdsDe(vs, ps)
  {
    var a := IdsDe(vs, [x] + ps);
    var b := [vs[x].id] + IdsDe(vs, ps);
    forall t | 0 <= t < |a| ensures a[t] == b[t] {
      if t > 0 {
        assert ([x] + ps)[t] == ps[t - 1];
      }
    }
  }

  /** `ResultadoRota`: the ids from origin to destination, their number and
      the total distance. */
  datatype Rota = Rota(sequenciaIds: seq<int>, numIds: int, distanciaTotal: int)

  /**
   * `reconstruir_caminho(g, distancias, anteriores, _, d)`: no route when the
   * destination is unreached; otherwise the predecessors are followed from
   * `d` for at most n steps and the ids collected are reversed. The code as
   * written gives up when n ids were collected; the corrected code gives up
   * only when the loop stopped before reaching a position without a
   * predecessor.
   */
  function ReconstruirCaminho(vs: seq<Vertice>, e: Estado, d: int, corrigido: bool): (r: Option<Rota>)
    requires Bem(e, |vs|) && 0 <= d < |vs|
    ensures r.Some? ==> r.value.distanciaTotal == e.dist[d] != INT_MAX
    ensures r.Some? ==> r.value.numIds == |r.value.sequenciaIds| <= |vs|
    ensures r.Some? ==> |r.value.sequenciaIds| > 0 && r.value.sequenciaIds[|r.value.sequenciaIds| - 1] == vs[d].id
  {
    if e.dist[d] == INT_MAX then None
    else
      var (c, f) := Cadeia(e.ant, d, |vs|);
      if (corrigido && f != -1) || (!corrigido && |c| >= |vs|) then None
      else Some(Rota(Reverso(IdsDe(vs, c)), |c|, e.dist[d]))
  }

  /**
   * `calcular_rota(id_origem, id_destino)` on a graph with vertices `vs` and
   * adjacency lists `listas`: no route for equal or negative ids or for ids
   * that are not in the graph; otherwise Dijkstra from the origin and the
   * reconstruction towards the destination.
   */
  function CalcularRota(vs: seq<Vertice>, listas: seq<seq<Aresta>>, idOrigem: int, idDestino: int,
                        corrigido: bool): (r: Option<Rota>)
    requires |listas| == |vs|
    ensures r.Some? ==> idOrigem != idDestino && 0 <= idOrigem && 0 <= idDestino
    ensures r.Some? ==> IndiceDe(vs, idOrigem) != -1 && IndiceDe(vs, idDestino) != -1
  {
    if idOrigem == idDestino || idOrigem < 0 || idDestino < 0 then None
    else
      var o := IndiceDe(vs, idOrigem);
      var d := IndiceDe(vs, idDestino);
      if o == -1 || d == -1 then None
      else ReconstruirCaminho(vs, Executar(vs, listas, o, corrigido), d, corrigido)
  }
}
