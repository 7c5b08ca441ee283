/**
 * What the corrected `executar_dijkstra` computes, on any graph whose edge
 * lengths lie in 1..W with (n + 1) * W below INT_MAX: every distance it
 * returns is the length of a path the predecessors spell out, no walk from
 * the origin is shorter, and a distance is INT_MAX exactly when no walk
 * reaches the vertex.
 */
module DijkstraCorreto {
  import opened CTypes
  import opened Grafos
  import opened Dijkstra
  import opened Caminhos

  /** `k * w`, spelled out as repeated addition so that the proofs below
      stay within linear arithmetic. */
  function Vezes(k: nat, w: int): int {
    if k == 0 then 0 else Vezes(k - 1, w) + w
  }

  lemma {:induction false} VezesCresce(k: nat, m: nat, w: int)
    requires k <= m && 0 <= w
    ensures Vezes(k, w) <= Vezes(m, w)
    decreases m
  {
    if k < m {
      VezesCresce(k, m - 1, w);
    }
  }

  /** Edge lengths in 1..W, small enough that no sum along a path of at most
      n + 1 edges reaches INT_MAX. */
  predicate Limitado(vs: seq<Vertice>, listas: seq<seq<Aresta>>, w: int) {
    && |listas| == |vs| && 1 <= w && Vezes(|vs| + 1, w) < INT_MAX
    && forall u, j | 0 <= u < |listas| && 0 <= j < |listas[u]| :: 1 <= listas[u][j].distancia <= w
  }

  /** Entry `j` of the list of `p` leads to `i` and has length `w`. */
  predicate Liga(vs: seq<Vertice>, listas: seq<seq<Aresta>>, p: int, j: int, i: int, w: int)
    requires 0 <= p < |listas|
  {
    0 <= j < |listas[p]| && Alvo(vs, listas[p][j]) == i && listas[p][j].distancia == w
  }

  // The invariant of the main loop, one conjunct per predicate

  predicate NaoNegativas(e: Estado) {
    forall i | 0 <= i < |e.dist| :: 0 <= e.dist[i]
  }

  /** Every finite distance is at most `c`. */
  predicate Cota(e: Estado, c: int) {
    forall i | 0 <= i < |e.dist| :: e.dist[i] != INT_MAX ==> e.dist[i] <= c
  }

  predicate OrigemFixa(e: Estado, o: int)
    requires 0 <= o < |e.dist| == |e.ant|
  {
    e.dist[o] == 0 && e.ant[o] == -1
  }

  /** Only the origin and unreached vertices lack a predecessor. */
  predicate SemPredecessor(e: Estado, o: int)
    requires |e.dist| == |e.ant|
  {
    forall i | 0 <= i < |e.ant| :: e.ant[i] == -1 ==> i == o || e.dist[i] == INT_MAX
  }

  /** The predecessor of `i` is a visited vertex with a finite distance, and
      an entry of its list leads to `i` with length `dist[i] - dist[p]`. */
  predicate PredecessorOk(vs: seq<Vertice>, listas: seq<seq<Aresta>>, e: Estado, i: int)
    requires Bem(e, |vs|) && |listas| == |vs| && 0 <= i < |vs|
  {
    var p := e.ant[i];
    && 0 <= p < |vs| && e.vis[p] && e.dist[p] != INT_MAX && e.dist[i] != INT_MAX
    && exists j | 0 <= j < |listas[p]| ::
         Alvo(vs, listas[p][j]) == i && listas[p][j].distancia == e.dist[i] - e.dist[p]
  }

  predicate Predecessores(vs: seq<Vertice>, listas: seq<seq<Aresta>>, e: Estado)
    requires Bem(e, |vs|) && |listas| == |vs|
  {
    forall i | 0 <= i < |vs| :: e.ant[i] != -1 ==> PredecessorOk(vs, listas, e, i)
  }

  /** Visited vertices are no farther than unvisited ones. */
  predicate Ordenado(e: Estado)
    requires |e.dist| == |e.vis|
  {
    forall i, j | 0 <= i < |e.dist| && 0 <= j < |e.dist| && e.vis[i] && !e.vis[j] :: e.dist[i] <= e.dist[j]
  }

  /** Entry `j` of the list of `u` is settled: if `u` is reached and the
      entry leads somewhere, the destination is no farther than going
      through `u`. */
  predicate Assentada(vs: seq<Vertice>, listas: seq<seq<Aresta>>, e: Estado, u: int, j: int)
    requires Bem(e, |vs|) && |listas| == |vs| && 0 <= u < |vs| && 0 <= j < |listas[u]|
  {
    var v := Alvo(vs, listas[u][j]);
    e.dist[u] != INT_MAX && v != -1 ==> e.dist[v] <= e.dist[u] + listas[u][j].distancia
  }

  /** Every entry of every visited vertex is settled, except the entries from
      `j` on of the vertex `u` whose list is being walked. */
  predicate AssentadasExceto(vs: seq<Vertice>, listas: seq<seq<Aresta>>, e: Estado, u: int, j: int)
    requires Bem(e, |vs|) && |listas| == |vs|
  {
    forall x, k | 0 <= x < |vs| && 0 <= k < |listas[x]| && e.vis[x] && (x != u || k < j) ::
      Assentada(vs, listas, e, x, k)
  }

  /** The invariant of the main loop of the corrected code: in particular no
      finite distance exceeds W times the number of visited vertices. */
  predicate Invariante(vs: seq<Vertice>, listas: seq<seq<Aresta>>, w: int, o: int, e: Estado)
  {
    && Limitado(vs, listas, w) && 0 <= o < |vs| && Bem(e, |vs|)
    && NaoNegativas(e) && Cota(e, Vezes(Conta(e.vis), w)) && OrigemFixa(e, o) && SemPredecessor(e, o)
    && Predecessores(vs, listas, e) && Ordenado(e) && AssentadasExceto(vs, listas, e, -1, 0)
  }

  /** The invariant of the inner loop, while the list of the visited vertex
      `u` is walked from entry `j`, during the turn whose bound is `c`. */
  predicate InvRelaxar(vs: seq<Vertice>, listas: seq<seq<Aresta>>, w: int, o: int, e: Estado, u: int, j: nat, c: int)
  {
    && Limitado(vs, listas, w) && 0 <= o < |vs| && Bem(e, |vs|)
    && 0 <= u < |vs| && e.vis[u] && j <= |listas[u]| && c < INT_MAX
    && (e.dist[u] != INT_MAX ==> e.dist[u] + w <= c)
    && (forall x | 0 <= x < |vs| && e.vis[x] :: e.dist[x] <= e.dist[u])
    && NaoNegativas(e) && Cota(e, c) && OrigemFixa(e, o) && SemPredecessor(e, o)
    && Predecessores(vs, listas, e) && Ordenado(e) && AssentadasExceto(vs, listas, e, u, j)
  }

  /** An entry that does not relax its destination is settled already. */
  lemma SemMelhoraAssenta(vs: seq<Vertice>, listas: seq<seq<Aresta>>, w: int, o: int, e: Estado, u: int, j: nat, c: int)
    requires InvRelaxar(vs, listas, w, o, e, u, j, c) && j < |listas[u]|
    requires !Melhora(vs, e, u, listas[u][j], true)
    ensures InvRelaxar(vs, listas, w, o, e, u, j + 1, c)
  {
    var a := listas[u][j];
    var v := Alvo(vs, a);
    if e.dist[u] != INT_MAX && v != -1 {
      assert 1 <= a.distancia <= w;
      if !e.vis[v] {
        assert Wrap32(e.dist[u] + a.distancia) == e.dist[u] + a.distancia;
      }
      assert Assentada(vs, listas, e, u, j);
    }
  }

  /** The new distance of a relaxed entry, `dist[u] + length`, fits in an
      `int`, stays within the bound of the turn and is above `dist[u]`. */
  lemma MelhoraSemEstouro(vs: seq<Vertice>, listas: seq<seq<Aresta>>, w: int, o: int, e: Estado, u: int, j: nat, c: int)
    requires InvRelaxar(vs, listas, w, o, e, u, j, c) && j < |listas[u]|
    requires Melhora(vs, e, u, listas[u][j], true)
    ensures var nd := e.dist[u] + listas[u][j].distancia;
            && Wrap32(nd) == nd && e.dist[u] < nd <= c < INT_MAX
            && nd < e.dist[Alvo(vs, listas[u][j])]
  {
    assert 1 <= listas[u][j].distancia <= w;
  }

  /** The destination of a relaxing entry is an unvisited vertex other than
      the origin, and its new distance lies above `dist[u]` within the bound
      of the turn. */
  lemma MelhoraAlvo(vs: seq<Vertice>, listas: seq<seq<Aresta>>, w: int, o: int, e: Estado, u: int, j: nat, c: int)
    requires InvRelaxar(vs, listas, w, o, e, u, j, c) && j < |listas[u]|
    requires Melhora(vs, e, u, listas[u][j], true)
    ensures var a := listas[u][j];
            var v := Alvo(vs, a);
            && 0 <= v < |vs| && v != o && v != u && !e.vis[v]
            && e.dist[u] < e.dist[u] + a.distancia <= c
  {
    MelhoraSemEstouro(vs, listas, w, o, e, u, j, c);
  }

  /** A relaxation whose sum does not wrap around stores the plain sum. */
  lemma RelaxarSemEstouro(vs: seq<Vertice>, e: Estado, u: int, a: Aresta)
    requires Bem(e, |vs|) && 0 <= u < |vs| && Melhora(vs, e, u, a, true)
    requires Wrap32(e.dist[u] + a.distancia) == e.dist[u] + a.distancia
    ensures var r := RelaxarAresta(vs, e, u, a, true);
            && r.dist == e.dist[Alvo(vs, a) := e.dist[u] + a.distancia]
            && r.ant == e.ant[Alvo(vs, a) := u] && r.vis == e.vis
  {
  }

  lemma MelhoraPredecessores(vs: seq<Vertice>, listas: seq<seq<Aresta>>, w: int, o: int, e: Estado, u: int, j: nat, c: int)
    requires InvRelaxar(vs, listas, w, o, e, u, j, c) && j < |listas[u]|
    requires Melhora(vs, e, u, listas[u][j], true)
    ensures Predecessores(vs, listas, RelaxarAresta(vs, e, u, listas[u][j], true))
  {
    MelhoraSemEstouro(vs, listas, w, o, e, u, j, c);
    MelhoraAlvo(vs, listas, w, o, e, u, j, c);
    RelaxarSemEstouro(vs, e, u, listas[u][j]);
    var r := RelaxarAresta(vs, e, u, listas[u][j], true);
    var v := Alvo(vs, listas[u][j]);
    forall i | 0 <= i < |vs| && r.ant[i] != -1 ensures PredecessorOk(vs, listas, r, i) {
      if i == v {
        assert Alvo(vs, listas[u][j]) == i && listas[u][j].distancia == r.dist[i] - r.dist[u];
      } else {
        assert PredecessorOk(vs, listas, e, i);
        var p := e.ant[i];
        assert p != v;
        var k :| 0 <= k < |listas[p]| && Alvo(vs, listas[p][k]) == i && listas[p][k].distancia == e.dist[i] - e.dist[p];
        assert listas[p][k].distancia == r.dist[i] - r.dist[p];
      }
    }
  }

  lemma MelhoraOrdenado(vs: seq<Vertice>, listas: seq<seq<Aresta>>, w: int, o: int, e: Estado, u: int, j: nat, c: int)
    requires InvRelaxar(vs, listas, w, o, e, u, j, c) && j < |listas[u]|
    requires Melhora(vs, e, u, listas[u][j], true)
    ensures Ordenado(RelaxarAresta(vs, e, u, listas[u][j], true))
  {
    MelhoraSemEstouro(vs, listas, w, o, e, u, j, c);
    MelhoraAlvo(vs, listas, w, o, e, u, j, c);
    RelaxarSemEstouro(vs, e, u, listas[u][j]);
  }

  lemma MelhoraAssentadas(vs: seq<Vertice>, listas: seq<seq<Aresta>>, w: int, o: int, e: Estado, u: int, j: nat, c: int)
    requires InvRelaxar(vs, listas, w, o, e, u, j, c) && j < |listas[u]|
    requires Melhora(vs, e, u, listas[u][j], true)
    ensures AssentadasExceto(vs, listas, RelaxarAresta(vs, e, u, listas[u][j], true), u, j + 1)
  {
    MelhoraSemEstouro(vs, listas, w, o, e, u, j, c);
    MelhoraAlvo(vs, listas, w, o, e, u, j, c);
    RelaxarSemEstouro(vs, e, u, listas[u][j]);
    var r := RelaxarAresta(vs, e, u, listas[u][j], true);
    forall x, k | 0 <= x < |vs| && 0 <= k < |listas[x]| && r.vis[x] && (x != u || k < j + 1)
      ensures Assentada(vs, listas, r, x, k)
    {
      if x != u || k < j {
        assert Assentada(vs, listas, e, x, k);
      }
    }
  }

  /** One turn of the inner loop keeps its invariant and settles the entry. */
  lemma RelaxarArestaInv(vs: seq<Vertice>, listas: seq<seq<Aresta>>, w: int, o: int, e: Estado, u: int, j: nat, c: int)
    requires InvRelaxar(vs, listas, w, o, e, u, j, c) && j < |listas[u]|
    ensures InvRelaxar(vs, listas, w, o, RelaxarAresta(vs, e, u, listas[u][j], true), u, j + 1, c)
  {
    if Melhora(vs, e, u, listas[u][j], true) {
      MelhoraSemEstouro(vs, listas, w, o, e, u, j, c);
      MelhoraAlvo(vs, listas, w, o, e, u, j, c);
      RelaxarSemEstouro(vs, e, u, listas[u][j]);
      MelhoraPredecessores(vs, listas, w, o, e, u, j, c);
      MelhoraOrdenado(vs, listas, w, o, e, u, j, c);
      MelhoraAssentadas(vs, listas, w, o, e, u, j, c);
    } else {
      SemMelhoraAssenta(vs, listas, w, o, e, u, j, c);
    }
  }

  /** The whole inner loop keeps its invariant and settles every entry. */
  lemma {:induction false} RelaxarInv(vs: seq<Vertice>, listas: seq<seq<Aresta>>, w: int, o: int, e: Estado, u: int, j: nat, c: int)
    requires InvRelaxar(vs, listas, w, o, e, u, j, c)
    ensures InvRelaxar(vs, listas, w, o, Relaxar(vs, e, u, listas[u][j..], true), u, |listas[u]|, c)
    decreases |listas[u]| - j
  {
    if j < |listas[u]| {
      RelaxarArestaInv(vs, listas, w, o, e, u, j, c);
      assert listas[u][j..][1..] == listas[u][j + 1..];
      RelaxarInv(vs, listas, w, o, RelaxarAresta(vs, e, u, listas[u][j], true), u, j + 1, c);
    } else {
      assert listas[u][j..] == [];
    }
  }

  lemma VezesMais(k: nat, w: int)
    ensures Vezes(k + 1, w) == Vezes(k, w) + w
  {
  }

  /** The bound of the turn that visits `u`: W more than the previous one,
      still below INT_MAX. */
  lemma MarcarCota(vs: seq<Vertice>, listas: seq<seq<Aresta>>, w: int, e: Estado, u: int)
    requires Limitado(vs, listas, w) && Bem(e, |vs|) && 0 <= u < |vs| && !e.vis[u]
    requires Cota(e, Vezes(Conta(e.vis), w))
    ensures var c := Vezes(Conta(e.vis[u := true]), w);
            && c < INT_MAX && Cota(e, c) && (e.dist[u] != INT_MAX ==> e.dist[u] + w <= c)
  {
    ContaMarcar(e.vis, u);
    VezesMais(Conta(e.vis), w);
    VezesCresce(Conta(e.vis) + 1, |vs| + 1, w);
  }

  lemma MarcarPredecessores(vs: seq<Vertice>, listas: seq<seq<Aresta>>, e: Estado, u: int)
    requires Bem(e, |vs|) && |listas| == |vs| && 0 <= u < |vs|
    requires Predecessores(vs, listas, e)
    ensures Predecessores(vs, listas, e.(vis := e.vis[u := true]))
  {
    var e1 := e.(vis := e.vis[u := true]);
    forall i | 0 <= i < |vs| && e1.ant[i] != -1 ensures PredecessorOk(vs, listas, e1, i) {
      assert PredecessorOk(vs, listas, e, i);
    }
  }

  lemma MarcarAssentadas(vs: seq<Vertice>, listas: seq<seq<Aresta>>, e: Estado, u: int)
    requires Bem(e, |vs|) && |listas| == |vs| && 0 <= u < |vs|
    requires AssentadasExceto(vs, listas, e, -1, 0)
    ensures AssentadasExceto(vs, listas, e.(vis := e.vis[u := true]), u, 0)
  {
    var e1 := e.(vis := e.vis[u := true]);
    forall x, k | 0 <= x < |vs| && 0 <= k < |listas[x]| && e1.vis[x] && x != u
      ensures Assentada(vs, listas, e1, x, k)
    {
      assert Assentada(vs, listas, e, x, k);
    }
  }

  /** The vertex the scan picks is at least as far as every visited vertex
      and no farther than any unvisited one. */
  lemma MarcarOrdenado(e: Estado, u: int)
    requires |e.dist| == |e.vis| && (forall i | 0 <= i < |e.dist| :: e.dist[i] <= INT_MAX)
    requires Ordenado(e) && u == MenorDistancia(e.dist, e.vis) && u != -1
    ensures Ordenado(e.(vis := e.vis[u := true]))
    ensures forall x | 0 <= x < |e.dist| && e.vis[u := true][x] :: e.dist[x] <= e.dist[u]
  {
  }

  /** Marking the vertex the scan picks sets up the inner loop's invariant. */
  lemma MarcarInv(vs: seq<Vertice>, listas: seq<seq<Aresta>>, w: int, o: int, e: Estado, u: int)
    requires Invariante(vs, listas, w, o, e)
    requires u == MenorDistancia(e.dist, e.vis) && u != -1
    ensures var e1 := e.(vis := e.vis[u := true]);
            InvRelaxar(vs, listas, w, o, e1, u, 0, Vezes(Conta(e1.vis), w))
  {
    MarcarCota(vs, listas, w, e, u);
    MarcarPredecessores(vs, listas, e, u);
    MarcarAssentadas(vs, listas, e, u);
    MarcarOrdenado(e, u);
  }

  /** A turn of the main loop keeps the invariant. */
  lemma PassoInv(vs: seq<Vertice>, listas: seq<seq<Aresta>>, w: int, o: int, e: Estado)
    requires Invariante(vs, listas, w, o, e)
    ensures Invariante(vs, listas, w, o, Passo(vs, listas, e, true))
  {
    var u := MenorDistancia(e.dist, e.vis);
    if u != -1 {
      var e1 := e.(vis := e.vis[u := true]);
      MarcarInv(vs, listas, w, o, e, u);
      RelaxarInv(vs, listas, w, o, e1, u, 0, Vezes(Conta(e1.vis), w));
      assert listas[u][0..] == listas[u];
    }
  }

  lemma InicialInv(vs: seq<Vertice>, listas: seq<seq<Aresta>>, w: int, o: int)
    requires Limitado(vs, listas, w) && 0 <= o < |vs|
    ensures Invariante(vs, listas, w, o, Inicial(|vs|, o))
  {
    ContaVazia(Inicial(|vs|, o).vis);
  }

  /** A property of states that every turn of the main loop keeps holds
      after any number of turns. */
  lemma {:induction false} IterarPreserva(vs: seq<Vertice>, listas: seq<seq<Aresta>>, p: Estado -> bool, e: Estado, k: nat)
    requires |listas| == |vs| && Bem(e, |vs|) && p(e)
    requires forall x {:trigger Passo(vs, listas, x, true)} | Bem(x, |vs|) && p(x) :: p(Passo(vs, listas, x, true))
    ensures p(Iterar(vs, listas, e, k, true))
    decreases k
  {
    if k > 0 {
      IterarPreserva(vs, listas, p, Passo(vs, listas, e, true), k - 1);
    }
  }

  lemma IterarInv(vs: seq<Vertice>, listas: seq<seq<Aresta>>, w: int, o: int, e: Estado, k: nat)
    requires Invariante(vs, listas, w, o, e)
    ensures Invariante(vs, listas, w, o, Iterar(vs, listas, e, k, true))
  {
    var p := (x: Estado) => Invariante(vs, listas, w, o, x);
    forall x | Bem(x, |vs|) && p(x) ensures p(Passo(vs, listas, x, true)) {
      PassoInv(vs, listas, w, o, x);
    }
    IterarPreserva(vs, listas, p, e, k);
  }

  /** The corrected `executar_dijkstra` returns with every vertex visited and
      the loop invariant holding. */
  lemma ExecutarInv(vs: seq<Vertice>, listas: seq<seq<Aresta>>, w: int, o: int)
    requires Limitado(vs, listas, w) && 0 <= o < |vs|
    ensures Invariante(vs, listas, w, o, Executar(vs, listas, o, true))
    ensures forall i | 0 <= i < |vs| :: Executar(vs, listas, o, true).vis[i]
  {
    InicialInv(vs, listas, w, o);
    IterarInv(vs, listas, w, o, Inicial(|vs|, o), |vs|);
    ExecutarVisitaTodos(vs, listas, o, true);
  }

  // The arrays the corrected code returns

  /** The number of entries of `s` below `t`. */
  function Abaixo(s: seq<int>, t: int): (r: nat)
    ensures r <= |s|
  {
    if s == [] then 0 else Abaixo(s[..|s| - 1], t) + (if s[|s| - 1] < t then 1 else 0)
  }

  lemma {:induction false} AbaixoMonotono(s: seq<int>, t1: int, t2: int)
    requires t1 <= t2
    ensures Abaixo(s, t1) <= Abaixo(s, t2)
    decreases |s|
  {
    if s != [] {
      AbaixoMonotono(s[..|s| - 1], t1, t2);
    }
  }

  /** An entry in [t1, t2) makes the count below t2 exceed the count below t1. */
  lemma {:induction false} AbaixoEstrito(s: seq<int>, t1: int, t2: int, x: int)
    requires 0 <= x < |s| && t1 <= s[x] < t2
    ensures Abaixo(s, t1) < Abaixo(s, t2)
    decreases |s|
  {
    if x == |s| - 1 {
      AbaixoMonotono(s[..|s| - 1], t1, t2);
    } else {
      assert s[..|s| - 1][x] == s[x];
      AbaixoEstrito(s[..|s| - 1], t1, t2, x);
    }
  }

  /** No entry is below itself, so fewer than |s| entries are below s[x]. */
  lemma {:induction false} AbaixoProprio(s: seq<int>, x: int)
    requires 0 <= x < |s|
    ensures Abaixo(s, s[x]) < |s|
    decreases |s|
  {
    if x < |s| - 1 {
      assert s[..|s| - 1][x] == s[x];
      AbaixoProprio(s[..|s| - 1], x);
    }
  }

  /** Dropping the last step of a walk leaves a walk ending where that step
      starts. */
  lemma TrilhaPrefixo(vs: seq<Vertice>, listas: seq<seq<Aresta>>, o: int, ls: seq<Lance>)
    requires |listas| == |vs| && Trilha(vs, listas, o, ls) && |ls| > 0
    ensures Trilha(vs, listas, o, ls[..|ls| - 1])
    ensures Chegada(vs, listas, o, ls[..|ls| - 1]) == ls[|ls| - 1].de
  {
    var p := ls[..|ls| - 1];
    if |p| > 0 {
      assert Alvo(vs, listas[ls[|ls| - 2].de][ls[|ls| - 2].entrada]) == ls[|ls| - 1].de;
    }
  }

  /** The empty walk stays at the origin and costs nothing. */
  lemma TrilhaVazia(vs: seq<Vertice>, listas: seq<seq<Aresta>>, o: int)
    requires |listas| == |vs| && 0 <= o < |vs|
    ensures Trilha(vs, listas, o, []) && Chegada(vs, listas, o, []) == o
    ensures Custo(listas, []) == 0 && Pontos(vs, listas, o, []) == [o]
  {
  }

  /** Extending a walk by an entry of the list of the position it ends at. */
  lemma TrilhaEstender(vs: seq<Vertice>, listas: seq<seq<Aresta>>, o: int, ls: seq<Lance>, p: int, j: int)
    requires |listas| == |vs| && Trilha(vs, listas, o, ls)
    requires Chegada(vs, listas, o, ls) == p && 0 <= p < |vs| && 0 <= j < |listas[p]|
    ensures var ls1 := ls + [Lance(p, j)];
            && Trilha(vs, listas, o, ls1)
            && Chegada(vs, listas, o, ls1) == Alvo(vs, listas[p][j])
            && Custo(listas, ls1) == Custo(listas, ls) + listas[p][j].distancia
            && Pontos(vs, listas, o, ls1) == Pontos(vs, listas, o, ls) + [Alvo(vs, listas[p][j])]
  {
    EstenderTrilha(vs, listas, o, ls, p, j);
    EstenderCusto(listas, ls, p, j);
    EstenderPontos(vs, listas, o, ls, p, j);
  }

  lemma EstenderTrilha(vs: seq<Vertice>, listas: seq<seq<Aresta>>, o: int, ls: seq<Lance>, p: int, j: int)
    requires |listas| == |vs| && Trilha(vs, listas, o, ls)
    requires Chegada(vs, listas, o, ls) == p && 0 <= p < |vs| && 0 <= j < |listas[p]|
    ensures Trilha(vs, listas, o, ls + [Lance(p, j)])
    ensures Chegada(vs, listas, o, ls + [Lance(p, j)]) == Alvo(vs, listas[p][j])
  {
    var ls1 := ls + [Lance(p, j)];
    if |ls| > 0 {
      assert Alvo(vs, listas[ls1[|ls| - 1].de][ls1[|ls| - 1].entrada]) == ls1[|ls|].de;
    }
  }

  lemma EstenderCusto(listas: seq<seq<Aresta>>, ls: seq<Lance>, p: int, j: int)
    requires forall t | 0 <= t < |ls| :: 0 <= ls[t].de < |listas| && 0 <= ls[t].entrada < |listas[ls[t].de]|
    requires 0 <= p < |listas| && 0 <= j < |listas[p]|
    ensures Custo(listas, ls + [Lance(p, j)]) == Custo(listas, ls) + listas[p][j].distancia
  {
    var ls1 := ls + [Lance(p, j)];
    assert ls1[..|ls1| - 1] == ls;
  }

  lemma EstenderPontos(vs: seq<Vertice>, listas: seq<seq<Aresta>>, o: int, ls: seq<Lance>, p: int, j: int)
    requires |listas| == |vs| && Trilha(vs, listas, o, ls)
    requires Chegada(vs, listas, o, ls) == p && 0 <= p < |vs| && 0 <= j < |listas[p]|
    ensures Trilha(vs, listas, o, ls + [Lance(p, j)])
    ensures Pontos(vs, listas, o, ls + [Lance(p, j)]) == Pontos(vs, listas, o, ls) + [Alvo(vs, listas[p][j])]
  {
    EstenderTrilha(vs, listas, o, ls, p, j);
    var q := Pontos(vs, listas, o, ls + [Lance(p, j)]);
    assert forall t | 0 <= t < |q| :: q[t] == (Pontos(vs, listas, o, ls) + [Alvo(vs, listas[p][j])])[t];
  }

  /** The corrected code has finished: the invariant holds and every vertex
      is visited. */
  predicate Terminado(vs: seq<Vertice>, listas: seq<seq<Aresta>>, w: int, o: int, e: Estado) {
    Invariante(vs, listas, w, o, e) && forall i | 0 <= i < |e.vis| :: e.vis[i]
  }

  /** No walk from the origin is shorter than the distance returned for the
      position it ends at. */
  lemma {:induction false} LimiteInferior(vs: seq<Vertice>, listas: seq<seq<Aresta>>, w: int, o: int, e: Estado, ls: seq<Lance>)
    requires Terminado(vs, listas, w, o, e) && Trilha(vs, listas, o, ls)
    requires Chegada(vs, listas, o, ls) != -1
    ensures e.dist[Chegada(vs, listas, o, ls)] <= Custo(listas, ls)
    decreases |ls|
  {
    if ls != [] {
      var l := ls[|ls| - 1];
      TrilhaPrefixo(vs, listas, o, ls);
      LimiteInferior(vs, listas, w, o, e, ls[..|ls| - 1]);
      assert Assentada(vs, listas, e, l.de, l.entrada);
    }
  }

  /** Every position a walk from the origin reaches gets a distance of at
      most n * W, so a finite one. */
  lemma {:induction false} AlcancadoFinito(vs: seq<Vertice>, listas: seq<seq<Aresta>>, w: int, o: int, e: Estado, ls: seq<Lance>)
    requires Terminado(vs, listas, w, o, e) && Trilha(vs, listas, o, ls)
    requires Chegada(vs, listas, o, ls) != -1
    ensures e.dist[Chegada(vs, listas, o, ls)] <= Vezes(|vs|, w) < INT_MAX
    decreases |ls|
  {
    ContaTodos(e.vis);
    VezesMais(|vs|, w);
    if ls != [] {
      var l := ls[|ls| - 1];
      TrilhaPrefixo(vs, listas, o, ls);
      AlcancadoFinito(vs, listas, w, o, e, ls[..|ls| - 1]);
      assert Assentada(vs, listas, e, l.de, l.entrada);
      assert 1 <= listas[l.de][l.entrada].distancia <= w;
    }
  }

  /** Entry `j` of the list of `p` has a positive length. */
  predicate Positiva(listas: seq<seq<Aresta>>, p: int, j: int)
    requires 0 <= p < |listas| && 0 <= j < |listas[p]|
  {
    1 <= listas[p][j].distancia
  }

  /** What the predecessors of a state must satisfy for the chains through
      them to lead back to the origin. */
  predicate Arvore(vs: seq<Vertice>, listas: seq<seq<Aresta>>, o: int, e: Estado) {
    && |listas| == |vs| && 0 <= o < |vs| && Bem(e, |vs|)
    && (forall p, j | 0 <= p < |listas| && 0 <= j < |listas[p]| :: Positiva(listas, p, j))
    && OrigemFixa(e, o) && SemPredecessor(e, o) && Predecessores(vs, listas, e)
  }

  lemma InvarianteArvore(vs: seq<Vertice>, listas: seq<seq<Aresta>>, w: int, o: int, e: Estado)
    requires Invariante(vs, listas, w, o, e)
    ensures Arvore(vs, listas, o, e)
  {
  }

  /** Along the predecessors of reached positions the number of positions
      at a smaller distance strictly drops, and only the origin is reached
      without a predecessor. */
  predicate Desce(ant: seq<int>, dist: seq<int>, o: int)
    requires |ant| == |dist|
    requires forall k | 0 <= k < |ant| :: -1 <= ant[k] < |ant|
  {
    && (forall k | 0 <= k < |ant| && dist[k] != INT_MAX && ant[k] != -1 ::
          dist[ant[k]] != INT_MAX && Abaixo(dist, dist[ant[k]]) < Abaixo(dist, dist[k]))
    && (forall k | 0 <= k < |ant| && dist[k] != INT_MAX && ant[k] == -1 :: k == o)
  }

  lemma ArvoreDesce(vs: seq<Vertice>, listas: seq<seq<Aresta>>, o: int, e: Estado)
    requires Arvore(vs, listas, o, e)
    ensures Desce(e.ant, e.dist, o)
  {
    forall k | 0 <= k < |e.ant| && e.dist[k] != INT_MAX && e.ant[k] != -1
      ensures e.dist[e.ant[k]] != INT_MAX && Abaixo(e.dist, e.dist[e.ant[k]]) < Abaixo(e.dist, e.dist[k])
    {
      var p := e.ant[k];
      assert PredecessorOk(vs, listas, e, k);
      var j :| 0 <= j < |listas[p]| && Alvo(vs, listas[p][j]) == k && listas[p][j].distancia == e.dist[k] - e.dist[p];
      assert Positiva(listas, p, j);
      AbaixoEstrito(e.dist, e.dist[p], e.dist[k], p);
    }
  }

  /** The chain from a reached position ends at -1 after the origin, within
      one more step than there are positions at a smaller distance. */
  lemma {:induction false} CadeiaDesce(ant: seq<int>, dist: seq<int>, o: int, i: int, restante: nat)
    requires |ant| == |dist| && (forall k | 0 <= k < |ant| :: -1 <= ant[k] < |ant|)
    requires Desce(ant, dist, o)
    requires 0 <= i < |ant| && dist[i] != INT_MAX && restante > Abaixo(dist, dist[i])
    ensures Cadeia(ant, i, restante).1 == -1
    ensures 0 < |Cadeia(ant, i, restante).0| <= Abaixo(dist, dist[i]) + 1
    ensures Cadeia(ant, i, restante).0[|Cadeia(ant, i, restante).0| - 1] == o
    decreases restante
  {
    var p := ant[i];
    CadeiaPasso(ant, i, restante);
    var c0 := Cadeia(ant, p, restante - 1).0;
    assert Cadeia(ant, i, restante).0 == [i] + c0;
    if p == -1 {
      assert i == o && c0 == [];
    } else {
      assert dist[p] != INT_MAX && Abaixo(dist, dist[p]) < Abaixo(dist, dist[i]);
      CadeiaDesce(ant, dist, o, p, restante - 1);
      assert ([i] + c0)[|c0|] == c0[|c0| - 1];
    }
  }

  /** From a reached position the predecessors lead back to the origin in
      fewer steps than there are positions at a smaller distance, plus one:
      the loop of `reconstruir_caminho` stops at -1 after the origin. */
  lemma CadeiaTermina(vs: seq<Vertice>, listas: seq<seq<Aresta>>, o: int, e: Estado, i: int, restante: nat)
    requires Arvore(vs, listas, o, e) && 0 <= i < |vs| && e.dist[i] != INT_MAX
    requires restante > Abaixo(e.dist, e.dist[i])
    ensures Cadeia(e.ant, i, restante).1 == -1
    ensures 0 < |Cadeia(e.ant, i, restante).0| <= Abaixo(e.dist, e.dist[i]) + 1
    ensures Cadeia(e.ant, i, restante).0[|Cadeia(e.ant, i, restante).0| - 1] == o
  {
    ArvoreDesce(vs, listas, o, e);
    CadeiaDesce(e.ant, e.dist, o, i, restante);
  }

  /** The walk the chain from `i` spells out, built back from the origin. */
  lemma TrilhaDaCadeia(vs: seq<Vertice>, listas: seq<seq<Aresta>>, o: int, e: Estado, i: int, restante: nat)
    returns (ls: seq<Lance>)
    requires Arvore(vs, listas, o, e) && 0 <= i < |vs| && e.dist[i] != INT_MAX
    requires restante > Abaixo(e.dist, e.dist[i])
    ensures Trilha(vs, listas, o, ls) && Chegada(vs, listas, o, ls) == i
    ensures Custo(listas, ls) == e.dist[i]
    ensures Pontos(vs, listas, o, ls) == Reverso(Cadeia(e.ant, i, restante).0)
  {
    ArvoreDesce(vs, listas, o, e);
    ls := TrilhaDesce(vs, listas, o, e, i, restante);
  }

  /** The same walk, built by induction on the chain with only what the
      induction needs: the ranks drop and every predecessor has its entry. */
  lemma {:induction false} TrilhaDesce(vs: seq<Vertice>, listas: seq<seq<Aresta>>, o: int, e: Estado, i: int, restante: nat)
    returns (ls: seq<Lance>)
    requires |listas| == |vs| && 0 <= o < |vs| && Bem(e, |vs|) && e.dist[o] == 0
    requires Desce(e.ant, e.dist, o) && Predecessores(vs, listas, e)
    requires 0 <= i < |vs| && e.dist[i] != INT_MAX && restante > Abaixo(e.dist, e.dist[i])
    ensures Trilha(vs, listas, o, ls) && Chegada(vs, listas, o, ls) == i
    ensures Custo(listas, ls) == e.dist[i]
    ensures Pontos(vs, listas, o, ls) == Reverso(Cadeia(e.ant, i, restante).0)
    decreases restante
  {
    var p := e.ant[i];
    CadeiaPasso(e.ant, i, restante);
    if p == -1 {
      assert i == o;
      TrilhaVazia(vs, listas, o);
      ls := [];
    } else {
      assert PredecessorOk(vs, listas, e, i);
      var j :| 0 <= j < |listas[p]| && Alvo(vs, listas[p][j]) == i && listas[p][j].distancia == e.dist[i] - e.dist[p];
      var ls0 := TrilhaDesce(vs, listas, o, e, p, restante - 1);
      ls := ls0 + [Lance(p, j)];
      TrilhaAnterior(vs, listas, o, ls0, p, j, i, e.dist[p], e.dist[i],
                     Cadeia(e.ant, p, restante - 1).0, Cadeia(e.ant, i, restante).0);
    }
  }

  /** A walk to the predecessor `p` extended by the entry `j` of its list
      that leads to `i`. */
  lemma TrilhaAnterior(vs: seq<Vertice>, listas: seq<seq<Aresta>>, o: int, ls0: seq<Lance>, p: int, j: int, i: int,
                       dp: int, di: int, c0: seq<int>, c: seq<int>)
    requires |listas| == |vs| && Trilha(vs, listas, o, ls0)
    requires Chegada(vs, listas, o, ls0) == p && 0 <= p < |vs| && 0 <= j < |listas[p]|
    requires Alvo(vs, listas[p][j]) == i
    requires Custo(listas, ls0) == dp && listas[p][j].distancia == di - dp
    requires Pontos(vs, listas, o, ls0) == Reverso(c0) && c == [i] + c0
    ensures Trilha(vs, listas, o, ls0 + [Lance(p, j)]) && Chegada(vs, listas, o, ls0 + [Lance(p, j)]) == i
    ensures Custo(listas, ls0 + [Lance(p, j)]) == di
    ensures Pontos(vs, listas, o, ls0 + [Lance(p, j)]) == Reverso(c)
  {
    TrilhaEstender(vs, listas, o, ls0, p, j);
    ReversoAntepor(i, c0);
  }

  /** The positions of that chain, reversed, are a walk from the origin to
      `i` whose length is the distance of `i`. */
  lemma CadeiaTrilha(vs: seq<Vertice>, listas: seq<seq<Aresta>>, o: int, e: Estado, i: int, restante: nat)
    requires Arvore(vs, listas, o, e) && 0 <= i < |vs| && e.dist[i] != INT_MAX
    requires restante > Abaixo(e.dist, e.dist[i])
    ensures exists ls :: && Trilha(vs, listas, o, ls) && Chegada(vs, listas, o, ls) == i
                         && Custo(listas, ls) == e.dist[i]
                         && Pontos(vs, listas, o, ls) == Reverso(Cadeia(e.ant, i, restante).0)
  {
    var ls := TrilhaDaCadeia(vs, listas, o, e, i, restante);
  }
}
