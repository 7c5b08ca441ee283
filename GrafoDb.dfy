/**
 * Loading the static dataset into a graph (backend/grafo_db.c): one
 * `adicionar_vertice` per vertex entry, then one `adicionar_aresta` per edge
 * entry, both in table order.
 */
module GrafoDb {
  import opened CTypes
  import opened GrafoData
  import opened Grafos

  /** The record `adicionar_vertice` stores for one entry of the table. */
  function VerticeDe(d: VerticeData): (r: Vertice)
    ensures r.id == d.id && r.tipo == d.tipo && r.x == d.x && r.y == d.y
  {
    NovoVertice(d.id, CString(d.nome), CString(d.categoria), CString(d.rua), d.tipo, d.x, d.y)
  }

  /** The records stored for a sequence of table entries, in order. */
  function VerticesDe(t: seq<VerticeData>): (r: seq<Vertice>)
    ensures |r| == |t| && forall i | 0 <= i < |t| :: r[i] == VerticeDe(t[i])
  {
    seq(|t|, i requires 0 <= i < |t| => VerticeDe(t[i]))
  }

  lemma VerticesDeAnexar(t: seq<VerticeData>, i: int)
    requires 0 <= i < |t|
    ensures VerticesDe(t[..i + 1]) == VerticesDe(t[..i]) + [VerticeDe(t[i])]
  {
    assert t[..i + 1][..i] == t[..i];
  }

  /** `n` empty adjacency lists. */
  function Vazias(n: nat): (r: seq<seq<Aresta>>)
    ensures |r| == n && forall i | 0 <= i < n :: r[i] == []
  {
    seq(n, _ => [])
  }

  lemma VaziasAnexar(n: nat)
    ensures Vazias(n) + [[]] == Vazias(n + 1)
  {
    var vazia: seq<Aresta> := [];
    assert forall k | 0 <= k <= n :: (Vazias(n) + [vazia])[k] == vazia;
  }

  lemma PassoVertices(inicio: seq<Vertice>, t: seq<VerticeData>, i: int)
    requires 0 <= i < |t|
    ensures inicio + VerticesDe(t[..i]) + [VerticeDe(t[i])] == inicio + VerticesDe(t[..i + 1])
  {
    var a, x := VerticesDe(t[..i]), VerticeDe(t[i]);
    assert t[..i + 1][..i] == t[..i];
    assert VerticesDe(t[..i + 1]) == a + [x];
    assert inicio + a + [x] == inicio + (a + [x]);
  }

  /** The loop of `inicializar_vertices` over the first `count` entries of
      `vertices`: one `adicionar_vertice` per entry. */
  method CarregarVertices(g: Grafo?, vertices: seq<VerticeData>, count: int)
    requires g != null ==> g.Valid()
    requires 0 <= count <= |vertices|
    modifies g
    ensures g != null ==> g.Valid()
    ensures g != null ==> g.numVertices == old(g.numVertices) + count
    ensures g != null ==> g.vertices == old(g.vertices) + VerticesDe(vertices[..count])
    ensures g != null ==> g.listaAdj == old(g.listaAdj) + Vazias(count)
  {
    if g == null {
      return;
    }
    for i := 0 to count
      invariant g.Valid()
      invariant g.vertices == old(g.vertices) + VerticesDe(vertices[..i])
      invariant g.listaAdj == old(g.listaAdj) + Vazias(i)
    {
      var d := vertices[i];
      AdicionarVertice(g, d.id, CString(d.nome), CString(d.categoria), CString(d.rua), d.tipo, d.x, d.y);
      PassoVertices(old(g.vertices), vertices, i);
      VaziasAnexar(i);
    }
  }

  /** `inicializar_vertices`: appends one record per entry of the vertex table,
      each with an empty adjacency list. */
  method InicializarVertices(g: Grafo?)
    requires g != null ==> g.Valid()
    modifies g
    ensures g != null ==> g.Valid()
    ensures g != null ==> g.numVertices == old(g.numVertices) + VERTICES_STATIC_COUNT
    ensures g != null ==> g.vertices == old(g.vertices) + VerticesCarregados()
    ensures g != null ==> g.listaAdj == old(g.listaAdj) + Vazias(VERTICES_STATIC_COUNT)
  {
    var (vertices, count) := ObterVerticesStatic();
    CarregarVertices(g, vertices, count);
    assert vertices[..count] == vertices;
  }

  /** The adjacency lists after `adicionar_aresta` has been applied to every
      entry of `t`, first entry first. */
  function ListasApos(vs: seq<Vertice>, listas: seq<seq<Aresta>>, t: seq<ArestaData>): (r: seq<seq<Aresta>>)
    requires |listas| == |vs|
    ensures |r| == |vs|
    decreases |t|
  {
    if t == [] then listas
    else
      var e := t[|t| - 1];
      InserirAresta(vs, ListasApos(vs, listas, t[..|t| - 1]), e.origem, e.destino, e.distancia)
  }

  /** The loop of `inicializar_arestas` over the first `count` entries of
      `arestas`. It reads `arestas[i]` for every i < count, so it stays
      within the table only when count <= |arestas|. */
  method CarregarArestas(g: Grafo?, arestas: seq<ArestaData>, count: int)
    requires g != null ==> g.Valid()
    requires 0 <= count <= |arestas|
    modifies g
    ensures g != null ==> g.Valid()
    ensures g != null ==> g.numVertices == old(g.numVertices) && g.vertices == old(g.vertices)
    ensures g != null ==> g.listaAdj == ListasApos(g.vertices, old(g.listaAdj), arestas[..count])
  {
    ghost var adj0 := if g == null then [] else g.listaAdj;
    for i := 0 to count
      invariant g != null ==> g.Valid()
      invariant g != null ==> g.numVertices == old(g.numVertices) && g.vertices == old(g.vertices)
      invariant g != null ==> g.listaAdj == ListasApos(g.vertices, adj0, arestas[..i])
    {
      AdicionarAresta(g, arestas[i].origem, arestas[i].destino, arestas[i].distancia);
      assert arestas[..i + 1][..i] == arestas[..i];
    }
  }

  /** `inicializar_arestas` as written passes the declared count, 152, as the
      bound of a loop over a 135-entry table: the bound `CarregarArestas`
      needs does not hold, and entries 135..151 are read past the end. */
  lemma InicializarArestasLeAlemDaTabela()
    ensures var (arestas, count) := ObterArestasStatic(); !(count <= |arestas|)
  {
  }

  /** `inicializar_arestas` with the table's real length as the count. */
  method InicializarArestas(g: Grafo?)
    requires g != null ==> g.Valid()
    modifies g
    ensures g != null ==> g.Valid()
    ensures g != null ==> g.numVertices == old(g.numVertices) && g.vertices == old(g.vertices)
    ensures g != null ==> g.listaAdj == ListasApos(g.vertices, old(g.listaAdj), ARESTAS_STATIC)
  {
    var (arestas, count) := ObterArestasStaticCorrigido();
    CarregarArestas(g, arestas, count);
    assert arestas[..count] == ARESTAS_STATIC;
  }

  /** Vertex `i` of the array carries id `i`, as the loaded dataset does. */
  predicate IdsDensos(vs: seq<Vertice>) {
    forall i | 0 <= i < |vs| :: vs[i].id == i
  }

  /** Both ends of every entry of `t` are ids in 0..n-1. */
  predicate ExtremosEm(t: seq<ArestaData>, n: int) {
    forall i | 0 <= i < |t| :: 0 <= t[i].origem < n && 0 <= t[i].destino < n
  }

  /** With dense ids, the scan finds every id 0..n-1 at its own index and no
      other id at all. */
  lemma IndiceDenso(vs: seq<Vertice>, id: int)
    requires IdsDensos(vs)
    ensures IndiceDe(vs, id) == if 0 <= id < |vs| then id else -1
  {
    if 0 <= id < |vs| {
      assert vs[id].id == id;
    }
  }

  /** The edges of `t` that leave `v`, in table order, as adjacency entries. */
  function Saidas(t: seq<ArestaData>, v: int): (r: seq<Aresta>)
    ensures |r| <= |t|
    decreases |t|
  {
    if t == [] then []
    else
      var e := t[|t| - 1];
      Saidas(t[..|t| - 1], v) + (if e.origem == v then [Aresta(e.destino, e.distancia)] else [])
  }

  /** With dense ids and both ends in range, `adicionar_aresta` prepends the
      edge to the list of its origin and changes nothing else. */
  lemma InserirDenso(vs: seq<Vertice>, listas: seq<seq<Aresta>>, e: ArestaData)
    requires IdsDensos(vs) && |listas| == |vs|
    requires 0 <= e.origem < |vs| && 0 <= e.destino < |vs|
    ensures InserirAresta(vs, listas, e.origem, e.destino, e.distancia)
            == listas[e.origem := [Aresta(e.destino, e.distancia)] + listas[e.origem]]
  {
    IndiceDenso(vs, e.origem);
    IndiceDenso(vs, e.destino);
  }

  /** `adicionar_aresta` puts each new edge at the head of its list, so once
      the whole table is loaded into a graph with dense ids, the list of `v`
      holds exactly the entries leaving `v`, newest first. */
  lemma {:induction false} ListasEmOrdemInversa(vs: seq<Vertice>, t: seq<ArestaData>, v: int)
    requires IdsDensos(vs) && ExtremosEm(t, |vs|)
    requires 0 <= v < |vs|
    ensures ListasApos(vs, Vazias(|vs|), t)[v] == Reverso(Saidas(t, v))
    decreases |t|
  {
    if t != [] {
      var p, e := t[..|t| - 1], t[|t| - 1];
      assert ExtremosEm(p, |vs|);
      ListasEmOrdemInversa(vs, p, v);
      InserirDenso(vs, ListasApos(vs, Vazias(|vs|), p), e);
      if e.origem == v {
        ReversoAnexar(Saidas(p, v), Aresta(e.destino, e.distancia));
      }
    }
  }

  /** An adjacency entry whose destination is an id 0..119 and whose length
      lies in 1..154. */
  predicate EntradaValida(a: Aresta) {
    0 <= a.destinoId < 120 && 1 <= a.distancia <= 154
  }

  lemma {:induction false} SaidasValidas(t: seq<ArestaData>, v: int)
    requires TodasValidas(t)
    ensures forall a | a in Saidas(t, v) :: EntradaValida(a)
    decreases |t|
  {
    if t != [] {
      assert TodasValidas(t[..|t| - 1]);
      SaidasValidas(t[..|t| - 1], v);
      assert ArestaValida(t[|t| - 1]);
    }
  }

  lemma {:induction false} SaidasVazias(t: seq<ArestaData>, v: int)
    requires SemSaidaDe(t, v)
    ensures Saidas(t, v) == []
    decreases |t|
  {
    if t != [] {
      assert SemSaidaDe(t[..|t| - 1], v);
      SaidasVazias(t[..|t| - 1], v);
    }
  }

  /** The vertex array once the whole dataset is loaded. */
  function VerticesCarregados(): seq<Vertice> {
    VerticesDe(VERTICES_STATIC)
  }

  /** The adjacency lists once the whole edge table is loaded. */
  function ListasCarregadas(): seq<seq<Aresta>> {
    ListasApos(VerticesCarregados(), Vazias(|VerticesCarregados()|), ARESTAS_STATIC)
  }

  /** The loaded vertex array has 120 entries whose ids are their indices, so
      the scan finds every id 0..119 at its own index and no other id. */
  lemma VerticesCarregadosDensos()
    ensures |VerticesCarregados()| == 120 && IdsDensos(VerticesCarregados())
    ensures forall id :: IndiceDe(VerticesCarregados(), id) == if 0 <= id < 120 then id else -1
  {
    VerticesEstaticos();
    assert IdsAPartirDe(VERTICES_STATIC, 0);
    DensosDe(VERTICES_STATIC);
  }

  /** The loaded vertex array keeps the kinds of the table: 22 corners, then
      points of interest. */
  lemma TiposCarregados()
    ensures |VerticesCarregados()| == 120
    ensures forall i | 0 <= i < 22 :: VerticesCarregados()[i].tipo == TIPO_ESQUINA
    ensures forall i | 22 <= i < 120 :: VerticesCarregados()[i].tipo == TIPO_PONTO
  {
    VerticesEstaticos();
    TiposDe(VERTICES_STATIC);
  }

  /** Loading keeps each entry's kind. */
  lemma TiposDe(t: seq<VerticeData>)
    requires |t| >= 22
    requires forall i | 0 <= i < 22 :: Esquina(t[i])
    requires forall i | 22 <= i < |t| :: PontoTuristico(t[i])
    ensures forall i | 0 <= i < 22 :: VerticesDe(t)[i].tipo == TIPO_ESQUINA
    ensures forall i | 22 <= i < |t| :: VerticesDe(t)[i].tipo == TIPO_PONTO
  {
  }

  /** Entries whose ids are their indices load into a vertex array with the
      same property, where the scan finds each id at its own index. */
  lemma DensosDe(t: seq<VerticeData>)
    requires IdsAPartirDe(t, 0)
    ensures IdsDensos(VerticesDe(t))
    ensures forall id :: IndiceDe(VerticesDe(t), id) == if 0 <= id < |t| then id else -1
  {
    var vs := VerticesDe(t);
    assert IdsDensos(vs);
    forall id ensures IndiceDe(vs, id) == if 0 <= id < |t| then id else -1 {
      IndiceDenso(vs, id);
    }
  }

  lemma ExtremosEstaticos()
    ensures ExtremosEm(ARESTAS_STATIC, 120)
  {
    ArestasValidas();
    forall i | 0 <= i < |ARESTAS_STATIC|
      ensures 0 <= ARESTAS_STATIC[i].origem < 120 && 0 <= ARESTAS_STATIC[i].destino < 120
    {
      assert ArestaValida(ARESTAS_STATIC[i]);
    }
  }

  /** Each loaded list is the vertex's outgoing table entries, newest first. */
  lemma ListasCarregadasEmOrdemInversa()
    ensures |ListasCarregadas()| == 120
    ensures forall v | 0 <= v < 120 :: ListasCarregadas()[v] == Reverso(Saidas(ARESTAS_STATIC, v))
  {
    VerticesCarregadosDensos();
    ExtremosEstaticos();
    forall v | 0 <= v < 120 ensures ListasCarregadas()[v] == Reverso(Saidas(ARESTAS_STATIC, v)) {
      ListasEmOrdemInversa(VerticesCarregados(), ARESTAS_STATIC, v);
    }
  }

  lemma ReversoValido(t: seq<ArestaData>, v: int)
    requires TodasValidas(t)
    ensures forall a | a in Reverso(Saidas(t, v)) :: EntradaValida(a)
  {
    SaidasValidas(t, v);
    var s := Saidas(t, v);
    forall a | a in Reverso(s) ensures EntradaValida(a) {
      var i :| 0 <= i < |s| && Reverso(s)[i] == a;
      assert a == s[|s| - 1 - i];
    }
  }

  /** Every loaded adjacency entry points at a vertex 0..119 and has a length
      in 1..154. */
  lemma ListasCarregadasValidas()
    ensures |ListasCarregadas()| == 120
    ensures forall v, a | 0 <= v < 120 && a in ListasCarregadas()[v] :: EntradaValida(a)
  {
    ListasCarregadasEmOrdemInversa();
    ArestasValidas();
    ListasDeArestasValidas(ListasCarregadas(), ARESTAS_STATIC);
  }

  lemma ListasDeArestasValidas(listas: seq<seq<Aresta>>, t: seq<ArestaData>)
    requires TodasValidas(t)
    requires forall v | 0 <= v < |listas| :: listas[v] == Reverso(Saidas(t, v))
    ensures forall v, a | 0 <= v < |listas| && a in listas[v] :: EntradaValida(a)
  {
    forall v | 0 <= v < |listas| ensures forall a | a in listas[v] :: EntradaValida(a) {
      ReversoValido(t, v);
    }
  }

  /** Nothing leaves vertices 67 and 86 in the loaded graph. */
  lemma ListasCarregadasSemSaida()
    ensures |ListasCarregadas()| == 120
    ensures ListasCarregadas()[67] == [] && ListasCarregadas()[86] == []
  {
    ListasCarregadasEmOrdemInversa();
    SemArestasSaindo();
    SaidasVazias(ARESTAS_STATIC, 67);
    SaidasVazias(ARESTAS_STATIC, 86);
  }

  /** The entries leaving `v` in a concatenation of tables are those of the
      first table followed by those of the second. */
  lemma {:induction false} SaidasJuntas(a: seq<ArestaData>, b: seq<ArestaData>, v: int)
    ensures Saidas(a + b, v) == Saidas(a, v) + Saidas(b, v)
    decreases |b|
  {
    if b == [] {
      assert a + b == a;
    } else {
      assert (a + b)[..|a + b| - 1] == a + b[..|b| - 1];
      assert (a + b)[|a + b| - 1] == b[|b| - 1];
      SaidasJuntas(a, b[..|b| - 1], v);
    }
  }

  /** No street of the table other than the last entry of Venancio Aires
      has an edge leaving vertex 119. */
  lemma SemSaidaDe119()
    ensures SemSaidaDe(ArestasRuaTiradentes, 119) && SemSaidaDe(ArestasRua7DeSetembro, 119)
    ensures SemSaidaDe(ArestasRuaBorgesDeMedeiros, 119) && SemSaidaDe(ArestasRua28DeSetembro, 119)
    ensures SemSaidaDe(ArestasRuaJulioDeCastilhos, 119) && SemSaidaDe(ArestasRuaRamiroBarcelos, 119)
    ensures SemSaidaDe(ArestasRuaVenancioAires[..8], 119) && SemSaidaDe(ArestasRuaTenenteCoronelBrito, 119)
    ensures SemSaidaDe(ArestasRuaMarechalFloriano, 119) && SemSaidaDe(ArestasRuaMarechalDeodoro, 119)
  {
    assert SemSaidaDe(ArestasRuaTiradentes, 119) && SemSaidaDe(ArestasRua7DeSetembro, 119);
    assert SemSaidaDe(ArestasRuaBorgesDeMedeiros, 119) && SemSaidaDe(ArestasRua28DeSetembro, 119);
    assert SemSaidaDe(ArestasRuaJulioDeCastilhos, 119) && SemSaidaDe(ArestasRuaRamiroBarcelos, 119);
    assert SemSaidaDe(ArestasRuaVenancioAires[..8], 119) && SemSaidaDe(ArestasRuaTenenteCoronelBrito, 119);
    assert SemSaidaDe(ArestasRuaMarechalFloriano, 119) && SemSaidaDe(ArestasRuaMarechalDeodoro, 119);
  }

  /** The one edge of the table that leaves vertex 119 is {119, 20, 110}, so
      its loaded list holds that entry alone. */
  lemma ListaCarregadaDe119()
    ensures |ListasCarregadas()| == 120
    ensures ListasCarregadas()[119] == [Aresta(20, 110)]
  {
    ListasCarregadasEmOrdemInversa();
    SemSaidaDe119();
    var v := ArestasRuaVenancioAires;
    assert v[..|v| - 1] == v[..8];
    SaidasVazias(v[..8], 119);
    assert Saidas(v, 119) == [Aresta(20, 110)];
    var a := ArestasRuaTiradentes;
    SaidasVazias(a, 119);
    SaidasJuntas(a, ArestasRua7DeSetembro, 119);
    SaidasVazias(ArestasRua7DeSetembro, 119);
    a := a + ArestasRua7DeSetembro;
    SaidasJuntas(a, ArestasRuaBorgesDeMedeiros, 119);
    SaidasVazias(ArestasRuaBorgesDeMedeiros, 119);
    a := a + ArestasRuaBorgesDeMedeiros;
    SaidasJuntas(a, ArestasRua28DeSetembro, 119);
    SaidasVazias(ArestasRua28DeSetembro, 119);
    a := a + ArestasRua28DeSetembro;
    SaidasJuntas(a, ArestasRuaJulioDeCastilhos, 119);
    SaidasVazias(ArestasRuaJulioDeCastilhos, 119);
    a := a + ArestasRuaJulioDeCastilhos;
    SaidasJuntas(a, ArestasRuaRamiroBarcelos, 119);
    SaidasVazias(ArestasRuaRamiroBarcelos, 119);
    a := a + ArestasRuaRamiroBarcelos;
    SaidasJuntas(a, v, 119);
    a := a + v;
    SaidasJuntas(a, ArestasRuaTenenteCoronelBrito, 119);
    SaidasVazias(ArestasRuaTenenteCoronelBrito, 119);
    a := a + ArestasRuaTenenteCoronelBrito;
    SaidasJuntas(a, ArestasRuaMarechalFloriano, 119);
    SaidasVazias(ArestasRuaMarechalFloriano, 119);
    a := a + ArestasRuaMarechalFloriano;
    SaidasJuntas(a, ArestasRuaMarechalDeodoro, 119);
    SaidasVazias(ArestasRuaMarechalDeodoro, 119);
    a := a + ArestasRuaMarechalDeodoro;
    assert a == ARESTAS_STATIC;
    assert Saidas(ARESTAS_STATIC, 119) == [Aresta(20, 110)];
  }

  /** `criar_grafo` followed by `inicializar_vertices` and `inicializar_arestas`,
      as `calcular_rota` builds the graph. The edges are loaded with the
      corrected bound (`InicializarArestas`, all 135 table entries); the code
      as written reads 17 entries past the table, and those are undefined. */
  method CarregarGrafo() returns (g: Grafo)
    ensures fresh(g) && g.Valid()
    ensures g.vertices == VerticesCarregados() && g.listaAdj == ListasCarregadas()
  {
    VerticesCarregadosDensos();
    g := new Grafo();
    InicializarVertices(g);
    assert g.vertices == VerticesCarregados();
    assert g.listaAdj == Vazias(|VerticesCarregados()|);
    InicializarArestas(g);
  }
}
