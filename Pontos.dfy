/**
 * The point-of-interest enumeration of backend/main.c: `get_num_pontos`
 * counts the vertices of tipo TIPO_PONTO and `get_ponto_info` hands out the
 * index-th of them, in vertex-array order. Each call builds its own graph
 * from the static dataset and destroys it before returning.
 */
module Pontos {
  import opened CTypes
  import opened Grafos
  import opened GrafoData
  import opened GrafoDb

  /** The positions of the points of interest of `vs`, in order. */
  function IndicesPontos(vs: seq<Vertice>): (r: seq<int>)
    ensures |r| <= |vs|
    ensures forall t | 0 <= t < |r| :: 0 <= r[t] < |vs| && vs[r[t]].tipo == TIPO_PONTO
    decreases |vs|
  {
    if vs == [] then []
    else
      var p := IndicesPontos(vs[..|vs| - 1]);
      if vs[|vs| - 1].tipo == TIPO_PONTO then p + [|vs| - 1] else p
  }

  /** The positions come in increasing order and every point is listed: the
      enumeration is the points in table order, each once. */
  lemma {:induction false} IndicesPontosOrdenados(vs: seq<Vertice>)
    ensures forall s, t | 0 <= s < t < |IndicesPontos(vs)| :: IndicesPontos(vs)[s] < IndicesPontos(vs)[t]
    ensures forall i | 0 <= i < |vs| && vs[i].tipo == TIPO_PONTO :: i in IndicesPontos(vs)
    decreases |vs|
  {
    if vs != [] {
      var q := vs[..|vs| - 1];
      IndicesPontosOrdenados(q);
      assert forall i | 0 <= i < |q| :: q[i] == vs[i];
    }
  }

  /** The points of a prefix of the array are the first points of the array. */
  lemma {:induction false} IndicesPontosPrefixo(vs: seq<Vertice>, j: int)
    requires 0 <= j <= |vs|
    ensures IndicesPontos(vs[..j]) <= IndicesPontos(vs)
    decreases |vs|
  {
    if j < |vs| {
      var q := vs[..|vs| - 1];
      assert q[..j] == vs[..j];
      IndicesPontosPrefixo(q, j);
    } else {
      assert vs[..j] == vs;
    }
  }

  /** One more vertex scanned: its position is added when it is a point. */
  lemma IndicesPontosAnexar(vs: seq<Vertice>, i: int)
    requires 0 <= i < |vs|
    ensures IndicesPontos(vs[..i + 1])
            == IndicesPontos(vs[..i]) + if vs[i].tipo == TIPO_PONTO then [i] else []
  {
    assert vs[..i + 1][..i] == vs[..i];
  }

  /** The position of the `index`-th point of `vs`, or -1 when there is none. */
  function PontoEm(vs: seq<Vertice>, index: int): (p: int)
    ensures p == -1 || (0 <= p < |vs| && vs[p].tipo == TIPO_PONTO)
    ensures p != -1 <==> 0 <= index < |IndicesPontos(vs)|
  {
    var ps := IndicesPontos(vs);
    if 0 <= index < |ps| then ps[index] else -1
  }

  /** When the first `k` vertices are corners and the rest are points, the
      points are exactly the positions `k`, `k + 1`, ... */
  lemma {:induction false} PontosAPartirDe(vs: seq<Vertice>, k: int)
    requires 0 <= k <= |vs|
    requires forall i | 0 <= i < k :: vs[i].tipo != TIPO_PONTO
    requires forall i | k <= i < |vs| :: vs[i].tipo == TIPO_PONTO
    ensures |IndicesPontos(vs)| == |vs| - k
    ensures forall t | 0 <= t < |vs| - k :: IndicesPontos(vs)[t] == t + k
    decreases |vs|
  {
    if vs != [] {
      var q := vs[..|vs| - 1];
      if k <= |q| {
        PontosAPartirDe(q, k);
      } else {
        SemPontos(q);
      }
    }
  }

  /** No vertex is a point: nothing is enumerated. */
  lemma {:induction false} SemPontos(vs: seq<Vertice>)
    requires forall i | 0 <= i < |vs| :: vs[i].tipo != TIPO_PONTO
    ensures IndicesPontos(vs) == []
    decreases |vs|
  {
    if vs != [] {
      SemPontos(vs[..|vs| - 1]);
    }
  }

  /** A vertex array whose first 22 records are corners and whose other
      records are points, with dense ids: the `t`-th point is at position
      `t + 22` and has id `t + 22`. */
  lemma PontosDepoisDasEsquinas(vs: seq<Vertice>)
    requires IdsDensos(vs) && |vs| >= 22
    requires forall i | 0 <= i < 22 :: vs[i].tipo == TIPO_ESQUINA
    requires forall i | 22 <= i < |vs| :: vs[i].tipo == TIPO_PONTO
    ensures |IndicesPontos(vs)| == |vs| - 22
    ensures forall t | 0 <= t < |vs| - 22 :: PontoEm(vs, t) == t + 22 && vs[t + 22].id == t + 22
  {
    PontosAPartirDe(vs, 22);
  }

  /** In the loaded dataset the points are the 98 vertices after the 22
      corners, and the `t`-th of them has id `t + 22`. */
  lemma PontosCarregados()
    ensures |IndicesPontos(VerticesCarregados())| == 98
    ensures forall t | 0 <= t < 98 ::
              PontoEm(VerticesCarregados(), t) == t + 22 && VerticesCarregados()[t + 22].id == t + 22
  {
    VerticesCarregadosDensos();
    TiposCarregados();
    PontosDepoisDasEsquinas(VerticesCarregados());
  }

  /** The counting loop of `get_num_pontos` over a built graph. */
  method ContarPontos(g: Grafo) returns (count: int)
    requires g.Valid()
    ensures count == |IndicesPontos(g.vertices)|
  {
    count := 0;
    var i := 0;
    while i < g.numVertices
      invariant 0 <= i <= g.numVertices
      invariant count == |IndicesPontos(g.vertices[..i])|
    {
      IndicesPontosAnexar(g.vertices, i);
      if g.vertices[i].tipo == TIPO_PONTO {
        count := count + 1;
      }
      i := i + 1;
    }
    assert g.vertices[..i] == g.vertices;
  }

  /** `criar_grafo` followed by `inicializar_vertices`, as both functions of
      this file start. */
  method GrafoComVertices() returns (g: Grafo)
    ensures fresh(g) && g.Valid() && g.vertices == VerticesCarregados()
  {
    g := new Grafo();
    InicializarVertices(g);
    assert g.vertices == VerticesCarregados();
  }

  /** `get_num_pontos`: the number of points of interest of the loaded
      graph (98, by `PontosCarregados`). */
  method GetNumPontos() returns (r: int)
    ensures r == |IndicesPontos(VerticesCarregados())|
  {
    var grafo := GrafoComVertices();
    r := ContarPontos(grafo);
  }

  /** The loop of `get_ponto_info`: it counts points until the count equals
      `index` and stops there, or scans the whole array. */
  method LocalizarPonto(g: Grafo, index: int) returns (p: int)
    requires g.Valid()
    ensures p == PontoEm(g.vertices, index)
  {
    var count := 0;
    var i := 0;
    p := -1;
    while i < g.numVertices
      invariant 0 <= i <= g.numVertices
      invariant count == |IndicesPontos(g.vertices[..i])|
      invariant index < 0 || count <= index
      invariant p == -1
    {
      IndicesPontosAnexar(g.vertices, i);
      if g.vertices[i].tipo == TIPO_PONTO {
        if count == index {
          p := i;
          IndicesPontosPrefixo(g.vertices, i + 1);
          return;
        }
        count := count + 1;
      }
      i := i + 1;
    }
    assert g.vertices[..i] == g.vertices;
  }

  /** What `get_ponto_info` leaves behind on the vertex array `vs`: on a
      hit the name and category of the `index`-th point (read as C strings
      out of its record) are in the non-null buffers with a positive length
      and its id in `idOut`, and the result is 0; on a miss nothing is
      written and the result is -1. `nomeAntes`, `catAntes` and `idAntes`
      are the outputs' contents before the call. */
  ghost predicate InfoPonto(vs: seq<Vertice>, index: int, r: int,
                            nomeOut: array?<Byte>, nomeLen: int, categoriaOut: array?<Byte>, catLen: int,
                            idOut: array?<int>, nomeAntes: seq<Byte>, catAntes: seq<Byte>, idAntes: seq<int>)
    requires nomeOut != null && nomeLen > 0 ==> nomeLen <= |nomeAntes|
    requires categoriaOut != null && catLen > 0 ==> catLen <= |catAntes|
    requires idOut != null ==> |idAntes| >= 1
    reads nomeOut, categoriaOut, idOut
  {
    var p := PontoEm(vs, index);
    && r == (if p == -1 then -1 else 0)
    && SaidaTexto(nomeOut, nomeLen, p != -1, if p == -1 then [] else LerCString(vs[p].nome), nomeAntes)
    && SaidaTexto(categoriaOut, catLen, p != -1, if p == -1 then [] else LerCString(vs[p].categoria), catAntes)
    && (idOut != null ==> idOut[..] == if p == -1 then idAntes else idAntes[0 := vs[p].id])
  }

  /** `get_ponto_info` on a built graph: on a hit the name and category of
      the point (read as C strings out of the vertex record) go to the
      non-null buffers with a positive length and its id to `idOut`; on a
      miss nothing is written and the result is -1. */
  method PontoInfoNoGrafo(g: Grafo, index: int, nomeOut: array?<Byte>, nomeLen: int,
                          categoriaOut: array?<Byte>, catLen: int, idOut: array?<int>) returns (r: int)
    requires g.Valid()
    requires nomeOut != null && nomeLen > 0 ==> nomeLen <= nomeOut.Length
    requires categoriaOut != null && catLen > 0 ==> catLen <= categoriaOut.Length
    requires nomeOut == null || nomeOut != categoriaOut
    requires idOut != null ==> idOut.Length >= 1
    modifies nomeOut, categoriaOut, idOut
    ensures InfoPonto(g.vertices, index, r, nomeOut, nomeLen, categoriaOut, catLen, idOut,
                      old(Conteudo(nomeOut)), old(Conteudo(categoriaOut)), old(Conteudo(idOut)))
  {
    var p := LocalizarPonto(g, index);
    if p == -1 {
      return -1;
    }
    if nomeOut != null && nomeLen > 0 {
      CopiarLimitado(nomeOut, LerCString(g.vertices[p].nome), nomeLen);
    }
    if categoriaOut != null && catLen > 0 {
      CopiarLimitado(categoriaOut, LerCString(g.vertices[p].categoria), catLen);
    }
    if idOut != null {
      idOut[0] := g.vertices[p].id;
    }
    return 0;
  }

  /** `get_ponto_info` with the graph built from the first `count` entries
      of the table `vertices`. */
  method PontoInfoEm(vertices: seq<VerticeData>, count: int, index: int, nomeOut: array?<Byte>, nomeLen: int,
                     categoriaOut: array?<Byte>, catLen: int, idOut: array?<int>) returns (r: int)
    requires 0 <= count <= |vertices|
    requires nomeOut != null && nomeLen > 0 ==> nomeLen <= nomeOut.Length
    requires categoriaOut != null && catLen > 0 ==> catLen <= categoriaOut.Length
    requires nomeOut == null || nomeOut != categoriaOut
    requires idOut != null ==> idOut.Length >= 1
    modifies nomeOut, categoriaOut, idOut
    ensures InfoPonto(VerticesDe(vertices[..count]), index, r, nomeOut, nomeLen, categoriaOut, catLen, idOut,
                      old(Conteudo(nomeOut)), old(Conteudo(categoriaOut)), old(Conteudo(idOut)))
  {
    ghost var antes := (Conteudo(nomeOut), Conteudo(categoriaOut), Conteudo(idOut));
    var grafo := new Grafo();
    CarregarVertices(grafo, vertices, count);
    assert grafo.vertices == VerticesDe(vertices[..count]);
    assert (Conteudo(nomeOut), Conteudo(categoriaOut), Conteudo(idOut)) == antes;
    r := PontoInfoNoGrafo(grafo, index, nomeOut, nomeLen, categoriaOut, catLen, idOut);
  }

  /** `get_ponto_info(index, ...)` on the loaded graph. */
  method GetPontoInfo(index: int, nomeOut: array?<Byte>, nomeLen: int,
                      categoriaOut: array?<Byte>, catLen: int, idOut: array?<int>) returns (r: int)
    requires nomeOut != null && nomeLen > 0 ==> nomeLen <= nomeOut.Length
    requires categoriaOut != null && catLen > 0 ==> catLen <= categoriaOut.Length
    requires nomeOut == null || nomeOut != categoriaOut
    requires idOut != null ==> idOut.Length >= 1
    modifies nomeOut, categoriaOut, idOut
    ensures InfoPonto(VerticesCarregados(), index, r, nomeOut, nomeLen, categoriaOut, catLen, idOut,
                      old(Conteudo(nomeOut)), old(Conteudo(categoriaOut)), old(Conteudo(idOut)))
  {
    var (vertices, count) := ObterVerticesStatic();
    assert vertices[..count] == vertices;
    r := PontoInfoEm(vertices, count, index, nomeOut, nomeLen, categoriaOut, catLen, idOut);
  }

  /** `get_ponto_info` succeeds exactly for the indices below what
      `get_num_pontos` reports, and the `index`-th point has id
      `index + 22`. */
  lemma PontoInfoCarregado(index: int)
    ensures PontoEm(VerticesCarregados(), index) != -1 <==> 0 <= index < 98
    ensures 0 <= index < 98 ==> VerticesCarregados()[PontoEm(VerticesCarregados(), index)].id == index + 22
  {
    PontosCarregados();
  }
}
