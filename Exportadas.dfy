/**
 * The functions backend/grafo_algoritmos.c exports to the front end: the
 * route between two ids and the lookups of vertex metadata. Each one works
 * on the dataset of backend/grafo_data.c.
 */
module Exportadas {
  import opened CTypes
  import opened Grafos
  import opened GrafoData
  import opened GrafoDb
  import opened Dijkstra
  import Caminhos
  import opened GrafoAlgoritmos

  /**
   * `calcular_rota(id_origem, id_destino)` on the graph built from the
   * static dataset, with the edge table loaded to its real length of 135
   * entries (the as-written bound of 152 reads past the table); `corrigido`
   * selects only the Dijkstra and reconstruction variant. The C function rejects equal or negative ids before it
   * builds the graph; here the graph is built first, which the caller cannot
   * observe, and `RotaNoGrafo` makes the checks.
   */
  method CalcularRota(idOrigem: int, idDestino: int, corrigido: bool) returns (r: Option<Caminhos.Rota>)
    ensures r == Caminhos.CalcularRota(VerticesCarregados(), ListasCarregadas(), idOrigem, idDestino, corrigido)
  {
    var grafo := CarregarGrafo();
    r := RotaNoGrafo(grafo, idOrigem, idDestino, corrigido);
  }

  /** The steps of `calcular_rota` on a built graph: equal or negative ids
      are rejected, both ids are looked up, Dijkstra runs from the origin and
      the route to the destination is reconstructed. */
  method RotaNoGrafo(grafo: Grafo, idOrigem: int, idDestino: int, corrigido: bool) returns (r: Option<Caminhos.Rota>)
    requires grafo.Valid()
    ensures r == Caminhos.CalcularRota(grafo.vertices, grafo.listaAdj, idOrigem, idDestino, corrigido)
  {
    if idOrigem == idDestino {
      return None;
    }
    if idOrigem < 0 || idDestino < 0 {
      return None;
    }
    var idxOrigem := EncontrarIndiceVertice(grafo, idOrigem);
    var idxDestino := EncontrarIndiceVertice(grafo, idDestino);
    if idxOrigem == -1 {
      return None;
    }
    if idxDestino == -1 {
      return None;
    }
    var ok, distancias, anteriores := ExecutarDijkstra(grafo, idxOrigem, corrigido);
    r := ReconstruirCaminho(grafo, distancias, anteriores, idxOrigem, idxDestino, corrigido,
                            Executar(grafo.vertices, grafo.listaAdj, idxOrigem, corrigido));
  }

  // ---------------------------------------------------------------------
  // Vertex metadata

  /** `obter_numero_total_vertices`: the count the static table reports,
      which is the number of its entries. */
  function ObterNumeroTotalVertices(): (r: int)
    ensures r == |VERTICES_STATIC| == 120
  {
    ObterVerticesStatic().1
  }

  /** The index of the first table entry whose id is `id`, or -1 when there
      is none. */
  function IndiceDados(t: seq<VerticeData>, id: int): (r: int)
    ensures -1 <= r < |t|
    ensures r >= 0 ==> t[r].id == id
    ensures forall j | 0 <= j < |t| && (r == -1 || j < r) :: t[j].id != id
  {
    if t == [] then -1
    else if t[0].id == id then 0
    else
      var r := IndiceDados(t[1..], id);
      if r == -1 then -1 else r + 1
  }

  /** Looking an id up in the table is looking it up in the records built from
      the table: one lookup, over either representation. */
  lemma {:induction false} IndiceDadosComoIndiceDe(t: seq<VerticeData>, id: int)
    ensures IndiceDados(t, id) == IndiceDe(VerticesDe(t), id)
  {
    if t != [] {
      assert VerticesDe(t)[1..] == VerticesDe(t[1..]);
      IndiceDadosComoIndiceDe(t[1..], id);
    }
  }

  /** In the shipped table entry `i` has id `i`, so exactly the ids 0..119
      are found, each at its own index. */
  lemma IndiceDadosEstatico(id: int)
    ensures IndiceDados(VERTICES_STATIC, id) == if 0 <= id < 120 then id else -1
  {
    VerticesEstaticos();
    if 0 <= id < 120 {
      assert VERTICES_STATIC[id].id == id;
    }
  }

  /** The linear scan `for (i = 0; i < count; i++) if (vertices[i].id == id)`
      shared by `obter_info_vertice` and `obter_rua_vertice`. */
  method BuscarDados(vertices: seq<VerticeData>, count: int, id: int) returns (k: int)
    requires 0 <= count <= |vertices|
    ensures k == IndiceDados(vertices[..count], id)
  {
    var i := 0;
    while i < count
      invariant 0 <= i <= count
      invariant forall j | 0 <= j < i :: vertices[j].id != id
    {
      if vertices[i].id == id {
        return i;
      }
      i := i + 1;
    }
    return -1;
  }

  /** Copies `src` into an optional caller buffer. */
  method CopiarSeHouver(buf: array?<Byte>, len: int, src: seq<Byte>)
    requires SemNul(src)
    requires buf != null && len > 0 ==> len <= buf.Length
    modifies buf
    ensures buf != null ==> SaidaTexto(buf, len, true, src, old(buf[..]))
  {
    if buf != null && len > 0 {
      CopiarLimitado(buf, src, len);
    }
  }

  /** `obter_info_vertice` on the table `vertices` of `count` entries: on a
      hit, name and category go to the non-null buffers with a positive
      length and x and y to the non-null integer outputs (one int each; when
      both point at the same int, y is written last); on a miss nothing is
      written and the result is -1. */
  method InfoVerticeEm(vertices: seq<VerticeData>, count: int, id: int,
                       nomeOut: array?<Byte>, nomeLen: int, categoriaOut: array?<Byte>, catLen: int,
                       xOut: array?<int>, yOut: array?<int>) returns (r: int)
    requires 0 <= count <= |vertices|
    requires nomeOut != null && nomeLen > 0 ==> nomeLen <= nomeOut.Length
    requires categoriaOut != null && catLen > 0 ==> catLen <= categoriaOut.Length
    requires nomeOut == null || nomeOut != categoriaOut
    requires xOut != null ==> xOut.Length >= 1
    requires yOut != null ==> yOut.Length >= 1
    modifies nomeOut, categoriaOut, xOut, yOut
    ensures var k := IndiceDados(vertices[..count], id);
            && r == (if k == -1 then -1 else 0)
            && (nomeOut != null ==>
                  SaidaTexto(nomeOut, nomeLen, k != -1, if k == -1 then [] else CString(vertices[k].nome), old(nomeOut[..])))
            && (categoriaOut != null ==>
                  SaidaTexto(categoriaOut, catLen, k != -1, if k == -1 then [] else CString(vertices[k].categoria), old(categoriaOut[..])))
            && (yOut != null ==> yOut[..] == if k == -1 then old(yOut[..]) else old(yOut[..])[0 := vertices[k].y])
            && (xOut != null && xOut != yOut ==>
                  xOut[..] == if k == -1 then old(xOut[..]) else old(xOut[..])[0 := vertices[k].x])
  {
    var k := BuscarDados(vertices, count, id);
    if k == -1 {
      return -1;
    }
    CopiarSeHouver(nomeOut, nomeLen, CString(vertices[k].nome));
    CopiarSeHouver(categoriaOut, catLen, CString(vertices[k].categoria));
    if xOut != null {
      xOut[0] := vertices[k].x;
    }
    if yOut != null {
      yOut[0] := vertices[k].y;
    }
    return 0;
  }

  /** `obter_info_vertice(id, ...)` on the static table. */
  method ObterInfoVertice(id: int, nomeOut: array?<Byte>, nomeLen: int, categoriaOut: array?<Byte>, catLen: int,
                          xOut: array?<int>, yOut: array?<int>) returns (r: int)
    requires nomeOut != null && nomeLen > 0 ==> nomeLen <= nomeOut.Length
    requires categoriaOut != null && catLen > 0 ==> catLen <= categoriaOut.Length
    requires nomeOut == null || nomeOut != categoriaOut
    requires xOut != null ==> xOut.Length >= 1
    requires yOut != null ==> yOut.Length >= 1
    modifies nomeOut, categoriaOut, xOut, yOut
    ensures var k := IndiceDados(VERTICES_STATIC, id);
            && r == (if k == -1 then -1 else 0)
            && (nomeOut != null ==>
                  SaidaTexto(nomeOut, nomeLen, k != -1, if k == -1 then [] else CString(VERTICES_STATIC[k].nome), old(nomeOut[..])))
            && (categoriaOut != null ==>
                  SaidaTexto(categoriaOut, catLen, k != -1, if k == -1 then [] else CString(VERTICES_STATIC[k].categoria), old(categoriaOut[..])))
            && (yOut != null ==> yOut[..] == if k == -1 then old(yOut[..]) else old(yOut[..])[0 := VERTICES_STATIC[k].y])
            && (xOut != null && xOut != yOut ==>
                  xOut[..] == if k == -1 then old(xOut[..]) else old(xOut[..])[0 := VERTICES_STATIC[k].x])
  {
    var (vertices, count) := ObterVerticesStatic();
    assert vertices[..count] == vertices;
    r := InfoVerticeEm(vertices, count, id, nomeOut, nomeLen, categoriaOut, catLen, xOut, yOut);
  }

  /** `obter_rua_vertice` on the table `vertices` of `count` entries: on a
      hit the street, "N/A" for a corner included, goes to the buffer. */
  method RuaVerticeEm(vertices: seq<VerticeData>, count: int, id: int, ruaOut: array?<Byte>, ruaLen: int)
    returns (r: int)
    requires 0 <= count <= |vertices|
    requires ruaOut != null && ruaLen > 0 ==> ruaLen <= ruaOut.Length
    modifies ruaOut
    ensures var k := IndiceDados(vertices[..count], id);
            && r == (if k == -1 then -1 else 0)
            && (ruaOut != null ==>
                  SaidaTexto(ruaOut, ruaLen, k != -1, if k == -1 then [] else CString(vertices[k].rua), old(ruaOut[..])))
  {
    var k := BuscarDados(vertices, count, id);
    if k == -1 {
      return -1;
    }
    CopiarSeHouver(ruaOut, ruaLen, CString(vertices[k].rua));
    return 0;
  }

  /** `obter_rua_vertice(id, rua_out, rua_len)` on the static table. */
  method ObterRuaVertice(id: int, ruaOut: array?<Byte>, ruaLen: int) returns (r: int)
    requires ruaOut != null && ruaLen > 0 ==> ruaLen <= ruaOut.Length
    modifies ruaOut
    ensures var k := IndiceDados(VERTICES_STATIC, id);
            && r == (if k == -1 then -1 else 0)
            && (ruaOut != null ==>
                  SaidaTexto(ruaOut, ruaLen, k != -1, if k == -1 then [] else CString(VERTICES_STATIC[k].rua), old(ruaOut[..])))
  {
    var (vertices, count) := ObterVerticesStatic();
    assert vertices[..count] == vertices;
    r := RuaVerticeEm(vertices, count, id, ruaOut, ruaLen);
  }

  /** The street a corner reports is the three bytes of "N/A". */
  lemma RuaDeEsquina(id: int)
    requires 0 <= id < 22
    ensures IndiceDados(VERTICES_STATIC, id) == id
    ensures CString(VERTICES_STATIC[id].rua) == [78, 47, 65]
  {
    IndiceDadosEstatico(id);
    VerticesEstaticos();
    assert Esquina(VERTICES_STATIC[id]);
    assert Utf8("N/A") == [78, 47, 65];
  }
}
