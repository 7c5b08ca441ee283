/**
 * The graph of backend/grafo.c and backend/grafo.h: a growable array of
 * vertex records and, per vertex, a singly-linked adjacency list onto whose
 * head new edges are spliced. Each adjacency list is modelled as the sequence
 * of its nodes from the head, so the newest edge comes first.
 */
module Grafos {
  import opened CTypes

  /** Sizes of the fixed character arrays of a vertex record. */
  const MAX_NOME: int := 100
  const MAX_CATEGORIA: int := 50
  const MAX_RUA: int := 100

  /**
   * A vertex record. `nome`, `categoria` and `rua` are the whole fixed-size
   * character arrays (MAX_NOME, MAX_CATEGORIA and MAX_RUA bytes).
   */
  datatype Vertice = Vertice(
    id: int,
    nome: seq<Byte>,
    categoria: seq<Byte>,
    rua: seq<Byte>,
    tipo: int,
    x: int,
    y: int)

  /** One node of an adjacency list, without its `prox` link. */
  datatype Aresta = Aresta(destinoId: int, distancia: int)

  /** The record `adicionar_vertice` stores: each string is copied with
      `strncpy(field, src, MAX - 1)` and the last byte is set to NUL. */
  function NovoVertice(id: int, nome: seq<Byte>, categoria: seq<Byte>, rua: seq<Byte>,
                       tipo: int, x: int, y: int): Vertice
    requires SemNul(nome) && SemNul(categoria) && SemNul(rua)
  {
    Vertice(id, CopiaLimitada(nome, MAX_NOME), CopiaLimitada(categoria, MAX_CATEGORIA),
            CopiaLimitada(rua, MAX_RUA), tipo, x, y)
  }

  /** The index of the first vertex whose id is `id`, or -1 when there is none:
      what the scan of `encontrar_indice_vertice` returns. */
  function IndiceDe(vs: seq<Vertice>, id: int): (r: int)
    ensures -1 <= r < |vs|
    ensures r >= 0 ==> vs[r].id == id
    ensures forall j | 0 <= j < |vs| && (r == -1 || j < r) :: vs[j].id != id
  {
    if vs == [] then -1
    else if vs[0].id == id then 0
    else
      var r := IndiceDe(vs[1..], id);
      if r == -1 then -1 else r + 1
  }

  /** The adjacency lists after `adicionar_aresta(g, origem, destino, distancia)`
      on a graph with vertex array `vs`. */
  function InserirAresta(vs: seq<Vertice>, listas: seq<seq<Aresta>>,
                         origem: int, destino: int, distancia: int): seq<seq<Aresta>>
    requires |listas| == |vs|
  {
    var o := IndiceDe(vs, origem);
    if o == -1 || IndiceDe(vs, destino) == -1 then listas
    else listas[o := [Aresta(destino, distancia)] + listas[o]]
  }

  class Grafo {
    var numVertices: int
    var vertices: seq<Vertice>
    var listaAdj: seq<seq<Aresta>>

    ghost predicate Valid()
      reads this
    {
      numVertices == |vertices| == |listaAdj|
    }

    /** `criar_grafo`: an empty graph. */
    constructor ()
      ensures Valid()
      ensures numVertices == 0 && vertices == [] && listaAdj == []
    {
      numVertices := 0;
      vertices := [];
      listaAdj := [];
    }
  }

  /** `adicionar_vertice`: appends one record at index `num_vertices` with an
      empty adjacency list; a NULL graph is left alone. */
  method AdicionarVertice(g: Grafo?, id: int, nome: seq<Byte>, categoria: seq<Byte>,
                          rua: seq<Byte>, tipo: int, x: int, y: int)
    requires g != null ==> g.Valid()
    requires SemNul(nome) && SemNul(categoria) && SemNul(rua)
    modifies g
    ensures g != null ==> g.Valid()
    ensures g != null ==> g.numVertices == old(g.numVertices) + 1
    ensures g != null ==> g.vertices == old(g.vertices) + [NovoVertice(id, nome, categoria, rua, tipo, x, y)]
    ensures g != null ==> g.listaAdj == old(g.listaAdj) + [[]]
  {
    if g == null {
      return;
    }
    g.vertices := g.vertices + [NovoVertice(id, nome, categoria, rua, tipo, x, y)];
    g.listaAdj := g.listaAdj + [[]];
    g.numVertices := g.numVertices + 1;
  }

  /** `encontrar_indice_vertice`: a linear scan for the first vertex with `id`. */
  method EncontrarIndiceVertice(g: Grafo, id: int) returns (r: int)
    requires g.Valid()
    ensures r == IndiceDe(g.vertices, id)
    ensures r == -1 <==> forall j | 0 <= j < |g.vertices| :: g.vertices[j].id != id
  {
    var i := 0;
    while i < g.numVertices
      invariant 0 <= i <= g.numVertices
      invariant forall j | 0 <= j < i :: g.vertices[j].id != id
    {
      if g.vertices[i].id == id {
        return i;
      }
      i := i + 1;
    }
    return -1;
  }

  /** `adicionar_aresta`: when both ids name vertices, splices a new node with
      (destino, distancia) onto the head of the origin's list, duplicates
      included; otherwise, or on a NULL graph, nothing changes. */
  method AdicionarAresta(g: Grafo?, origem: int, destino: int, distancia: int)
    requires g != null ==> g.Valid()
    modifies g
    ensures g != null ==> g.Valid()
    ensures g != null ==> g.numVertices == old(g.numVertices) && g.vertices == old(g.vertices)
    ensures g != null ==> g.listaAdj == InserirAresta(g.vertices, old(g.listaAdj), origem, destino, distancia)
    ensures g != null ==> |g.listaAdj| == |old(g.listaAdj)|
    ensures g != null ==> forall i | 0 <= i < |g.listaAdj| && i != IndiceDe(g.vertices, origem) ::
                            g.listaAdj[i] == old(g.listaAdj)[i]
    ensures g != null && IndiceDe(g.vertices, origem) != -1 && IndiceDe(g.vertices, destino) != -1 ==>
              var o := IndiceDe(g.vertices, origem);
              g.listaAdj[o] == [Aresta(destino, distancia)] + old(g.listaAdj)[o]
    ensures g != null && (IndiceDe(g.vertices, origem) == -1 || IndiceDe(g.vertices, destino) == -1) ==>
              g.listaAdj == old(g.listaAdj)
  {
    if g == null {
      return;
    }
    var idxOrigem := EncontrarIndiceVertice(g, origem);
    if idxOrigem == -1 {
      return;
    }
    var idxDestino := EncontrarIndiceVertice(g, destino);
    if idxDestino == -1 {
      return;
    }
    g.listaAdj := g.listaAdj[idxOrigem := [Aresta(destino, distancia)] + g.listaAdj[idxOrigem]];
  }
}
