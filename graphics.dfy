/** `generate_network_graph`: the seeds as nodes, and an edge between two
    seeds whenever their connectivity is above a threshold. Only the upper
    triangle of the matrix is visited. An edge between `nodes[a]` and
    `nodes[b]` is recorded under the index pair `(a, b)`, which the distinct
    node labels make equivalent. */
module Graphics {

  type Matrix = seq<seq<real>>

  /** `m` has at least `n` rows and `n` columns. */
  predicate Covers(m: Matrix, n: nat)
  {
    |m| >= n && forall i :: 0 <= i < n ==> |m[i]| >= n
  }

  predicate AllCover(attrs: map<string, Matrix>, n: nat)
  {
    forall name :: name in attrs ==> Covers(attrs[name], n)
  }

  /** `combinations(range(n), 2)` yields `(x, y)` before `(a, b)`. */
  predicate Before(x: int, y: int, a: int, b: int)
  {
    x < a || (x == a && y < b)
  }

  /** The data of the edge for the cell `(a, b)`: every extra attribute read
      from the same cell of its matrix, and the `weight` from the matrix
      itself (the keyword argument wins over an attribute of that name). */
  function EdgeData(m: Matrix, attrs: map<string, Matrix>, n: nat, a: int, b: int): map<string, real>
    requires Covers(m, n) && AllCover(attrs, n) && 0 <= a < n && 0 <= b < n
  {
    (map name | name in attrs :: attrs[name][a][b])["weight" := m[a][b]]
  }

  /** The edges after the loop has visited every pair before `(a, b)`, built
      the way the loop builds them: a row starts at `(a, a + 1)` with the
      edges of the rows above it, and each pair adds its edge if its cell is
      strictly above the threshold. */
  function Visited(m: Matrix, thresh: real, attrs: map<string, Matrix>, n: nat, a: nat, b: nat)
    : map<(int, int), map<string, real>>
    requires Covers(m, n) && AllCover(attrs, n) && a < b <= n
    decreases a, b
  {
    if b == a + 1 then
      if a == 0 then map[] else Visited(m, thresh, attrs, n, a - 1, n)
    else
      var prev := Visited(m, thresh, attrs, n, a, b - 1);
      if m[a][b - 1] > thresh then prev[(a, b - 1) := EdgeData(m, attrs, n, a, b - 1)] else prev
  }

  /** The edges of the rows above row `a`. */
  function EdgesOfRows(m: Matrix, thresh: real, attrs: map<string, Matrix>, n: nat, a: nat)
    : map<(int, int), map<string, real>>
    requires Covers(m, n) && AllCover(attrs, n) && a <= n
  {
    if a == 0 then map[] else Visited(m, thresh, attrs, n, a - 1, n)
  }

  /** The edges of the graph over the first `n` seeds. */
  function Edges(m: Matrix, thresh: real, attrs: map<string, Matrix>, n: nat): map<(int, int), map<string, real>>
    requires Covers(m, n) && AllCover(attrs, n)
  {
    EdgesOfRows(m, thresh, attrs, n, n)
  }

  /** What the loop has built before `(a, b)`: an edge for exactly the pairs
      visited so far whose cell is above the threshold, with that cell's
      data. */
  lemma {:induction false} VisitedKey(m: Matrix, thresh: real, attrs: map<string, Matrix>, n: nat,
                                      a: nat, b: nat, p: (int, int))
    requires Covers(m, n) && AllCover(attrs, n) && a < b <= n
    ensures p in Visited(m, thresh, attrs, n, a, b)
            <==> 0 <= p.0 < p.1 < n && Before(p.0, p.1, a, b) && m[p.0][p.1] > thresh
    ensures p in Visited(m, thresh, attrs, n, a, b) ==>
              Visited(m, thresh, attrs, n, a, b)[p] == EdgeData(m, attrs, n, p.0, p.1)
    decreases a, b
  {
    if b == a + 1 {
      if a > 0 {
        VisitedKey(m, thresh, attrs, n, a - 1, n, p);
      }
    } else {
      VisitedKey(m, thresh, attrs, n, a, b - 1, p);
    }
  }

  /** The same, for the finished graph. */
  lemma EdgesKey(m: Matrix, thresh: real, attrs: map<string, Matrix>, n: nat, p: (int, int))
    requires Covers(m, n) && AllCover(attrs, n)
    ensures p in Edges(m, thresh, attrs, n) <==> 0 <= p.0 < p.1 < n && m[p.0][p.1] > thresh
    ensures p in Edges(m, thresh, attrs, n) ==> Edges(m, thresh, attrs, n)[p] == EdgeData(m, attrs, n, p.0, p.1)
  {
    if n > 0 {
      VisitedKey(m, thresh, attrs, n, n - 1, n, p);
    }
  }

  /** Edges exist exactly for the pairs `a < b` whose cell is above the
      threshold (a cell equal to it gives none), so there is no self-loop;
      each edge carries the cell as its weight and the same cell of every
      attribute matrix. */
  lemma EdgesSpec(m: Matrix, thresh: real, attrs: map<string, Matrix>, n: nat, a: int, b: int)
    requires Covers(m, n) && AllCover(attrs, n)
    ensures (a, b) in Edges(m, thresh, attrs, n) <==> 0 <= a < b < n && m[a][b] > thresh
    ensures (a, b) in Edges(m, thresh, attrs, n) ==>
              "weight" in Edges(m, thresh, attrs, n)[(a, b)]
              && Edges(m, thresh, attrs, n)[(a, b)]["weight"] == m[a][b]
              && forall name :: name in attrs && name != "weight" ==>
                   name in Edges(m, thresh, attrs, n)[(a, b)]
                   && Edges(m, thresh, attrs, n)[(a, b)][name] == attrs[name][a][b]
  {
    EdgesKey(m, thresh, attrs, n, (a, b));
  }

  /** Raising the threshold never adds an edge, and keeps the data of those
      that remain. */
  lemma EdgesAntitone(m: Matrix, t1: real, t2: real, attrs: map<string, Matrix>, n: nat)
    requires Covers(m, n) && AllCover(attrs, n)
    requires t1 <= t2
    ensures Edges(m, t2, attrs, n).Keys <= Edges(m, t1, attrs, n).Keys
    ensures forall p :: p in Edges(m, t2, attrs, n) ==> Edges(m, t2, attrs, n)[p] == Edges(m, t1, attrs, n)[p]
  {
    forall p | p in Edges(m, t2, attrs, n)
      ensures p in Edges(m, t1, attrs, n) && Edges(m, t2, attrs, n)[p] == Edges(m, t1, attrs, n)[p]
    {
      EdgesKey(m, t1, attrs, n, p);
      EdgesKey(m, t2, attrs, n, p);
    }
  }

  /** The cells on and below the diagonal are never read: two matrices that
      agree above the diagonal give the same edges. */
  lemma EdgesReadUpperTriangle(m1: Matrix, m2: Matrix, thresh: real, attrs: map<string, Matrix>, n: nat)
    requires Covers(m1, n) && Covers(m2, n) && AllCover(attrs, n)
    requires forall a, b :: 0 <= a < b < n ==> m1[a][b] == m2[a][b]
    ensures Edges(m1, thresh, attrs, n) == Edges(m2, thresh, attrs, n)
  {
    var e1, e2 := Edges(m1, thresh, attrs, n), Edges(m2, thresh, attrs, n);
    forall p
      ensures p in e1 <==> p in e2
      ensures p in e1 ==> e1[p] == e2[p]
    {
      EdgesKey(m1, thresh, attrs, n, p);
      EdgesKey(m2, thresh, attrs, n, p);
      if p in e1 {
        assert EdgeData(m1, attrs, n, p.0, p.1) == EdgeData(m2, attrs, n, p.0, p.1);
      }
    }
  }

  /** The contents of a two-dimensional array, row by row. */
  function Rows(a: array2<real>): (r: Matrix)
    reads a
    ensures |r| == a.Length0
    ensures forall i :: 0 <= i < a.Length0 ==> |r[i]| == a.Length1
    ensures forall i, j :: 0 <= i < a.Length0 && 0 <= j < a.Length1 ==> r[i][j] == a[i, j]
  {
    seq(a.Length0, i requires 0 <= i < a.Length0 reads a =>
      seq(a.Length1, j requires 0 <= j < a.Length1 reads a => a[i, j]))
  }

  /** `generate_network_graph(matrix, thresh, nodes, attributes)`: every
      label in `nodes` is a node, and the pairs of `range(matrix.shape[0])`
      are visited in `combinations` order, adding an edge for each cell above
      the threshold. */
  method GenerateNetworkGraph(matrix: array2<real>, thresh: real, nodes: seq<string>,
                              attributes: map<string, Matrix>)
    returns (graphNodes: set<string>, edges: map<(int, int), map<string, real>>)
    requires matrix.Length0 <= |nodes| && matrix.Length0 <= matrix.Length1
    requires forall i, j :: 0 <= i < j < |nodes| ==> nodes[i] != nodes[j]
    requires AllCover(attributes, matrix.Length0)
    ensures graphNodes == set k | 0 <= k < |nodes| :: nodes[k]
    ensures edges == Edges(Rows(matrix), thresh, attributes, matrix.Length0)
  {
    graphNodes := NodeSet(nodes);
    var n := matrix.Length0;
    var m := Rows(matrix);
    edges := map[];
    var a := 0;
    while a < n
      invariant 0 <= a <= n
      invariant edges == EdgesOfRows(m, thresh, attributes, n, a)
    {
      edges := AddRow(m, thresh, attributes, n, a, edges);
      a := a + 1;
    }
  }

  /** The set of the node labels. */
  method NodeSet(nodes: seq<string>) returns (s: set<string>)
    ensures s == set k | 0 <= k < |nodes| :: nodes[k]
  {
    s := {};
    var k := 0;
    while k < |nodes|
      invariant 0 <= k <= |nodes|
      invariant s == set i | 0 <= i < k :: nodes[i]
    {
      s := s + {nodes[k]};
      k := k + 1;
    }
  }

  /** The inner loop: the pairs `(a, b)` for every `b > a`. */
  method AddRow(m: Matrix, thresh: real, attributes: map<string, Matrix>, n: nat, a: nat,
                edges: map<(int, int), map<string, real>>)
    returns (edges': map<(int, int), map<string, real>>)
    requires Covers(m, n) && AllCover(attributes, n) && a < n
    requires edges == EdgesOfRows(m, thresh, attributes, n, a)
    ensures edges' == EdgesOfRows(m, thresh, attributes, n, a + 1)
  {
    edges' := edges;
    var b := a + 1;
    while b < n
      invariant a + 1 <= b <= n
      invariant edges' == Visited(m, thresh, attributes, n, a, b)
    {
      if m[a][b] > thresh {
        edges' := edges'[(a, b) := EdgeData(m, attributes, n, a, b)];
      }
      b := b + 1;
    }
  }
}
