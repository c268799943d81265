/** The entity-relationship diagram: connected components of the foreign-key graph by breadth-first search, and the
    placing of their boxes. */
module ErGraph {
  type Name = string

  datatype ForeignKey = ForeignKey(column: string, refTable: Name)

  datatype Table = Table(name: Name, columns: nat, foreignKeys: seq<ForeignKey>)

  type Graph = map<Name, set<Name>>

  function Names(tables: seq<Table>): set<Name>
  {
    set t | t in tables :: t.name
  }

  /** A foreign key of `from` refers to `to`. */
  ghost predicate Refers(tables: seq<Table>, from: Name, to: Name)
  {
    exists t :: t in tables && t.name == from && exists fk :: fk in t.foreignKeys && fk.refTable == to
  }

  /** The undirected foreign-key graph on the tables there are. */
  ghost predicate Linked(tables: seq<Table>, a: Name, b: Name)
  {
    a in Names(tables) && b in Names(tables) && (Refers(tables, a, b) || Refers(tables, b, a))
  }

  predicate Symmetric(g: Graph)
  {
    forall a, b :: a in g && b in g[a] ==> b in g && a in g[b]
  }

  /** Both directions of one edge. */
  function Link(g: Graph, a: Name, b: Name): Graph
    requires a in g && b in g
  {
    var g' := g[a := g[a] + {b}];
    g'[b := g'[b] + {a}]
  }

  /** The references of a table's first m foreign keys, as pairs. */
  function TableEdges(t: Table, m: nat): set<(Name, Name)>
    requires m <= |t.foreignKeys|
  {
    if m == 0 then {} else TableEdges(t, m - 1) + {(t.name, t.foreignKeys[m - 1].refTable)}
  }

  function Edges(tables: seq<Table>, n: nat): set<(Name, Name)>
    requires n <= |tables|
  {
    if n == 0 then {} else Edges(tables, n - 1) + TableEdges(tables[n - 1], |tables[n - 1].foreignKeys|)
  }

  lemma {:induction false} TableEdgesAre(t: Table, m: nat, e: (Name, Name))
    requires m <= |t.foreignKeys|
    ensures e in TableEdges(t, m) <==> e.0 == t.name && exists j :: 0 <= j < m && t.foreignKeys[j].refTable == e.1
  {
    if m > 0 {
      TableEdgesAre(t, m - 1, e);
    }
  }

  lemma {:induction false} EdgesAre(tables: seq<Table>, n: nat, a: Name, b: Name)
    requires n <= |tables|
    ensures (a, b) in Edges(tables, n) <==> Refers(tables[..n], a, b)
  {
    if n > 0 {
      var t := tables[n - 1];
      assert tables[..n] == tables[..n - 1] + [t];
      EdgesAre(tables, n - 1, a, b);
      TableEdgesAre(t, |t.foreignKeys|, (a, b));
    }
  }

  /** The graph has exactly these edges, as far as both ends are tables. */
  ghost predicate HasLinks(g: Graph, names: set<Name>, edges: set<(Name, Name)>)
  {
    && g.Keys == names && Symmetric(g)
    && forall a, b :: a in g ==> (b in g[a] <==> b in g && ((a, b) in edges || (b, a) in edges))
  }

  method BuildAdjacency(tables: seq<Table>) returns (g: Graph)
    ensures g.Keys == Names(tables) && Symmetric(g)
    ensures forall a, b :: a in g ==> (b in g[a] <==> Linked(tables, a, b))
  {
    hide HasLinks;
    hide Linked;
    hide Link;
    hide Symmetric;
    g := map n | n in Names(tables) :: {};
    NoLinks(g, Names(tables));
    for i := 0 to |tables|
      invariant HasLinks(g, Names(tables), Edges(tables, i))
    {
      var t := tables[i];
      assert t in tables;
      assert Edges(tables, i) + TableEdges(t, 0) == Edges(tables, i);
      for j := 0 to |t.foreignKeys|
        invariant HasLinks(g, Names(tables), Edges(tables, i) + TableEdges(t, j))
      {
        var ref := t.foreignKeys[j].refTable;
        assert Edges(tables, i) + TableEdges(t, j + 1) == Edges(tables, i) + TableEdges(t, j) + {(t.name, ref)};
        LinksNext(g, Names(tables), Edges(tables, i) + TableEdges(t, j), t.name, ref);
        if ref in g {
          g := Link(g, t.name, ref);
        }
      }
    }
    LinksAll(g, tables);
  }

  lemma NoLinks(g: Graph, names: set<Name>)
    requires g.Keys == names && forall n :: n in g ==> g[n] == {}
    ensures HasLinks(g, names, {})
  {
  }

  lemma LinksNext(g: Graph, names: set<Name>, edges: set<(Name, Name)>, a: Name, b: Name)
    requires HasLinks(g, names, edges) && a in names
    ensures a in g
    ensures if b in g then HasLinks(Link(g, a, b), names, edges + {(a, b)}) else HasLinks(g, names, edges + {(a, b)})
  {
  }

  lemma LinksAll(g: Graph, tables: seq<Table>)
    requires HasLinks(g, Names(tables), Edges(tables, |tables|))
    ensures g.Keys == Names(tables) && Symmetric(g)
    ensures forall a, b :: a in g ==> (b in g[a] <==> Linked(tables, a, b))
  {
    hide Refers;
    assert tables[..|tables|] == tables;
    forall a, b | a in g ensures b in g[a] <==> Linked(tables, a, b) {
      EdgesAre(tables, |tables|, a, b);
      EdgesAre(tables, |tables|, b, a);
    }
  }

  // ---- Connectedness ----

  ghost predicate Path(g: Graph, p: seq<Name>)
  {
    && p != [] && p[0] in g
    && forall i :: 0 <= i < |p| - 1 ==> p[i] in g && p[i + 1] in g[p[i]]
  }

  ghost predicate Connected(g: Graph, a: Name, b: Name)
  {
    exists p :: Path(g, p) && p[0] == a && p[|p| - 1] == b
  }

  ghost predicate Closed(g: Graph, s: set<Name>)
  {
    forall x, y :: x in s && x in g && y in g[x] ==> y in s
  }

  lemma ConnectedSelf(g: Graph, a: Name)
    requires a in g
    ensures Connected(g, a, a)
  {
    assert Path(g, [a]);
  }

  lemma ConnectedStep(g: Graph, a: Name, b: Name, c: Name)
    requires Connected(g, a, b) && b in g && c in g[b]
    ensures Connected(g, a, c)
  {
    var p :| Path(g, p) && p[0] == a && p[|p| - 1] == b;
    assert Path(g, p + [c]);
  }

  lemma {:induction false} ConnectedTrans(g: Graph, a: Name, b: Name, p: seq<Name>)
    requires Connected(g, a, b) && Path(g, p) && p[0] == b
    ensures Connected(g, a, p[|p| - 1])
    decreases |p|
  {
    if |p| > 1 {
      var q := p[..|p| - 1];
      assert Path(g, q);
      ConnectedTrans(g, a, b, q);
      ConnectedStep(g, a, q[|q| - 1], p[|p| - 1]);
    }
  }

  lemma {:induction false} PathReversed(g: Graph, p: seq<Name>)
    requires Symmetric(g) && Path(g, p)
    ensures Connected(g, p[|p| - 1], p[0])
    decreases |p|
  {
    if |p| == 1 {
      ConnectedSelf(g, p[0]);
    } else {
      assert p[1] in g[p[0]];
      assert Path(g, p[1..]);
      PathReversed(g, p[1..]);
      ConnectedStep(g, p[|p| - 1], p[1], p[0]);
    }
  }

  /** In a symmetric graph, what one node connects is connected. */
  lemma ConnectedThrough(g: Graph, hub: Name, a: Name, b: Name)
    requires Symmetric(g) && Connected(g, hub, a) && Connected(g, hub, b)
    ensures Connected(g, a, b)
  {
    var p :| Path(g, p) && p[0] == hub && p[|p| - 1] == a;
    PathReversed(g, p);
    var q :| Path(g, q) && q[0] == hub && q[|q| - 1] == b;
    ConnectedTrans(g, a, hub, q);
  }

  /** A path does not leave a closed set. */
  lemma {:induction false} StaysInside(g: Graph, s: set<Name>, p: seq<Name>)
    requires Closed(g, s) && Path(g, p) && p[0] in s
    ensures p[|p| - 1] in s
    decreases |p|
  {
    if |p| > 1 {
      assert Path(g, p[..|p| - 1]);
      StaysInside(g, s, p[..|p| - 1]);
    }
  }

  // ---- Breadth-first search ----

  function Members(s: seq<Name>): set<Name>
  {
    set n | n in s
  }

  predicate NoRepeats(s: seq<Name>)
  {
    forall i, j :: 0 <= i < j < |s| ==> s[i] != s[j]
  }

  /** Where the search from `start` stands: what it has found is connected to `start`, and it has marked what it has found. */
  ghost predicate Searching(g: Graph, start: Name, before: set<Name>, component: seq<Name>, queue: seq<Name>, visited: set<Name>)
  {
    && visited == before + Members(component + queue) && visited <= g.Keys
    && NoRepeats(component + queue) && Members(component + queue) !! before
    && component + queue != [] && (component + queue)[0] == start
    && (forall x :: x in component + queue ==> Connected(g, start, x))
    && (forall x :: x in component ==> g[x] <= visited)
  }

  lemma SearchStart(g: Graph, start: Name, before: set<Name>)
    requires start in g && start !in before && before <= g.Keys
    ensures Searching(g, start, before, [], [start], before + {start})
  {
  }

  /** Everything is as when `current` left the queue, except that these neighbours of it are not looked at yet. */
  ghost predicate Expanding(g: Graph, start: Name, before: set<Name>, component: seq<Name>, current: Name,
                            queue: seq<Name>, visited: set<Name>, todo: set<Name>)
  {
    && current in g && todo <= g[current] && g[current] - todo <= visited
    && visited == before + Members(component + [current] + queue) && visited <= g.Keys
    && NoRepeats(component + [current] + queue) && Members(component + [current] + queue) !! before
    && (component + [current] + queue)[0] == start
    && (forall x :: x in component + [current] + queue ==> Connected(g, start, x))
    && (forall x :: x in component ==> g[x] <= visited)
  }

  lemma ExpandStart(g: Graph, start: Name, before: set<Name>, component: seq<Name>, queue: seq<Name>, visited: set<Name>)
    requires Searching(g, start, before, component, queue, visited) && queue != []
    ensures queue[0] in g && Expanding(g, start, before, component, queue[0], queue[1..], visited, g[queue[0]])
  {
    assert component + queue == component + [queue[0]] + queue[1..];
    assert (component + queue)[|component|] == queue[0];
  }

  lemma ExpandNext(g: Graph, start: Name, before: set<Name>, component: seq<Name>, current: Name, queue: seq<Name>,
                   visited: set<Name>, todo: set<Name>, n: Name)
    requires Symmetric(g) && Expanding(g, start, before, component, current, queue, visited, todo) && n in todo
    ensures n in visited ==> Expanding(g, start, before, component, current, queue, visited, todo - {n})
    ensures n !in visited ==> Expanding(g, start, before, component, current, queue + [n], visited + {n}, todo - {n})
  {
    if n !in visited {
      var all := component + [current] + queue;
      assert component + [current] + (queue + [n]) == all + [n];
      assert all[|component|] == current;
      hide Connected;
      ConnectedStep(g, start, current, n);
    }
  }

  lemma ExpandEnd(g: Graph, start: Name, before: set<Name>, component: seq<Name>, current: Name, queue: seq<Name>,
                  visited: set<Name>)
    requires Expanding(g, start, before, component, current, queue, visited, {})
    ensures Searching(g, start, before, component + [current], queue, visited)
  {
  }

  /** A finished search has found everything its start is connected to. */
  ghost predicate Found(g: Graph, start: Name, before: set<Name>, component: seq<Name>, visited: set<Name>)
  {
    && visited == before + Members(component) && visited <= g.Keys
    && NoRepeats(component) && Members(component) !! before && component != [] && component[0] == start
    && (forall x :: x in component ==> Connected(g, start, x))
    && Closed(g, Members(component)) && Closed(g, visited)
  }

  lemma SearchEnd(g: Graph, start: Name, before: set<Name>, component: seq<Name>, visited: set<Name>)
    requires Symmetric(g) && Closed(g, before) && before <= g.Keys && Searching(g, start, before, component, [], visited)
    ensures Found(g, start, before, component, visited)
  {
    assert component + [] == component;
    hide Connected;
    forall x, y | x in Members(component) && x in g && y in g[x] ensures y in Members(component) {
      assert y in visited;
      if y in before {
        ReachedFromInside(g, before, x, y);
      }
    }
  }

  lemma ReachedFromInside(g: Graph, s: set<Name>, x: Name, y: Name)
    requires Symmetric(g) && Closed(g, s) && x in g && y in g[x] && y in s
    ensures x in s
  {
  }

  lemma FewerLeft(g: Graph, visited: set<Name>, n: Name)
    requires n in g && n !in visited
    ensures |g.Keys - (visited + {n})| < |g.Keys - visited|
  {
    assert g.Keys - visited == (g.Keys - (visited + {n})) + {n};
  }

  /** The search of one component. */
  method Search(g: Graph, start: Name, before: set<Name>) returns (component: seq<Name>, visited: set<Name>)
    requires Symmetric(g) && Closed(g, before) && before <= g.Keys && start in g && start !in before
    ensures Found(g, start, before, component, visited)
  {
    hide Connected;
    hide Searching;
    hide Expanding;
    hide Found;
    hide Closed;
    component := [];
    var queue := [start];
    visited := before + {start};
    SearchStart(g, start, before);
    while queue != []
      invariant Searching(g, start, before, component, queue, visited)
      decreases |g.Keys - visited|, |queue|
    {
      ExpandStart(g, start, before, component, queue, visited);
      ghost var was := visited;
      var current := queue[0];
      queue := queue[1..];
      ghost var waiting := queue;
      var todo := g[current];
      while todo != {}
        invariant Expanding(g, start, before, component, current, queue, visited, todo)
        invariant (queue == waiting && visited == was) || |g.Keys - visited| < |g.Keys - was|
        decreases |todo|
      {
        var neighbor :| neighbor in todo;
        ExpandNext(g, start, before, component, current, queue, visited, todo, neighbor);
        NeighborKnown(g, start, before, component, current, queue, visited, todo, neighbor);
        todo := todo - {neighbor};
        if neighbor !in visited {
          FewerLeft(g, visited, neighbor);
          visited := visited + {neighbor};
          queue := queue + [neighbor];
        }
      }
      ExpandEnd(g, start, before, component, current, queue, visited);
      component := component + [current];
    }
    SearchEnd(g, start, before, component, visited);
  }

  lemma NeighborKnown(g: Graph, start: Name, before: set<Name>, component: seq<Name>, current: Name, queue: seq<Name>,
                      visited: set<Name>, todo: set<Name>, n: Name)
    requires Symmetric(g) && Expanding(g, start, before, component, current, queue, visited, todo) && n in todo
    ensures n in g
  {
  }

  /** All the names placed, component after component. */
  function Flat(components: seq<seq<Name>>): seq<Name>
  {
    if components == [] then [] else Flat(components[..|components| - 1]) + components[|components| - 1]
  }

  ghost predicate IsComponent(g: Graph, component: seq<Name>)
  {
    component != [] && Closed(g, Members(component)) && forall x :: x in component ==> Connected(g, component[0], x)
  }

  /** The components so far: whole ones, no name twice. */
  ghost predicate Covering(g: Graph, components: seq<seq<Name>>, visited: set<Name>)
  {
    && visited == Members(Flat(components)) && visited <= g.Keys && Closed(g, visited)
    && NoRepeats(Flat(components))
    && forall i :: 0 <= i < |components| ==> IsComponent(g, components[i])
  }

  lemma CoveringNext(g: Graph, components: seq<seq<Name>>, visited: set<Name>, start: Name, component: seq<Name>,
                     visited': set<Name>)
    requires Covering(g, components, visited) && Found(g, start, visited, component, visited')
    ensures Covering(g, components + [component], visited')
  {
    FoundIsComponent(g, start, visited, component, visited');
    hide Found;
    hide IsComponent;
    hide Closed;
    var cs := components + [component];
    assert cs[..|cs| - 1] == components;
    assert Flat(cs) == Flat(components) + component;
    JoinedNoRepeats(Flat(components), component);
  }

  lemma FoundIsComponent(g: Graph, start: Name, before: set<Name>, component: seq<Name>, visited: set<Name>)
    requires Found(g, start, before, component, visited)
    ensures IsComponent(g, component) && visited == before + Members(component) && visited <= g.Keys && Closed(g, visited)
    ensures NoRepeats(component) && Members(component) !! before
  {
    hide Connected;
    hide Closed;
  }

  lemma JoinedNoRepeats(a: seq<Name>, b: seq<Name>)
    requires NoRepeats(a) && NoRepeats(b) && Members(a) !! Members(b)
    ensures NoRepeats(a + b) && Members(a + b) == Members(a) + Members(b)
  {
    forall i, j | 0 <= i < |a| && 0 <= j < |b| ensures a[i] != b[j] {
      assert a[i] in Members(a) && b[j] in Members(b);
    }
  }

  /** buildGraph's component search. */
  method Components(tables: seq<Table>, g: Graph) returns (components: seq<seq<Name>>)
    requires g.Keys == Names(tables) && Symmetric(g)
    ensures Covering(g, components, g.Keys)
  {
    hide Connected;
    hide Found;
    hide Covering;
    hide Closed;
    components := [];
    var visited: set<Name> := {};
    CoveringNothing(g);
    for i := 0 to |tables|
      invariant Covering(g, components, visited)
      invariant forall k :: 0 <= k < i ==> tables[k].name in visited
    {
      assert tables[i] in tables;
      CoveringIs(g, components, visited);
      if tables[i].name !in visited {
        ghost var before := visited;
        var component;
        component, visited := Search(g, tables[i].name, visited);
        CoveringNext(g, components, before, tables[i].name, component, visited);
        FoundMarks(g, tables[i].name, before, component, visited);
        components := components + [component];
      }
    }
    CoveringIs(g, components, visited);
    assert visited == g.Keys;
  }

  lemma CoveringNothing(g: Graph)
    ensures Covering(g, [], {})
  {
  }

  lemma CoveringIs(g: Graph, components: seq<seq<Name>>, visited: set<Name>)
    requires Covering(g, components, visited)
    ensures visited <= g.Keys && Closed(g, visited)
  {
  }

  lemma FoundMarks(g: Graph, start: Name, before: set<Name>, component: seq<Name>, visited: set<Name>)
    requires Found(g, start, before, component, visited)
    ensures start in visited && before <= visited
  {
  }

  lemma {:induction false} FlatMember(components: seq<seq<Name>>, n: Name)
    ensures n in Flat(components) <==> exists i :: 0 <= i < |components| && n in components[i]
  {
    if components != [] {
      var k := |components| - 1;
      FlatMember(components[..k], n);
      assert components == components[..k] + [components[k]];
    }
  }

  /** Two tables are in one component exactly if foreign keys connect them, and every table is in some component. */
  lemma ComponentsAreConnected(g: Graph, components: seq<seq<Name>>, a: Name, b: Name)
    requires Symmetric(g) && Covering(g, components, g.Keys) && a in g && b in g
    ensures (exists i :: 0 <= i < |components| && a in components[i] && b in components[i]) <==> Connected(g, a, b)
  {
    assert a in Members(Flat(components));
    FlatMember(components, a);
    var k :| 0 <= k < |components| && a in components[k];
    assert IsComponent(g, components[k]);
    if Connected(g, a, b) {
      var p :| Path(g, p) && p[0] == a && p[|p| - 1] == b;
      StaysInside(g, Members(components[k]), p);
    }
    if i :| 0 <= i < |components| && a in components[i] && b in components[i] {
      assert IsComponent(g, components[i]);
      ConnectedThrough(g, components[i][0], a, b);
    }
  }

  // ---- Layout ----

  const NODE_WIDTH: int := 220
  const NODE_GAP_X: int := 60
  const NODE_GAP_Y: int := 60
  const ROW_HEADER_HEIGHT: int := 32
  const ROW_HEIGHT: int := 20
  const MAX_PER_ROW: int := 4

  /** A placed table; its height is the one the layout reckons with. */
  datatype Box = Box(name: Name, x: int, y: int, height: int)

  function HeightOf(columns: map<Name, nat>, name: Name): int
  {
    ROW_HEADER_HEIGHT + (if name in columns then columns[name] else 0) * ROW_HEIGHT
  }

  /** Side by side with the gap between them, or one below the other with the gap between them. */
  predicate Apart(a: Box, b: Box)
  {
    || a.x + NODE_WIDTH + NODE_GAP_X <= b.x || b.x + NODE_WIDTH + NODE_GAP_X <= a.x
    || a.y + a.height + NODE_GAP_Y <= b.y || b.y + b.height + NODE_GAP_Y <= a.y
  }

  /** The boxes placed so far; the last `col` of them are the current row at rowY, all others end above it. */
  ghost predicate Placed(boxes: seq<Box>, names: seq<Name>, columns: map<Name, nat>, col: int, rowY: int, rowMaxHeight: int)
  {
    && |boxes| == |names| && 0 <= col <= |boxes| && col < MAX_PER_ROW && rowMaxHeight >= 0
    && (forall i :: 0 <= i < |boxes| ==> boxes[i].name == names[i] && boxes[i].height == HeightOf(columns, names[i]) && boxes[i].x >= 0)
    && (forall i :: |boxes| - col <= i < |boxes| ==>
          boxes[i].y == rowY && boxes[i].x == (i - (|boxes| - col)) * (NODE_WIDTH + NODE_GAP_X) && boxes[i].height <= rowMaxHeight)
    && (forall i :: 0 <= i < |boxes| - col ==> boxes[i].y + boxes[i].height + NODE_GAP_Y <= rowY)
    && (forall i, j :: 0 <= i < j < |boxes| ==> Apart(boxes[i], boxes[j]))
    && (forall i :: 0 <= i < |boxes| ==> boxes[i].x <= (MAX_PER_ROW - 1) * (NODE_WIDTH + NODE_GAP_X))
  }

  /** The box that goes next into the current row is apart from all placed before. */
  lemma NextIsApart(boxes: seq<Box>, names: seq<Name>, columns: map<Name, nat>, col: int, rowY: int, rowMaxHeight: int, box: Box)
    requires Placed(boxes, names, columns, col, rowY, rowMaxHeight) && box.x == col * (NODE_WIDTH + NODE_GAP_X) && box.y == rowY
    ensures forall i :: 0 <= i < |boxes| ==> Apart(boxes[i], box)
  {
  }

  lemma PlaceNext(boxes: seq<Box>, names: seq<Name>, columns: map<Name, nat>, col: int, rowY: int, rowMaxHeight: int, name: Name)
    requires Placed(boxes, names, columns, col, rowY, rowMaxHeight)
    ensures var height := HeightOf(columns, name);
      var top := if rowMaxHeight < height then height else rowMaxHeight;
      var boxes' := boxes + [Box(name, col * (NODE_WIDTH + NODE_GAP_X), rowY, height)];
      if col + 1 < MAX_PER_ROW then Placed(boxes', names + [name], columns, col + 1, rowY, top)
      else Placed(boxes', names + [name], columns, 0, rowY + top + NODE_GAP_Y, 0)
  {
    var height := HeightOf(columns, name);
    var box := Box(name, col * (NODE_WIDTH + NODE_GAP_X), rowY, height);
    NextIsApart(boxes, names, columns, col, rowY, rowMaxHeight, box);
    hide Apart;
    hide HeightOf;
    var top := if rowMaxHeight < height then height else rowMaxHeight;
    assert Placed(boxes + [box], names + [name], columns, if col + 1 < MAX_PER_ROW then col + 1 else 0,
                  if col + 1 < MAX_PER_ROW then rowY else rowY + top + NODE_GAP_Y, if col + 1 < MAX_PER_ROW then top else 0);
  }

  lemma RowEnds(boxes: seq<Box>, names: seq<Name>, columns: map<Name, nat>, col: int, rowY: int, rowMaxHeight: int)
    requires Placed(boxes, names, columns, col, rowY, rowMaxHeight)
    ensures Placed(boxes, names, columns, 0, rowY + rowMaxHeight + NODE_GAP_Y, 0)
  {
  }

  // ---- The rows ----

  /** The height of a row: that of its tallest box. */
  function Tallest(row: seq<Box>): int
  {
    if row == [] then 0
    else
      var rest, last := Tallest(row[..|row| - 1]), row[|row| - 1].height;
      if rest < last then last else rest
  }

  lemma TallestIs(row: seq<Box>)
    requires row != [] && forall b :: b in row ==> b.height >= 0
    ensures (forall b :: b in row ==> b.height <= Tallest(row)) && exists b :: b in row && b.height == Tallest(row)
    decreases |row|
  {
    var n := |row| - 1;
    assert row == row[..n] + [row[n]];
    if n > 0 {
      TallestIs(row[..n]);
    }
  }

  lemma TallestMore(row: seq<Box>, b: Box)
    ensures Tallest(row + [b]) == if Tallest(row) < b.height then b.height else Tallest(row)
  {
    assert (row + [b])[..|row|] == row;
  }

  /** Where the first box of a component is among all. */
  function Offset(components: seq<seq<Name>>, i: nat): nat
    requires i <= |components|
  {
    |Flat(components[..i])|
  }

  /** The size of a component's last row. */
  function LastRow(n: nat): nat
  {
    if n == 0 then 0 else if n % MAX_PER_ROW == 0 then MAX_PER_ROW else n % MAX_PER_ROW
  }

  /** Where the row below the `n` boxes before place `at` begins. */
  function Below(boxes: seq<Box>, at: nat, n: nat): int
    requires 0 < n <= at <= |boxes|
  {
    boxes[at - 1].y + Tallest(boxes[at - n..at]) + NODE_GAP_Y
  }

  /** The k-th box of component i, at its place: the fourth box and every fourth after it end a row, a row goes right below
      the row above it, and so does the first row of a component, except that a component which fills its last row is
      followed by a second gap. */
  ghost predicate InItsPlace(components: seq<seq<Name>>, boxes: seq<Box>, i: nat, k: nat)
    requires i < |components|
  {
    var at := Offset(components, i) + k;
    && at < |boxes| && boxes[at].x == k % MAX_PER_ROW * (NODE_WIDTH + NODE_GAP_X)
    && (k % MAX_PER_ROW > 0 ==> at > 0 && boxes[at].y == boxes[at - 1].y)
    && (k % MAX_PER_ROW == 0 && k > 0 ==> at >= MAX_PER_ROW && boxes[at].y == Below(boxes, at, MAX_PER_ROW))
    && (k == 0 && i == 0 ==> boxes[at].y == 0)
    && (k == 0 && i > 0 && components[i - 1] != [] ==>
          var m := |components[i - 1]|;
          at >= LastRow(m) && boxes[at].y == Below(boxes, at, LastRow(m)) + (if m % MAX_PER_ROW == 0 then NODE_GAP_Y else 0))
  }

  /** Everything before component i, and its first k boxes, are in their places. */
  ghost predicate AllInPlace(components: seq<seq<Name>>, boxes: seq<Box>, i: nat, k: nat)
  {
    && i <= |components|
    && (forall i', k' :: 0 <= i' < i && 0 <= k' < |components[i']| ==> InItsPlace(components, boxes, i', k'))
    && (forall k' :: 0 <= k' < k ==> i < |components| && InItsPlace(components, boxes, i, k'))
  }

  /** Where the next box goes, the k-th of component i: rowY is the top of its row, and rowMaxHeight the height of the row
      so far. */
  ghost predicate NextGoes(components: seq<seq<Name>>, boxes: seq<Box>, i: nat, k: nat, rowY: int, rowMaxHeight: int)
  {
    var at, r := |boxes|, k % MAX_PER_ROW;
    && i <= |components| && at == Offset(components, i) + k
    && (r > 0 ==> at >= r && rowY == boxes[at - 1].y && rowMaxHeight == Tallest(boxes[at - r..at]))
    && (r == 0 ==> rowMaxHeight == 0)
    && (r == 0 && k > 0 ==> at >= MAX_PER_ROW && rowY == Below(boxes, at, MAX_PER_ROW))
    && (k == 0 && i == 0 ==> rowY == 0)
    && (k == 0 && i > 0 && components[i - 1] != [] ==>
          var m := |components[i - 1]|;
          at >= LastRow(m) && rowY == Below(boxes, at, LastRow(m)) + (if m % MAX_PER_ROW == 0 then NODE_GAP_Y else 0))
  }

  lemma PlaceStays(components: seq<seq<Name>>, boxes: seq<Box>, b: Box, i: nat, k: nat)
    requires i < |components| && InItsPlace(components, boxes, i, k)
    ensures InItsPlace(components, boxes + [b], i, k)
  {
    var at := Offset(components, i) + k;
    hide Flat;
    forall n | 0 < n <= at ensures Below(boxes + [b], at, n) == Below(boxes, at, n) {
      BelowStays(boxes, b, at, n);
    }
    hide Below;
  }

  lemma BelowStays(boxes: seq<Box>, b: Box, at: nat, n: nat)
    requires 0 < n <= at <= |boxes|
    ensures Below(boxes + [b], at, n) == Below(boxes, at, n)
  {
    assert (boxes + [b])[at - n..at] == boxes[at - n..at];
  }

  lemma NextInPlace(components: seq<seq<Name>>, boxes: seq<Box>, i: nat, k: nat, rowY: int, rowMaxHeight: int, b: Box)
    requires i < |components| && NextGoes(components, boxes, i, k, rowY, rowMaxHeight)
    requires b.x == k % MAX_PER_ROW * (NODE_WIDTH + NODE_GAP_X) && b.y == rowY
    ensures InItsPlace(components, boxes + [b], i, k)
  {
    var at := |boxes|;
    hide Flat;
    forall n | 0 < n <= at ensures Below(boxes + [b], at, n) == Below(boxes, at, n) {
      BelowStays(boxes, b, at, n);
    }
    hide Below;
  }

  lemma RowGrows(boxes: seq<Box>, r: nat, rowMaxHeight: int, b: Box)
    requires r <= |boxes| && rowMaxHeight == Tallest(boxes[|boxes| - r..]) && b.height >= 0
    ensures Tallest((boxes + [b])[|boxes| - r..|boxes| + 1]) == if rowMaxHeight < b.height then b.height else rowMaxHeight
  {
    assert (boxes + [b])[|boxes| - r..|boxes| + 1] == boxes[|boxes| - r..] + [b];
    TallestMore(boxes[|boxes| - r..], b);
  }

  lemma NextColumn(k: nat)
    ensures (k + 1) % MAX_PER_ROW == if k % MAX_PER_ROW == MAX_PER_ROW - 1 then 0 else k % MAX_PER_ROW + 1
  {
  }

  /** The row so far, as the next box finds it. */
  lemma RowSoFar(components: seq<seq<Name>>, boxes: seq<Box>, i: nat, k: nat, rowY: int, rowMaxHeight: int)
    requires NextGoes(components, boxes, i, k, rowY, rowMaxHeight)
    ensures i <= |components| && |boxes| == Offset(components, i) + k && k % MAX_PER_ROW <= |boxes|
    ensures rowMaxHeight == Tallest(boxes[|boxes| - k % MAX_PER_ROW..])
  {
    assert boxes[|boxes| - k % MAX_PER_ROW..] == boxes[|boxes| - k % MAX_PER_ROW..|boxes|];
  }

  lemma NextNextGoes(components: seq<seq<Name>>, boxes: seq<Box>, i: nat, k: nat, rowY: int, rowMaxHeight: int, b: Box)
    requires i < |components| && NextGoes(components, boxes, i, k, rowY, rowMaxHeight) && b.y == rowY && b.height >= 0
    ensures var top := if rowMaxHeight < b.height then b.height else rowMaxHeight;
      if k % MAX_PER_ROW == MAX_PER_ROW - 1 then NextGoes(components, boxes + [b], i, k + 1, rowY + top + NODE_GAP_Y, 0)
      else NextGoes(components, boxes + [b], i, k + 1, rowY, top)
  {
    hide Flat;
    hide Offset;
    hide Tallest;
    RowSoFar(components, boxes, i, k, rowY, rowMaxHeight);
    RowGrows(boxes, k % MAX_PER_ROW, rowMaxHeight, b);
    NextColumn(k);
    var top := if rowMaxHeight < b.height then b.height else rowMaxHeight;
    RowGoesOn(components, boxes + [b], i, k, rowY, top);
  }

  lemma RowGoesOn(components: seq<seq<Name>>, boxes: seq<Box>, i: nat, k: nat, rowY: int, top: int)
    requires i < |components| && |boxes| == Offset(components, i) + k + 1 && k % MAX_PER_ROW + 1 <= |boxes|
    requires boxes[|boxes| - 1].y == rowY && top == Tallest(boxes[|boxes| - 1 - k % MAX_PER_ROW..|boxes|])
    requires (k + 1) % MAX_PER_ROW == if k % MAX_PER_ROW == MAX_PER_ROW - 1 then 0 else k % MAX_PER_ROW + 1
    ensures if k % MAX_PER_ROW == MAX_PER_ROW - 1 then NextGoes(components, boxes, i, k + 1, rowY + top + NODE_GAP_Y, 0)
      else NextGoes(components, boxes, i, k + 1, rowY, top)
  {
    hide Flat;
    hide Offset;
    hide Tallest;
  }

  lemma PlaceOne(components: seq<seq<Name>>, boxes: seq<Box>, i: nat, k: nat, rowY: int, rowMaxHeight: int, b: Box)
    requires i < |components| && AllInPlace(components, boxes, i, k) && NextGoes(components, boxes, i, k, rowY, rowMaxHeight)
    requires b.x == k % MAX_PER_ROW * (NODE_WIDTH + NODE_GAP_X) && b.y == rowY
    ensures AllInPlace(components, boxes + [b], i, k + 1)
  {
    hide InItsPlace;
    hide NextGoes;
    NextInPlace(components, boxes, i, k, rowY, rowMaxHeight, b);
    forall i', k' | 0 <= i' < |components| && 0 <= k' && InItsPlace(components, boxes, i', k')
      ensures InItsPlace(components, boxes + [b], i', k') {
      PlaceStays(components, boxes, b, i', k');
    }
  }

  lemma ComponentEnds(components: seq<seq<Name>>, boxes: seq<Box>, i: nat, rowY: int, rowMaxHeight: int)
    requires i < |components| && AllInPlace(components, boxes, i, |components[i]|)
    requires NextGoes(components, boxes, i, |components[i]|, rowY, rowMaxHeight)
    ensures AllInPlace(components, boxes, i + 1, 0) && NextGoes(components, boxes, i + 1, 0, rowY + rowMaxHeight + NODE_GAP_Y, 0)
  {
    assert components[..i + 1][..i] == components[..i];
    assert Offset(components, i + 1) == Offset(components, i) + |components[i]|;
    hide InItsPlace;
    hide Flat;
    hide Tallest;
    hide Offset;
  }

  /** The layout with k boxes of component i placed. */
  ghost predicate Laid(components: seq<seq<Name>>, columns: map<Name, nat>, boxes: seq<Box>, i: nat, k: nat, col: int, rowY: int,
                       rowMaxHeight: int)
    requires i < |components| && k <= |components[i]|
  {
    && Placed(boxes, Flat(components[..i]) + components[i][..k], columns, col, rowY, rowMaxHeight)
    && col == k % MAX_PER_ROW && AllInPlace(components, boxes, i, k) && NextGoes(components, boxes, i, k, rowY, rowMaxHeight)
  }

  lemma LaidNext(components: seq<seq<Name>>, columns: map<Name, nat>, boxes: seq<Box>, i: nat, k: nat, col: int, rowY: int,
                 rowMaxHeight: int)
    requires i < |components| && k < |components[i]| && Laid(components, columns, boxes, i, k, col, rowY, rowMaxHeight)
    ensures var height := HeightOf(columns, components[i][k]);
      var top := if rowMaxHeight < height then height else rowMaxHeight;
      var boxes' := boxes + [Box(components[i][k], col * (NODE_WIDTH + NODE_GAP_X), rowY, height)];
      if col + 1 < MAX_PER_ROW then Laid(components, columns, boxes', i, k + 1, col + 1, rowY, top)
      else Laid(components, columns, boxes', i, k + 1, 0, rowY + top + NODE_GAP_Y, 0)
  {
    hide Placed;
    hide AllInPlace;
    hide NextGoes;
    hide Flat;
    hide HeightOf;
    var names, name := Flat(components[..i]) + components[i][..k], components[i][k];
    var box := Box(name, col * (NODE_WIDTH + NODE_GAP_X), rowY, HeightOf(columns, name));
    assert 0 <= col < MAX_PER_ROW;
    PlaceNext(boxes, names, columns, col, rowY, rowMaxHeight, name);
    assert Flat(components[..i]) + components[i][..k + 1] == names + [name];
    HeightNotNegative(columns, name);
    PlaceOne(components, boxes, i, k, rowY, rowMaxHeight, box);
    NextNextGoes(components, boxes, i, k, rowY, rowMaxHeight, box);
    NextColumn(k);
  }

  lemma LaidStart(components: seq<seq<Name>>, columns: map<Name, nat>, boxes: seq<Box>, i: nat, y: int)
    requires i < |components| && Placed(boxes, Flat(components[..i]), columns, 0, y, 0)
    requires AllInPlace(components, boxes, i, 0) && NextGoes(components, boxes, i, 0, y, 0)
    ensures Laid(components, columns, boxes, i, 0, 0, y, 0)
  {
    hide Placed;
    hide AllInPlace;
    hide NextGoes;
    hide Flat;
    assert Flat(components[..i]) + components[i][..0] == Flat(components[..i]);
  }

  lemma LaidEnd(components: seq<seq<Name>>, columns: map<Name, nat>, boxes: seq<Box>, i: nat, col: int, rowY: int, rowMaxHeight: int)
    requires i < |components| && Laid(components, columns, boxes, i, |components[i]|, col, rowY, rowMaxHeight)
    ensures Placed(boxes, Flat(components[..i + 1]), columns, 0, rowY + rowMaxHeight + NODE_GAP_Y, 0)
    ensures AllInPlace(components, boxes, i + 1, 0) && NextGoes(components, boxes, i + 1, 0, rowY + rowMaxHeight + NODE_GAP_Y, 0)
  {
    hide Placed;
    hide AllInPlace;
    hide NextGoes;
    hide Flat;
    assert components[i][..|components[i]|] == components[i];
    FlatNext(components, i);
    ComponentEnds(components, boxes, i, rowY, rowMaxHeight);
    RowEnds(boxes, Flat(components[..i + 1]), columns, col, rowY, rowMaxHeight);
  }

  /** buildGraph's layout: rows of at most four, components one under the other. */
  method Layout(components: seq<seq<Name>>, columns: map<Name, nat>) returns (boxes: seq<Box>)
    ensures |boxes| == |Flat(components)|
    ensures forall i :: 0 <= i < |boxes| ==> boxes[i].name == Flat(components)[i] && boxes[i].height == HeightOf(columns, boxes[i].name)
    ensures forall i, j :: 0 <= i < j < |boxes| ==> Apart(boxes[i], boxes[j])
    ensures forall i :: 0 <= i < |boxes| ==> 0 <= boxes[i].x <= (MAX_PER_ROW - 1) * (NODE_WIDTH + NODE_GAP_X)
    ensures forall i, k :: 0 <= i < |components| && 0 <= k < |components[i]| ==> InItsPlace(components, boxes, i, k)
  {
    hide *;
    boxes := [];
    var y := 0;
    NonePlaced(columns, y);
    NoneInRows(components);
    assert components[..0] == [];
    for i := 0 to |components|
      invariant Placed(boxes, Flat(components[..i]), columns, 0, y, 0)
      invariant AllInPlace(components, boxes, i, 0) && NextGoes(components, boxes, i, 0, y, 0)
    {
      var col, rowMaxHeight, rowY := 0, 0, y;
      var component := components[i];
      LaidStart(components, columns, boxes, i, y);
      for k := 0 to |component|
        invariant Laid(components, columns, boxes, i, k, col, rowY, rowMaxHeight)
      {
        LaidNext(components, columns, boxes, i, k, col, rowY, rowMaxHeight);
        var name := component[k];
        var height := HeightOf(columns, name);
        boxes := boxes + [Box(name, col * (NODE_WIDTH + NODE_GAP_X), rowY, height)];
        rowMaxHeight := if rowMaxHeight < height then height else rowMaxHeight;
        col := col + 1;
        if col >= MAX_PER_ROW {
          col := 0;
          y := rowY + rowMaxHeight + NODE_GAP_Y;
          rowY := y;
          rowMaxHeight := 0;
        }
      }
      LaidEnd(components, columns, boxes, i, col, rowY, rowMaxHeight);
      y := rowY + rowMaxHeight + NODE_GAP_Y;
    }
    assert components[..|components|] == components;
    AllPlaced(boxes, Flat(components), columns, y);
    AllAreInPlace(components, boxes);
  }

  lemma FlatNext(components: seq<seq<Name>>, i: nat)
    requires i < |components|
    ensures Flat(components[..i + 1]) == Flat(components[..i]) + components[i]
  {
    assert components[..i + 1][..i] == components[..i];
  }

  lemma NoneInRows(components: seq<seq<Name>>)
    ensures AllInPlace(components, [], 0, 0) && NextGoes(components, [], 0, 0, 0, 0)
  {
  }

  lemma HeightNotNegative(columns: map<Name, nat>, name: Name)
    ensures HeightOf(columns, name) >= 0
  {
  }

  lemma AllAreInPlace(components: seq<seq<Name>>, boxes: seq<Box>)
    requires AllInPlace(components, boxes, |components|, 0)
    ensures forall i, k :: 0 <= i < |components| && 0 <= k < |components[i]| ==> InItsPlace(components, boxes, i, k)
  {
  }

  lemma NonePlaced(columns: map<Name, nat>, y: int)
    ensures Placed([], Flat([]), columns, 0, y, 0)
  {
  }

  lemma AllPlaced(boxes: seq<Box>, names: seq<Name>, columns: map<Name, nat>, y: int)
    requires Placed(boxes, names, columns, 0, y, 0)
    ensures |boxes| == |names|
    ensures forall i :: 0 <= i < |boxes| ==> boxes[i].name == names[i] && boxes[i].height == HeightOf(columns, boxes[i].name)
    ensures forall i, j :: 0 <= i < j < |boxes| ==> Apart(boxes[i], boxes[j])
    ensures forall i :: 0 <= i < |boxes| ==> 0 <= boxes[i].x <= (MAX_PER_ROW - 1) * (NODE_WIDTH + NODE_GAP_X)
  {
  }

  // ---- The whole diagram ----

  datatype Edge = Edge(source: Name, target: Name, column: string)

  /** byName, as far as the layout needs it: of several tables with one name, the last counts. */
  function ColumnsByName(tables: seq<Table>): (m: map<Name, nat>)
    ensures m.Keys == Names(tables)
  {
    if tables == [] then map[]
    else
      var n := |tables| - 1;
      assert tables == tables[..n] + [tables[n]];
      ColumnsByName(tables[..n])[tables[n].name := tables[n].columns]
  }

  predicate LastOfName(tables: seq<Table>, n: nat)
    requires n < |tables|
  {
    forall m :: n < m < |tables| ==> tables[m].name != tables[n].name
  }

  /** A header and a line for each column. */
  lemma {:induction false} HeightIs(tables: seq<Table>, n: nat)
    requires n < |tables| && LastOfName(tables, n)
    ensures HeightOf(ColumnsByName(tables), tables[n].name) == 32 + 20 * tables[n].columns
    decreases |tables|
  {
    if n < |tables| - 1 {
      assert tables[n].name != tables[|tables| - 1].name;
      HeightIs(tables[..|tables| - 1], n);
    }
  }

  /** An edge is drawn for this foreign key. */
  predicate Drawn(tables: seq<Table>, t: Table, fk: ForeignKey, e: Edge)
  {
    fk.refTable in Names(tables) && fk.refTable != t.name && e == Edge(t.name, fk.refTable, fk.column)
  }

  ghost predicate IsDrawn(tables: seq<Table>, e: Edge)
  {
    exists t :: t in tables && exists fk :: fk in t.foreignKeys && Drawn(tables, t, fk, e)
  }

  /** How many of a table's first m foreign keys are drawn, and how many of all tables'. */
  function DrawnOf(tables: seq<Table>, t: Table, m: nat): nat
    requires m <= |t.foreignKeys|
  {
    if m == 0 then 0
    else
      var ref := t.foreignKeys[m - 1].refTable;
      DrawnOf(tables, t, m - 1) + if ref in Names(tables) && ref != t.name then 1 else 0
  }

  function DrawnUpTo(tables: seq<Table>, n: nat): nat
    requires n <= |tables|
  {
    if n == 0 then 0 else DrawnUpTo(tables, n - 1) + DrawnOf(tables, tables[n - 1], |tables[n - 1].foreignKeys|)
  }

  lemma OneDrawn(tables: seq<Table>, t: Table, fk: ForeignKey)
    requires t in tables && fk in t.foreignKeys && fk.refTable in Names(tables) && fk.refTable != t.name
    ensures IsDrawn(tables, Edge(t.name, fk.refTable, fk.column))
  {
    assert Drawn(tables, t, fk, Edge(t.name, fk.refTable, fk.column));
  }

  method DrawEdges(tables: seq<Table>) returns (edges: seq<Edge>)
    ensures forall e :: e in edges ==> IsDrawn(tables, e)
    ensures forall t, fk :: t in tables && fk in t.foreignKeys && fk.refTable in Names(tables) && fk.refTable != t.name ==>
      Edge(t.name, fk.refTable, fk.column) in edges
    ensures |edges| == DrawnUpTo(tables, |tables|)
  {
    hide Names;
    hide IsDrawn;
    edges := [];
    for i := 0 to |tables|
      invariant forall e :: e in edges ==> IsDrawn(tables, e)
      invariant forall k, fk :: 0 <= k < i && fk in tables[k].foreignKeys && fk.refTable in Names(tables) && fk.refTable != tables[k].name ==>
        Edge(tables[k].name, fk.refTable, fk.column) in edges
      invariant |edges| == DrawnUpTo(tables, i)
    {
      var t := tables[i];
      ghost var before := edges;
      for j := 0 to |t.foreignKeys|
        invariant forall e :: e in before ==> e in edges
        invariant forall e :: e in edges ==> IsDrawn(tables, e)
        invariant forall k :: 0 <= k < j && t.foreignKeys[k].refTable in Names(tables) && t.foreignKeys[k].refTable != t.name ==>
          Edge(t.name, t.foreignKeys[k].refTable, t.foreignKeys[k].column) in edges
        invariant |edges| == |before| + DrawnOf(tables, t, j)
      {
        var fk := t.foreignKeys[j];
        if fk.refTable in Names(tables) && fk.refTable != t.name {
          OneDrawn(tables, t, fk);
          edges := edges + [Edge(t.name, fk.refTable, fk.column)];
        }
      }
    }
  }

  /** buildGraph. */
  method BuildGraph(tables: seq<Table>) returns (boxes: seq<Box>, edges: seq<Edge>, ghost components: seq<seq<Name>>,
                    ghost g: Graph)
    ensures g.Keys == Names(tables) && Symmetric(g) && forall a, b :: a in g ==> (b in g[a] <==> Linked(tables, a, b))
    ensures Covering(g, components, g.Keys)
    ensures |boxes| == |Flat(components)| && forall i :: 0 <= i < |boxes| ==> boxes[i].name == Flat(components)[i]
    ensures forall i, j :: 0 <= i < j < |boxes| ==> Apart(boxes[i], boxes[j])
    ensures forall i, k :: 0 <= i < |components| && 0 <= k < |components[i]| ==> InItsPlace(components, boxes, i, k)
    ensures forall i, n :: 0 <= i < |boxes| && 0 <= n < |tables| && LastOfName(tables, n) && tables[n].name == boxes[i].name ==>
      boxes[i].height == 32 + 20 * tables[n].columns
    ensures forall e :: e in edges ==> IsDrawn(tables, e)
    ensures forall t, fk :: t in tables && fk in t.foreignKeys && fk.refTable in Names(tables) && fk.refTable != t.name ==>
      Edge(t.name, fk.refTable, fk.column) in edges
  {
    hide Covering;
    hide InItsPlace;
    hide Apart;
    hide Linked;
    hide Symmetric;
    hide IsDrawn;
    var graph := BuildAdjacency(tables);
    var found := Components(tables, graph);
    boxes := Layout(found, ColumnsByName(tables));
    forall i, n | 0 <= i < |boxes| && 0 <= n < |tables| && LastOfName(tables, n) && tables[n].name == boxes[i].name
      ensures boxes[i].height == 32 + 20 * tables[n].columns
    {
      hide *;
      HeightIs(tables, n);
    }
    edges := DrawEdges(tables);
    g, components := graph, found;
  }

  /** Every table is placed exactly once, and nothing else is. */
  lemma PlacedOnce(tables: seq<Table>, g: Graph, components: seq<seq<Name>>, n: Name)
    requires g.Keys == Names(tables) && Covering(g, components, g.Keys)
    ensures n in Flat(components) <==> exists t :: t in tables && t.name == n
    ensures NoRepeats(Flat(components))
  {
    assert n in Flat(components) <==> n in Members(Flat(components));
  }

  /** An edge joins two tables of one component. */
  lemma EdgesStayInside(tables: seq<Table>, g: Graph, components: seq<seq<Name>>, e: Edge)
    requires g.Keys == Names(tables) && Symmetric(g) && forall a, b :: a in g ==> (b in g[a] <==> Linked(tables, a, b))
    requires Covering(g, components, g.Keys) && IsDrawn(tables, e)
    ensures exists i :: 0 <= i < |components| && e.source in components[i] && e.target in components[i]
  {
    hide Covering;
    assert Linked(tables, e.source, e.target);
    ConnectedSelf(g, e.source);
    ConnectedStep(g, e.source, e.source, e.target);
    ComponentsAreConnected(g, components, e.source, e.target);
  }
}
