/** One erase pass: every group of 4 or more same-coloured puyos connected through
    up/down/left/right neighbours is emptied, and the erased cells are counted.
    The groups are specified by paths (Linked, Group); the method finds them by a
    breadth-first search from every cell, as the source does. */
module Connections {
  import opened PuyoTypes

  // ----- Specification: groups of connected same-coloured puyos -----

  /** The four neighbours, in the order the search visits them: right, left, down, up. */
  predicate Adjacent(p: Pos, q: Pos) {
    q == Pos(p.y, p.x + 1) || q == Pos(p.y, p.x - 1) || q == Pos(p.y + 1, p.x) || q == Pos(p.y - 1, p.x)
  }

  /** A path of neighbouring positions inside the field, all holding the same cell
      as its first position. */
  ghost predicate IsPath(f: Field, path: seq<Pos>)
    requires IsField(f)
  {
    && |path| > 0
    && (forall i :: 0 <= i < |path| ==> InField(path[i]))
    && (forall i :: 0 <= i < |path| ==> At(f, path[i]) == At(f, path[0]))
    && (forall i :: 0 <= i < |path| - 1 ==> Adjacent(path[i], path[i + 1]))
  }

  /** b is reachable from the puyo at a through same-coloured neighbours. */
  ghost predicate Linked(f: Field, a: Pos, b: Pos)
    requires IsField(f)
  {
    InField(a) && At(f, a) != Empty &&
    exists path :: IsPath(f, path) && path[0] == a && path[|path| - 1] == b
  }

  /** All positions of the field. */
  function Cells(): (s: set<Pos>)
    ensures forall p :: p in s <==> InField(p)
  {
    set y, x | 0 <= y < FIELD_HEIGHT && 0 <= x < FIELD_WIDTH :: Pos(y, x)
  }

  /** The group of the puyo at a: every position linked to it. */
  ghost function Group(f: Field, a: Pos): set<Pos>
    requires IsField(f)
  {
    set p | p in Cells() && Linked(f, a, p)
  }

  /** A cell that the erase pass empties: a puyo whose group has 4 or more members. */
  ghost predicate Erasable(f: Field, p: Pos)
    requires IsField(f)
  {
    InField(p) && At(f, p) != Empty && |Group(f, p)| >= 4
  }

  ghost function ErasedCells(f: Field): set<Pos>
    requires IsField(f)
  {
    set p | p in Cells() && Erasable(f, p)
  }

  /** The field after one erase pass: erasable cells emptied, every other cell kept. */
  ghost function Erase(f: Field): (r: Field)
    requires IsField(f)
    ensures IsField(r)
    ensures forall y, x :: 0 <= y < FIELD_HEIGHT && 0 <= x < FIELD_WIDTH ==>
              r[y][x] == if Erasable(f, Pos(y, x)) then Empty else f[y][x]
  {
    seq(FIELD_HEIGHT, y requires 0 <= y < FIELD_HEIGHT =>
      seq(FIELD_WIDTH, x requires 0 <= x < FIELD_WIDTH => if Erasable(f, Pos(y, x)) then Empty else f[y][x]))
  }

  // ----- Facts about paths and groups -----

  lemma LinkedSelf(f: Field, a: Pos)
    requires IsField(f) && InField(a) && At(f, a) != Empty
    ensures Linked(f, a, a)
  {
    assert IsPath(f, [a]);
  }

  /** Every member of a group is in the field and holds the same puyo as its origin. */
  lemma LinkedSameCell(f: Field, a: Pos, b: Pos)
    requires IsField(f) && Linked(f, a, b)
    ensures InField(b) && At(f, b) == At(f, a)
  {
    var path :| IsPath(f, path) && path[0] == a && path[|path| - 1] == b;
  }

  /** Extending a path by one same-coloured neighbour. */
  lemma LinkedStep(f: Field, a: Pos, b: Pos, c: Pos)
    requires IsField(f) && Linked(f, a, b)
    requires InField(c) && Adjacent(b, c) && At(f, c) == At(f, b)
    ensures Linked(f, a, c)
  {
    var path :| IsPath(f, path) && path[0] == a && path[|path| - 1] == b;
    var path' := path + [c];
    assert IsPath(f, path');
  }

  function Reversed(s: seq<Pos>): (r: seq<Pos>)
    ensures |r| == |s|
    ensures forall i :: 0 <= i < |s| ==> r[i] == s[|s| - 1 - i]
  {
    if s == [] then [] else Reversed(s[1..]) + [s[0]]
  }

  lemma LinkedSymmetric(f: Field, a: Pos, b: Pos)
    requires IsField(f) && Linked(f, a, b)
    ensures Linked(f, b, a)
  {
    var path :| IsPath(f, path) && path[0] == a && path[|path| - 1] == b;
    var back := Reversed(path);
    forall i | 0 <= i < |back| - 1
      ensures Adjacent(back[i], back[i + 1])
    {
      var k := |path| - 2 - i;
      assert Adjacent(path[k], path[k + 1]);
    }
    assert IsPath(f, back);
  }

  lemma LinkedTransitive(f: Field, a: Pos, b: Pos, c: Pos)
    requires IsField(f) && Linked(f, a, b) && Linked(f, b, c)
    ensures Linked(f, a, c)
  {
    var p1 :| IsPath(f, p1) && p1[0] == a && p1[|p1| - 1] == b;
    var p2 :| IsPath(f, p2) && p2[0] == b && p2[|p2| - 1] == c;
    var path := p1 + p2[1..];
    assert forall i :: |p1| <= i < |path| ==> path[i] == p2[i - |p1| + 1];
    assert IsPath(f, path);
  }

  /** Groups partition the puyos: a member's group is the whole group. */
  lemma GroupOfMember(f: Field, a: Pos, b: Pos)
    requires IsField(f) && b in Group(f, a)
    ensures Group(f, b) == Group(f, a)
  {
    LinkedSymmetric(f, a, b);
    forall p | p in Group(f, b)
      ensures p in Group(f, a)
    {
      LinkedTransitive(f, a, b, p);
    }
    forall p | p in Group(f, a)
      ensures p in Group(f, b)
    {
      LinkedTransitive(f, b, a, p);
    }
  }

  /** A set of positions closed under same-coloured neighbours. */
  ghost predicate Closed(f: Field, s: set<Pos>)
    requires IsField(f)
  {
    forall p, q :: p in s && InField(p) && InField(q) && Adjacent(p, q) && At(f, q) == At(f, p) ==> q in s
  }

  /** A closed set holding a puyo holds its whole group. */
  lemma ClosedHoldsGroup(f: Field, s: set<Pos>, a: Pos)
    requires IsField(f) && Closed(f, s) && a in s
    ensures Group(f, a) <= s
  {
    forall b | b in Group(f, a)
      ensures b in s
    {
      var path :| IsPath(f, path) && path[0] == a && path[|path| - 1] == b;
      var i := 0;
      while i < |path| - 1
        invariant 0 <= i < |path| && path[i] in s
      {
        assert Adjacent(path[i], path[i + 1]);
        i := i + 1;
      }
    }
  }

  // ----- The breadth-first search -----

  predicate Distinct(s: seq<Pos>) {
    forall i, j :: 0 <= i < j < |s| ==> s[i] != s[j]
  }

  /** A distinct sequence has as many elements as its set. */
  lemma {:induction false} DistinctSize(s: seq<Pos>)
    requires Distinct(s)
    ensures |set p | p in s| == |s|
  {
    if s != [] {
      var t := s[1..];
      DistinctSize(t);
      assert (set p | p in s) == {s[0]} + (set p | p in t);
      assert s[0] !in t;
    }
  }

  predicate IsMatrix(m: seq<seq<bool>>) {
    |m| == FIELD_HEIGHT && forall y :: 0 <= y < |m| ==> |m[y]| == FIELD_WIDTH
  }

  function FalseMatrix(): (m: seq<seq<bool>>)
    ensures IsMatrix(m)
    ensures forall y, x :: 0 <= y < FIELD_HEIGHT && 0 <= x < FIELD_WIDTH ==> !m[y][x]
  {
    seq(FIELD_HEIGHT, _ => seq(FIELD_WIDTH, _ => false))
  }

  function Mark(m: seq<seq<bool>>, p: Pos): (r: seq<seq<bool>>)
    requires IsMatrix(m) && InField(p)
    ensures IsMatrix(r)
    ensures forall q :: InField(q) ==> (r[q.y][q.x] <==> m[q.y][q.x] || q == p)
  {
    m[p.y := m[p.y][p.x := true]]
  }

  /** The state of the search from start: the positions found so far are listed
      once each in connected, each found from an earlier one (Rooted), marked in
      visited, and the first head of them have had all their neighbours looked at. */
  ghost predicate SearchState(f: Field, start: Pos, visited: seq<seq<bool>>, connected: seq<Pos>, parent: seq<int>,
                              head: int)
    requires IsField(f)
  {
    && 0 <= head <= |connected|
    && Distinct(connected)
    && Rooted(f, start, connected, parent)
    && Marks(visited, connected)
    && Expanded(f, connected, head)
  }

  /** start comes first; every found position is in the field, holds start's cell
      and neighbours the earlier position it was found from, its parent. */
  ghost predicate Rooted(f: Field, start: Pos, connected: seq<Pos>, parent: seq<int>)
    requires IsField(f)
  {
    && InField(start) && |connected| > 0 && connected[0] == start && |parent| == |connected|
    && (forall i :: 0 <= i < |connected| ==> InField(connected[i]) && At(f, connected[i]) == At(f, start))
    && (forall i :: 0 < i < |connected| ==> 0 <= parent[i] < i && Adjacent(connected[parent[i]], connected[i]))
  }

  /** visited marks exactly the found positions. */
  ghost predicate Marks(visited: seq<seq<bool>>, connected: seq<Pos>) {
    IsMatrix(visited) && forall p :: InField(p) ==> (visited[p.y][p.x] <==> p in connected)
  }

  /** The first head found positions have all their same-coloured neighbours found. */
  ghost predicate Expanded(f: Field, connected: seq<Pos>, head: int)
    requires IsField(f) && 0 <= head <= |connected|
  {
    forall i, q ::
      (0 <= i < head && InField(connected[i]) && InField(q) && Adjacent(connected[i], q) &&
       At(f, q) == At(f, connected[i])) ==> q in connected
  }

  /** Every position found from start is linked to it. */
  lemma RootedLinked(f: Field, start: Pos, connected: seq<Pos>, parent: seq<int>)
    requires IsField(f) && Rooted(f, start, connected, parent) && At(f, start) != Empty
    ensures forall i :: 0 <= i < |connected| ==> Linked(f, start, connected[i])
  {
    LinkedSelf(f, start);
    var i := 1;
    while i < |connected|
      invariant 1 <= i <= |connected|
      invariant forall j :: 0 <= j < i ==> Linked(f, start, connected[j])
    {
      LinkedStep(f, start, connected[parent[i]], connected[i]);
      i := i + 1;
    }
  }

  lemma RootedAdd(f: Field, start: Pos, connected: seq<Pos>, parent: seq<int>, h: int, n: Pos)
    requires IsField(f) && Rooted(f, start, connected, parent) && 0 <= h < |connected|
    requires InField(n) && Adjacent(connected[h], n) && At(f, n) == At(f, start)
    ensures Rooted(f, start, connected + [n], parent + [h])
  {
  }

  lemma MarksAdd(visited: seq<seq<bool>>, connected: seq<Pos>, n: Pos)
    requires Marks(visited, connected) && InField(n)
    ensures Marks(Mark(visited, n), connected + [n])
  {
  }

  lemma ExpandedAdd(f: Field, connected: seq<Pos>, head: int, n: Pos)
    requires IsField(f) && 0 <= head <= |connected| && Expanded(f, connected, head)
    ensures Expanded(f, connected + [n], head)
  {
    forall i, q | 0 <= i < head && InField(connected[i]) && InField(q) && Adjacent(connected[i], q) &&
                  At(f, q) == At(f, connected[i])
      ensures q in connected + [n]
    {
      assert (connected + [n])[i] == connected[i];
    }
  }

  lemma DistinctAdd(connected: seq<Pos>, n: Pos)
    requires Distinct(connected) && n !in connected
    ensures Distinct(connected + [n])
  {
  }

  /** Recording a new same-coloured neighbour of the position at head keeps the
      search state; its parent is head. */
  lemma SearchStateAdd(f: Field, start: Pos, visited: seq<seq<bool>>, connected: seq<Pos>, parent: seq<int>,
                       head: int, n: Pos)
    requires IsField(f) && SearchState(f, start, visited, connected, parent, head) && head < |connected|
    requires Adjacent(connected[head], n) && InField(n) && !visited[n.y][n.x] && At(f, n) == At(f, start)
    ensures SearchState(f, start, Mark(visited, n), connected + [n], parent + [head], head)
  {
    RootedAdd(f, start, connected, parent, head, n);
    MarksAdd(visited, connected, n);
    ExpandedAdd(f, connected, head, n);
    DistinctAdd(connected, n);
  }

  /** The directions of the source's neighbour loop, as (dy, dx). */
  const Directions: seq<(int, int)> := [(0, 1), (0, -1), (1, 0), (-1, 0)]

  /** The neighbour of cur in direction dir is outside the field, holds a different
      cell, or has been found. */
  ghost predicate NeighbourHandled(f: Field, visited: seq<seq<bool>>, cur: Pos, dir: (int, int))
    requires IsField(f) && IsMatrix(visited) && InField(cur)
  {
    var n := Pos(cur.y + dir.0, cur.x + dir.1);
    InField(n) && f[n.y][n.x] == At(f, cur) ==> visited[n.y][n.x]
  }

  /** The neighbours of cur in the first d directions are all handled. */
  ghost predicate HandledUpTo(f: Field, visited: seq<seq<bool>>, cur: Pos, d: int)
    requires IsField(f) && IsMatrix(visited) && InField(cur)
  {
    forall e :: 0 <= e < d && e < |Directions| ==> NeighbourHandled(f, visited, cur, Directions[e])
  }

  lemma DirectionIsAdjacent(p: Pos, d: int)
    requires 0 <= d < |Directions|
    ensures Adjacent(p, Pos(p.y + Directions[d].0, p.x + Directions[d].1))
  {
    if d == 0 {
    } else if d == 1 {
    } else if d == 2 {
    } else {
    }
  }

  lemma HandledByMark(f: Field, visited: seq<seq<bool>>, cur: Pos, dir: (int, int))
    requires IsField(f) && IsMatrix(visited) && InField(cur) && InField(Pos(cur.y + dir.0, cur.x + dir.1))
    ensures NeighbourHandled(f, Mark(visited, Pos(cur.y + dir.0, cur.x + dir.1)), cur, dir)
  {
  }

  lemma HandledWithout(f: Field, visited: seq<seq<bool>>, cur: Pos, dir: (int, int))
    requires IsField(f) && IsMatrix(visited) && InField(cur)
    requires var n := Pos(cur.y + dir.0, cur.x + dir.1);
             !InField(n) || visited[n.y][n.x] || f[n.y][n.x] != At(f, cur)
    ensures NeighbourHandled(f, visited, cur, dir)
  {
  }

  /** A handled direction stays handled when more positions are marked, and the
      direction just visited joins them. */
  lemma HandledStep(f: Field, before: seq<seq<bool>>, after: seq<seq<bool>>, cur: Pos, d: int)
    requires IsField(f) && IsMatrix(before) && IsMatrix(after) && InField(cur) && 0 <= d < |Directions|
    requires HandledUpTo(f, before, cur, d) && NeighbourHandled(f, after, cur, Directions[d])
    requires forall p :: InField(p) && before[p.y][p.x] ==> after[p.y][p.x]
    ensures HandledUpTo(f, after, cur, d + 1)
  {
    forall e | 0 <= e < d
      ensures NeighbourHandled(f, after, cur, Directions[e])
    {
      assert NeighbourHandled(f, before, cur, Directions[e]);
    }
  }

  /** Once all four neighbours of the position at head are handled, head can advance. */
  lemma NeighboursExpanded(f: Field, visited: seq<seq<bool>>, connected: seq<Pos>, head: int)
    requires IsField(f) && Marks(visited, connected) && 0 <= head < |connected| && InField(connected[head])
    requires Expanded(f, connected, head) && HandledUpTo(f, visited, connected[head], |Directions|)
    ensures Expanded(f, connected, head + 1)
  {
    var cur := connected[head];
    forall n | InField(n) && Adjacent(cur, n) && At(f, n) == At(f, cur)
      ensures visited[n.y][n.x]
    {
      var e := if n == Pos(cur.y, cur.x + 1) then 0
               else if n == Pos(cur.y, cur.x - 1) then 1
               else if n == Pos(cur.y + 1, cur.x) then 2
               else 3;
      assert n == Pos(cur.y + Directions[e].0, cur.x + Directions[e].1);
      assert NeighbourHandled(f, visited, cur, Directions[e]);
    }
  }

  /** When every found position has been expanded, the found positions are exactly
      the group. */
  lemma SearchComplete(f: Field, start: Pos, visited: seq<seq<bool>>, connected: seq<Pos>, parent: seq<int>)
    requires IsField(f) && SearchState(f, start, visited, connected, parent, |connected|) && At(f, start) != Empty
    ensures (set p | p in connected) == Group(f, start)
  {
    RootedLinked(f, start, connected, parent);
    var s := set p | p in connected;
    forall p, q | p in s && InField(p) && InField(q) && Adjacent(p, q) && At(f, q) == At(f, p)
      ensures q in s
    {
      var i :| 0 <= i < |connected| && connected[i] == p;
    }
    assert Closed(f, s);
    ClosedHoldsGroup(f, s, start);
  }

  /** The state of the neighbour loop for cur, the position at head just taken from
      the queue: the queue holds the found positions after head, and unvisited the
      positions not yet marked. */
  ghost predicate Expanding(f: Field, start: Pos, cur: Pos, visited: seq<seq<bool>>, q: seq<Pos>,
                            connected: seq<Pos>, parent: seq<int>, head: int, unvisited: set<Pos>)
    requires IsField(f)
  {
    && SearchState(f, start, visited, connected, parent, head)
    && head < |connected| && connected[head] == cur
    && q == connected[head + 1..]
    && (forall p :: InField(p) ==> (p in unvisited <==> !visited[p.y][p.x]))
    && unvisited <= Cells()
  }

  /** The state of the search loop: the queue holds the found positions from head on. */
  ghost predicate Searching(f: Field, start: Pos, visited: seq<seq<bool>>, q: seq<Pos>, connected: seq<Pos>,
                            parent: seq<int>, head: int, unvisited: set<Pos>)
    requires IsField(f)
  {
    && SearchState(f, start, visited, connected, parent, head)
    && q == connected[head..]
    && (forall p :: InField(p) ==> (p in unvisited <==> !visited[p.y][p.x]))
    && unvisited <= Cells()
  }

  /** Recording a new same-coloured neighbour of cur keeps the loop state. */
  lemma RecordFound(f: Field, start: Pos, cur: Pos, visited: seq<seq<bool>>, q: seq<Pos>,
                    connected: seq<Pos>, parent: seq<int>, head: int, unvisited: set<Pos>, n: Pos)
    requires IsField(f) && Expanding(f, start, cur, visited, q, connected, parent, head, unvisited)
    requires Adjacent(cur, n) && InField(n) && !visited[n.y][n.x] && At(f, n) == At(f, start)
    ensures Expanding(f, start, cur, Mark(visited, n), q + [n], connected + [n], parent + [head], head, unvisited - {n})
    ensures |unvisited - {n}| == |unvisited| - 1
  {
    SearchStateAdd(f, start, visited, connected, parent, head, n);
    assert (connected + [n])[head + 1..] == connected[head + 1..] + [n];
  }

  /** One step of the neighbour loop: the neighbour of cur in direction dir is
      marked, queued and recorded when it lies in the field, is unvisited and holds
      start's colour. */
  method VisitNeighbour(field: Field, start: Pos, cur: Pos, dir: (int, int),
                        visited: seq<seq<bool>>, q: seq<Pos>, connected: seq<Pos>,
                        ghost parent: seq<int>, ghost head: int, ghost unvisited: set<Pos>)
    returns (visited': seq<seq<bool>>, q': seq<Pos>, connected': seq<Pos>,
             ghost parent': seq<int>, ghost unvisited': set<Pos>)
    requires IsField(field) && InField(start)
    requires Expanding(field, start, cur, visited, q, connected, parent, head, unvisited)
    requires Adjacent(cur, Pos(cur.y + dir.0, cur.x + dir.1))
    ensures Expanding(field, start, cur, visited', q', connected', parent', head, unvisited')
    ensures |connected| <= |connected'|
    ensures |unvisited'| + |connected'| == |unvisited| + |connected|
    ensures NeighbourHandled(field, visited', cur, dir)
    ensures forall p :: InField(p) && visited[p.y][p.x] ==> visited'[p.y][p.x]
  {
    var ny := cur.y + dir.0;
    var nx := cur.x + dir.1;
    if 0 <= ny < FIELD_HEIGHT && 0 <= nx < FIELD_WIDTH && !visited[ny][nx] && field[ny][nx] == field[start.y][start.x] {
      var n := Pos(ny, nx);
      RecordFound(field, start, cur, visited, q, connected, parent, head, unvisited, n);
      visited' := Mark(visited, n);
      q' := q + [n];
      connected' := connected + [n];
      parent' := parent + [head];
      unvisited' := unvisited - {n};
      HandledByMark(field, visited, cur, dir);
    } else {
      visited', q', connected', parent', unvisited' := visited, q, connected, parent, unvisited;
      HandledWithout(field, visited, cur, dir);
    }
  }

  /** The neighbour loop for the position cur just taken from the queue: afterwards
      every same-coloured neighbour of cur has been found, and head can advance. */
  method ExpandFrom(field: Field, start: Pos, cur: Pos, visited: seq<seq<bool>>, q: seq<Pos>, connected: seq<Pos>,
                    ghost parent: seq<int>, ghost head: int, ghost unvisited: set<Pos>)
    returns (visited': seq<seq<bool>>, q': seq<Pos>, connected': seq<Pos>,
             ghost parent': seq<int>, ghost unvisited': set<Pos>)
    requires IsField(field) && InField(start)
    requires Expanding(field, start, cur, visited, q, connected, parent, head, unvisited)
    ensures Searching(field, start, visited', q', connected', parent', head + 1, unvisited')
    ensures |connected| <= |connected'|
    ensures |unvisited'| + |connected'| == |unvisited| + |connected|
  {
    visited', q', connected', parent', unvisited' := visited, q, connected, parent, unvisited;
    for d := 0 to |Directions|
      invariant Expanding(field, start, cur, visited', q', connected', parent', head, unvisited')
      invariant |connected| <= |connected'|
      invariant |unvisited'| + |connected'| == |unvisited| + |connected|
      invariant HandledUpTo(field, visited', cur, d)
    {
      DirectionIsAdjacent(cur, d);
      ghost var before := visited';
      visited', q', connected', parent', unvisited' :=
        VisitNeighbour(field, start, cur, Directions[d], visited', q', connected', parent', head, unvisited');
      HandledStep(field, before, visited', cur, d);
    }
    NeighboursExpanded(field, visited', connected', head);
  }

  /** The breadth-first search from start, as in the source: a queue, a fresh visited
      matrix and the list of every position found. Returns the group of start, each
      member once. */
  method Search(field: Field, start: Pos) returns (connected: seq<Pos>)
    requires IsField(field) && InField(start) && At(field, start) != Empty
    ensures Distinct(connected)
    ensures forall p :: p in connected <==> p in Group(field, start)
    ensures forall i :: 0 <= i < |connected| ==> InField(connected[i])
    ensures |connected| == |Group(field, start)|
  {
    var q := [start];
    var visited := Mark(FalseMatrix(), start);
    connected := [start];
    ghost var parent := [0];
    ghost var head := 0;
    ghost var unvisited := Cells() - {start};
    while |q| > 0
      invariant Searching(field, start, visited, q, connected, parent, head, unvisited)
      decreases |unvisited|, |q|
    {
      var cur := q[0];
      q := q[1..];
      visited, q, connected, parent, unvisited :=
        ExpandFrom(field, start, cur, visited, q, connected, parent, head, unvisited);
      head := head + 1;
    }
    SearchComplete(field, start, visited, connected, parent);
    DistinctSize(connected);
    assert (set p | p in connected) == Group(field, start);
  }

  // ----- The scan over the field -----

  /** The position of p in the source's row-by-row scan. */
  function Index(p: Pos): int {
    p.y * FIELD_WIDTH + p.x
  }

  lemma IndexInjective(a: Pos, b: Pos)
    requires InField(a) && InField(b) && Index(a) == Index(b)
    ensures a == b
  {
  }

  /** Some member of p's group comes before scan position k. */
  ghost predicate Reached(f: Field, p: Pos, k: int)
    requires IsField(f)
  {
    exists r :: r in Group(f, p) && Index(r) < k
  }

  /** The cells marked in a matrix. */
  ghost function Marked(m: seq<seq<bool>>): set<Pos>
    requires IsMatrix(m)
  {
    set p | p in Cells() && m[p.y][p.x]
  }

  /** The state of the scan before position k: a cell is marked exactly when it is
      erasable and some member of its group has been scanned already. */
  ghost predicate ScanState(f: Field, toErase: seq<seq<bool>>, k: int)
    requires IsField(f)
  {
    IsMatrix(toErase) &&
    forall p :: InField(p) ==> (toErase[p.y][p.x] <==> Erasable(f, p) && Reached(f, p, k))
  }

  /** A group reached at k + 1 but not at k contains the cell scanned at k. */
  lemma ReachedStep(f: Field, p: Pos, s: Pos)
    requires IsField(f) && InField(s) && Reached(f, p, Index(s) + 1) && !Reached(f, p, Index(s))
    ensures s in Group(f, p)
  {
    var r :| r in Group(f, p) && Index(r) < Index(s) + 1;
    IndexInjective(r, s);
  }

  /** A group reached at k is reached at k + 1. */
  lemma ReachedLater(f: Field, p: Pos, k: int)
    requires IsField(f) && Reached(f, p, k)
    ensures Reached(f, p, k + 1)
  {
    var r :| r in Group(f, p) && Index(r) < k;
  }

  /** Scanning an empty cell, or a cell already marked, changes nothing. */
  lemma ScanSkip(f: Field, toErase: seq<seq<bool>>, s: Pos)
    requires IsField(f) && InField(s) && ScanState(f, toErase, Index(s))
    requires At(f, s) == Empty || toErase[s.y][s.x]
    ensures ScanState(f, toErase, Index(s) + 1)
  {
    forall p | InField(p)
      ensures toErase[p.y][p.x] <==> Erasable(f, p) && Reached(f, p, Index(s) + 1)
    {
      if Reached(f, p, Index(s)) {
        ReachedLater(f, p, Index(s));
      } else if Erasable(f, p) && Reached(f, p, Index(s) + 1) {
        ReachedStep(f, p, s);
        if At(f, s) == Empty {
          LinkedSameCell(f, p, s);
          assert false;
        } else {
          GroupOfMember(f, p, s);
          assert false;
        }
      }
    }
  }

  /** Scanning the first cell of a group: the group is marked exactly when it has 4
      or more members. */
  lemma ScanGroup(f: Field, toErase: seq<seq<bool>>, marked: seq<seq<bool>>, s: Pos)
    requires IsField(f) && InField(s) && ScanState(f, toErase, Index(s))
    requires At(f, s) != Empty && !toErase[s.y][s.x]
    requires IsMatrix(marked)
    requires forall p :: InField(p) ==>
               (marked[p.y][p.x] <==> toErase[p.y][p.x] || (|Group(f, s)| >= 4 && p in Group(f, s)))
    ensures ScanState(f, marked, Index(s) + 1)
  {
    forall p | InField(p)
      ensures marked[p.y][p.x] <==> Erasable(f, p) && Reached(f, p, Index(s) + 1)
    {
      if p in Group(f, s) {
        GroupMemberReached(f, toErase, s, p);
      } else {
        OutsideGroup(f, s, p);
      }
    }
  }

  /** A member of the group of the cell scanned at s is reached at s and was not
      marked; it is erasable exactly when the group has 4 or more members. */
  lemma GroupMemberReached(f: Field, toErase: seq<seq<bool>>, s: Pos, p: Pos)
    requires IsField(f) && InField(s) && ScanState(f, toErase, Index(s))
    requires At(f, s) != Empty && !toErase[s.y][s.x] && p in Group(f, s)
    ensures Reached(f, p, Index(s) + 1) && !toErase[p.y][p.x]
    ensures Erasable(f, p) <==> |Group(f, s)| >= 4
  {
    GroupOfMember(f, s, p);
    LinkedSameCell(f, s, p);
    LinkedSelf(f, s);
    assert s in Group(f, p);
    if toErase[p.y][p.x] {
      assert Reached(f, s, Index(s));
      assert false;
    }
  }

  /** Outside the group of the cell scanned at s, being reached does not change. */
  lemma OutsideGroup(f: Field, s: Pos, p: Pos)
    requires IsField(f) && InField(s) && InField(p) && At(f, s) != Empty && p !in Group(f, s)
    ensures Reached(f, p, Index(s) + 1) <==> Reached(f, p, Index(s))
  {
    if Reached(f, p, Index(s)) {
      ReachedLater(f, p, Index(s));
    } else if Reached(f, p, Index(s) + 1) {
      ReachedStep(f, p, s);
      LinkedSymmetric(f, p, s);
      assert false;
    }
  }

  /** Marking a group of 4 or more that was not marked adds its size to the count. */
  lemma MarkedGrows(f: Field, toErase: seq<seq<bool>>, marked: seq<seq<bool>>, s: Pos)
    requires IsField(f) && InField(s) && ScanState(f, toErase, Index(s))
    requires At(f, s) != Empty && !toErase[s.y][s.x]
    requires IsMatrix(marked)
    requires forall p :: InField(p) ==> (marked[p.y][p.x] <==> toErase[p.y][p.x] || p in Group(f, s))
    ensures |Marked(marked)| == |Marked(toErase)| + |Group(f, s)|
  {
    forall p | p in Group(f, s)
      ensures p !in Marked(toErase)
    {
      GroupMemberReached(f, toErase, s, p);
    }
    assert Marked(marked) == Marked(toErase) + Group(f, s);
  }

  /** At the end of the scan every group has been reached: the marked cells are the
      erasable ones. */
  lemma ScanDone(f: Field, toErase: seq<seq<bool>>)
    requires IsField(f) && ScanState(f, toErase, FIELD_HEIGHT * FIELD_WIDTH)
    ensures forall p :: InField(p) ==> (toErase[p.y][p.x] <==> Erasable(f, p))
    ensures Marked(toErase) == ErasedCells(f)
  {
    forall p | InField(p) && Erasable(f, p)
      ensures Reached(f, p, FIELD_HEIGHT * FIELD_WIDTH)
    {
      LinkedSelf(f, p);
      assert p in Group(f, p);
    }
  }

  /** The source's marking loop over the members of a group. */
  method MarkAll(toErase: seq<seq<bool>>, connected: seq<Pos>) returns (marked: seq<seq<bool>>)
    requires IsMatrix(toErase) && forall i :: 0 <= i < |connected| ==> InField(connected[i])
    ensures IsMatrix(marked)
    ensures forall p :: InField(p) ==> (marked[p.y][p.x] <==> toErase[p.y][p.x] || p in connected)
  {
    marked := toErase;
    for i := 0 to |connected|
      invariant IsMatrix(marked)
      invariant forall p :: InField(p) ==> (marked[p.y][p.x] <==> toErase[p.y][p.x] || p in connected[..i])
    {
      marked := Mark(marked, connected[i]);
      assert connected[..i + 1] == connected[..i] + [connected[i]];
    }
    assert connected[..|connected|] == connected;
  }

  /** The field with every marked cell emptied (the source's final map over the
      field). */
  function ClearMarked(field: Field, toErase: seq<seq<bool>>): (r: Field)
    requires IsField(field) && IsMatrix(toErase)
    ensures IsField(r)
    ensures forall p :: InField(p) ==> At(r, p) == if toErase[p.y][p.x] then Empty else At(field, p)
  {
    seq(FIELD_HEIGHT, y requires 0 <= y < FIELD_HEIGHT =>
      seq(FIELD_WIDTH, x requires 0 <= x < FIELD_WIDTH => if toErase[y][x] then Empty else field[y][x]))
  }

  lemma ClearErasable(field: Field, toErase: seq<seq<bool>>)
    requires IsField(field) && IsMatrix(toErase)
    requires forall p :: InField(p) ==> (toErase[p.y][p.x] <==> Erasable(field, p))
    ensures ClearMarked(field, toErase) == Erase(field)
  {
    var r := ClearMarked(field, toErase);
    var e := Erase(field);
    forall y | 0 <= y < FIELD_HEIGHT
      ensures r[y] == e[y]
    {
      forall x | 0 <= x < FIELD_WIDTH
        ensures r[y][x] == e[y][x]
      {
        assert At(r, Pos(y, x)) == At(e, Pos(y, x));
      }
    }
  }

  /** The body of the scan at one cell: skip an empty or marked cell; otherwise
      search the cell's group and mark it when it has 4 or more members. */
  method ScanCell(field: Field, toErase: seq<seq<bool>>, erased: bool, erasedCount: int, s: Pos)
    returns (toErase': seq<seq<bool>>, erased': bool, erasedCount': int)
    requires IsField(field) && InField(s) && ScanState(field, toErase, Index(s))
    requires erasedCount == |Marked(toErase)| && (erased <==> erasedCount > 0)
    ensures ScanState(field, toErase', Index(s) + 1)
    ensures erasedCount' == |Marked(toErase')| && (erased' <==> erasedCount' > 0)
  {
    toErase', erased', erasedCount' := toErase, erased, erasedCount;
    if field[s.y][s.x] == Empty || toErase[s.y][s.x] {
      ScanSkip(field, toErase, s);
      return;
    }
    var connected := Search(field, s);
    if |connected| >= 4 {
      erased' := true;
      erasedCount' := erasedCount + |connected|;
      toErase' := MarkAll(toErase, connected);
      ScanGroup(field, toErase, toErase', s);
      MarkedGrows(field, toErase, toErase', s);
    } else {
      ScanGroup(field, toErase, toErase, s);
    }
  }

  /** The inner loop of the scan, over the cells of row y from left to right. */
  method ScanRow(field: Field, toErase: seq<seq<bool>>, erased: bool, erasedCount: int, y: int)
    returns (toErase': seq<seq<bool>>, erased': bool, erasedCount': int)
    requires IsField(field) && 0 <= y < FIELD_HEIGHT && ScanState(field, toErase, y * FIELD_WIDTH)
    requires erasedCount == |Marked(toErase)| && (erased <==> erasedCount > 0)
    ensures ScanState(field, toErase', (y + 1) * FIELD_WIDTH)
    ensures erasedCount' == |Marked(toErase')| && (erased' <==> erasedCount' > 0)
  {
    toErase', erased', erasedCount' := toErase, erased, erasedCount;
    for x := 0 to FIELD_WIDTH
      invariant ScanState(field, toErase', y * FIELD_WIDTH + x)
      invariant erasedCount' == |Marked(toErase')| && (erased' <==> erasedCount' > 0)
    {
      toErase', erased', erasedCount' := ScanCell(field, toErase', erased', erasedCount', Pos(y, x));
    }
    assert y * FIELD_WIDTH + FIELD_WIDTH == (y + 1) * FIELD_WIDTH;
  }

  /** One erase pass (the source's checkConnections): scan the field row by row, run
      the search from every puyo not yet marked, mark groups of 4 or more, and
      empty the marked cells. erasedCount is the number of cells emptied and erased
      says whether there was any. */
  method CheckConnections(field: Field) returns (newField: Field, erased: bool, erasedCount: int)
    requires IsField(field)
    ensures newField == Erase(field)
    ensures erasedCount == |ErasedCells(field)|
    ensures erased <==> erasedCount > 0
  {
    var toErase := FalseMatrix();
    erased := false;
    erasedCount := 0;
    for y := 0 to FIELD_HEIGHT
      invariant ScanState(field, toErase, y * FIELD_WIDTH)
      invariant erasedCount == |Marked(toErase)|
      invariant erased <==> erasedCount > 0
    {
      toErase, erased, erasedCount := ScanRow(field, toErase, erased, erasedCount, y);
    }
    ScanDone(field, toErase);
    ClearErasable(field, toErase);
    newField := ClearMarked(field, toErase);
  }
}
